/** Where stored records come from. Running the history on lineages instead of payloads
    records every source a rolled row was made of; evaluating a lineage with the real
    aggregation gives back the stored payload, so facts about lineages hold of payloads. */
module Lineage {
  import opened Congruence
  import opened History
  import opened HistoryRuns

  datatype Lineage<+P> =
    | Raw(at: int, payload: P)
    | Rolled(res: Resolution, time: int, parts: seq<Lineage<P>>)

  function TimeOf<P>(l: Lineage<P>): int {
    if l.Raw? then l.at else l.time
  }

  function Times<P>(ls: seq<Lineage<P>>): (ts: seq<int>)
    ensures |ts| == |ls|
  {
    seq(|ls|, i requires 0 <= i < |ls| => TimeOf(ls[i]))
  }

  /** The aggregation that only remembers its arguments. */
  function Graft<P>(): Aggregator<Lineage<P>> {
    (res, at, parts) => Rolled(res, at, parts)
  }

  /** The same run with every snapshot recorded as a raw lineage. */
  function Traced<P>(es: seq<Event<P>>): (ts: seq<Event<Lineage<P>>>)
    ensures |ts| == |es|
  {
    seq(|es|, i requires 0 <= i < |es| => TracedEvent(es[i]))
  }

  function TracedEvent<P>(e: Event<P>): Event<Lineage<P>> {
    match e
    case Snapshot(at, payload) => Snapshot(at, Raw(at, payload))
    case Maintenance(now) => Maintenance(now)
  }

  // ----- evaluation -----

  function Eval<P>(agg: Aggregator<P>, l: Lineage<P>): P
    decreases l, 1
  {
    match l
    case Raw(_, payload) => payload
    case Rolled(res, at, parts) => agg(res, at, EvalAll(agg, parts))
  }

  function EvalAll<P>(agg: Aggregator<P>, ls: seq<Lineage<P>>): (ps: seq<P>)
    ensures |ps| == |ls|
    ensures forall i :: 0 <= i < |ls| ==> ps[i] == Eval(agg, ls[i])
    decreases ls, 0
  {
    if ls == [] then [] else [Eval(agg, ls[0])] + EvalAll(agg, ls[1..])
  }

  function EvalLevel<P>(agg: Aggregator<P>, level: Level<Lineage<P>>): Level<P> {
    map at | at in level :: Eval(agg, level[at])
  }

  function EvalTable<P>(agg: Aggregator<P>, t: Table<Lineage<P>>): Table<P> {
    Table(EvalLevel(agg, t.m1), EvalLevel(agg, t.m10), EvalLevel(agg, t.m20),
          EvalLevel(agg, t.m120), EvalLevel(agg, t.m480))
  }

  /** Payloads in a table are the values of their lineages, after every run. */
  lemma {:induction false} RunEvaluatesLineages<P>(agg: Aggregator<P>, es: seq<Event<P>>)
    ensures EvalTable(agg, Run(Graft(), Traced(es))) == Run(agg, es)
  {
    if es != [] {
      var prefix := es[..|es| - 1];
      RunEvaluatesLineages(agg, prefix);
      assert Traced(es)[..|es| - 1] == Traced(prefix);
      var t := Run(Graft(), Traced(prefix));
      match es[|es| - 1]
      case Snapshot(at, row) =>
        assert EvalLevel(agg, t.m1[at := Raw(at, row)]) == EvalLevel(agg, t.m1)[at := row];
      case Maintenance(now) =>
        StepsEvaluate(agg, t, |STEPS|, now);
        PruneEvaluates(agg, AfterSteps(Graft(), t, |STEPS|, now), now);
    }
  }

  lemma PruneEvaluates<P>(agg: Aggregator<P>, t: Table<Lineage<P>>, now: int)
    ensures EvalTable(agg, Prune(t, now)) == Prune(EvalTable(agg, t), now)
  {
    forall level: Level<Lineage<P>>, since: int
      ensures EvalLevel(agg, Keep(level, since)) == Keep(EvalLevel(agg, level), since)
    {
    }
  }

  lemma {:induction false} StepsEvaluate<P>(agg: Aggregator<P>, t: Table<Lineage<P>>, n: nat, now: int)
    requires n <= |STEPS|
    ensures EvalTable(agg, AfterSteps(Graft(), t, n, now)) == AfterSteps(agg, EvalTable(agg, t), n, now)
  {
    if n > 0 {
      StepsEvaluate(agg, t, n - 1, now);
      StepEvaluates(agg, AfterSteps(Graft(), t, n - 1, now), STEPS[n - 1], now);
    }
  }

  lemma StepEvaluates<P>(agg: Aggregator<P>, t: Table<Lineage<P>>, step: RollupStep, now: int)
    ensures EvalTable(agg, ApplyStep(Graft(), t, step, now)) == ApplyStep(agg, EvalTable(agg, t), step, now)
  {
    hide RolledIn, StartCursor, EvalLevel, EvalTable, Latest, Table.At, Table.With;
    var start := StartCursor(Latest(t.At(step.longer)), step, now);
    WithEvaluates(agg, t, step.longer, t.At(step.longer) + RolledIn(Graft(), t.At(step.shorter), step, start, now));
    LevelsEvaluate(agg, t, step.longer);
    LevelsEvaluate(agg, t, step.shorter);
    LatestIgnoresRows(agg, t.At(step.longer));
    RolledEvaluates(agg, t.At(step.shorter), step, start, now);
    UnionEvaluates(agg, t.At(step.longer), RolledIn(Graft(), t.At(step.shorter), step, start, now));
  }

  lemma WithEvaluates<P>(agg: Aggregator<P>, t: Table<Lineage<P>>, r: Resolution, level: Level<Lineage<P>>)
    ensures EvalTable(agg, t.With(r, level)) == EvalTable(agg, t).With(r, EvalLevel(agg, level))
  {
    hide EvalLevel;
  }

  lemma LevelsEvaluate<P>(agg: Aggregator<P>, t: Table<Lineage<P>>, r: Resolution)
    ensures EvalTable(agg, t).At(r) == EvalLevel(agg, t.At(r))
  {
    hide EvalLevel;
  }

  lemma LatestIgnoresRows<P>(agg: Aggregator<P>, level: Level<Lineage<P>>)
    ensures Latest(EvalLevel(agg, level)) == Latest(level)
  {
    assert EvalLevel(agg, level).Keys == level.Keys;
  }

  lemma UnionEvaluates<P>(agg: Aggregator<P>, a: Level<Lineage<P>>, b: Level<Lineage<P>>)
    ensures EvalLevel(agg, a + b) == EvalLevel(agg, a) + EvalLevel(agg, b)
  {
    hide Eval;
  }

  lemma RolledEvaluates<P>(agg: Aggregator<P>, source: Level<Lineage<P>>, step: RollupStep, start: int, upTo: int)
    ensures EvalLevel(agg, RolledIn(Graft(), source, step, start, upTo))
         == RolledIn(agg, EvalLevel(agg, source), step, start, upTo)
  {
    hide Cursors, Load, InWindow, EvalLevel, Eval;
    var left := RolledIn(Graft(), source, step, start, upTo);
    var right := RolledIn(agg, EvalLevel(agg, source), step, start, upTo);
    forall c | c in Cursors(step, start, upTo)
      ensures InWindow(EvalLevel(agg, source), c - step.window, c) == InWindow(source, c - step.window, c)
      ensures Load(EvalLevel(agg, source), c - step.window, c) == EvalAll(agg, Load(source, c - step.window, c))
    {
      LoadEvaluates(agg, source, c - step.window, c);
    }
    assert left.Keys == right.Keys;
    forall c | c in left
      ensures Eval(agg, left[c]) == right[c]
    {
      NodeEvaluates(agg, step.longer, c, Load(source, c - step.window, c));
    }
    EvalLevelIs(agg, left, right);
  }

  lemma NodeEvaluates<P>(agg: Aggregator<P>, r: Resolution, c: int, parts: seq<Lineage<P>>)
    ensures Eval(agg, Rolled(r, c, parts)) == agg(r, c, EvalAll(agg, parts))
  {
  }

  lemma EvalLevelIs<P>(agg: Aggregator<P>, left: Level<Lineage<P>>, right: Level<P>)
    requires left.Keys == right.Keys
    requires forall c :: c in left ==> Eval(agg, left[c]) == right[c]
    ensures EvalLevel(agg, left) == right
  {
    hide Eval;
    var e := EvalLevel(agg, left);
    assert e.Keys == right.Keys;
    forall c | c in e
      ensures e[c] == right[c]
    {
      assert c in left;
    }
  }

  lemma LoadEvaluates<P>(agg: Aggregator<P>, source: Level<Lineage<P>>, after: int, upTo: int)
    ensures InWindow(EvalLevel(agg, source), after, upTo) == InWindow(source, after, upTo)
    ensures Load(EvalLevel(agg, source), after, upTo) == EvalAll(agg, Load(source, after, upTo))
  {
    hide Ascending;
    var times := Ascending(InWindow(source, after, upTo));
    assert InWindow(EvalLevel(agg, source), after, upTo) == InWindow(source, after, upTo);
    assert forall i :: 0 <= i < |times| ==> times[i] in times;
  }

  // ----- what a stored lineage looks like -----

  function StepInto(r: Resolution): (i: nat)
    requires r != M1
    ensures i < |STEPS| && STEPS[i].longer == r
  {
    match r
    case M10 => 0
    case M20 => 1
    case M120 => 2
    case M480 => 3
  }

  predicate EvenlySpaced(q: seq<int>, d: int) {
    forall k :: 0 <= k < |q| - 1 ==> q[k + 1] - q[k] == d
  }

  predicate InsideWindow(q: seq<int>, after: int, upTo: int) {
    forall k :: 0 <= k < |q| ==> after < q[k] <= upTo
  }

  /** A lineage of resolution r with exact fan-in all the way down: a 20m row is made of
      exactly two 10m rows, a 120m row of exactly six 20m rows and a 480m row of exactly four
      120m rows, each one source window after the other; a 10m row is made of at least nine
      raw rows; and every source lies in the row's own window. */
  ghost predicate WellBuilt<P>(l: Lineage<P>, r: Resolution) {
    match l
    case Raw(_, _) => r == M1
    case Rolled(res, at, parts) =>
      && res == r != M1
      && FanIn(Times(parts), at, StepInto(r))
      && (forall k :: 0 <= k < |parts| ==> WellBuilt(parts[k], STEPS[StepInto(r)].shorter))
  }

  predicate FanIn(times: seq<int>, at: int, i: nat)
    requires i < |STEPS|
  {
    && StrictlyAscending(times)
    && InsideWindow(times, at - STEPS[i].window, at)
    && |times| >= STEPS[i].minShorterRows
    && (i > 0 ==> |times| == STEPS[i].minShorterRows && EvenlySpaced(times, STEPS[i - 1].window))
  }

  /** Pigeonhole on one grid: a half-open window of n grid steps that holds at least n grid
      points holds exactly n, one step apart. */
  lemma GridWindowIsFull(q: seq<int>, d: int, n: nat, after: int, upTo: int)
    requires d > 0 && |q| >= n > 0 && upTo - after == n * d
    requires StrictlyAscending(q) && InsideWindow(q, after, upTo)
    requires forall i, j :: 0 <= i < |q| && 0 <= j < |q| ==> Aligned(q[i], q[j], d)
    ensures |q| == n && EvenlySpaced(q, d)
  {
    hide Aligned, StrictlyAscending;
    AlignedAscendingIsGapped(q, d);
    GappedDistance(q, d, 0, |q| - 1);
    assert (n - 1) * d == n * d - d;
    if |q| > n {
      MulOrder(n - 1, |q| - 1, d);
      assert false;
    }
    forall k | 0 <= k < |q| - 1
      ensures q[k + 1] - q[k] == d
    {
      assert q[k + 1] - q[k] >= d;
      assert k * d + (|q| - 1 - (k + 1)) * d + 2 * d == |q| * d;
      if q[k + 1] - q[k] > d {
        AlignedShift(q[k], 1, d);
        AlignedSym(q[k] + 1 * d, q[k], d);
        AlignedTrans(q[k + 1], q[k], q[k] + d, d);
        AlignedGap(q[k] + d, q[k + 1], d);
        GappedDistance(q, d, 0, k);
        GappedDistance(q, d, k + 1, |q| - 1);
        assert false;
      }
    }
  }

  ghost predicate LevelOk<P>(level: Level<Lineage<P>>, r: Resolution) {
    forall at :: at in level ==> TimeOf(level[at]) == at && WellBuilt(level[at], r)
  }

  lemma LoadedParts<P>(level: Level<Lineage<P>>, r: Resolution, after: int, upTo: int)
    requires LevelOk(level, r)
    ensures Times(Load(level, after, upTo)) == Ascending(InWindow(level, after, upTo))
    ensures var parts := Load(level, after, upTo); forall k :: 0 <= k < |parts| ==> WellBuilt(parts[k], r)
  {
    hide WellBuilt, Ascending;
    var times := Ascending(InWindow(level, after, upTo));
    var parts := Load(level, after, upTo);
    assert forall k :: 0 <= k < |times| ==> times[k] in times;
    forall k | 0 <= k < |parts|
      ensures parts[k] == level[times[k]] && TimeOf(parts[k]) == times[k] && WellBuilt(parts[k], r)
    {
      assert times[k] in level;
    }
  }

  lemma WindowFanIn<R>(source: Level<R>, i: nat, c: int)
    requires i < |STEPS|
    requires i > 0 ==> PairwiseAligned(source.Keys, STEPS[i - 1].window)
    requires |InWindow(source, c - STEPS[i].window, c)| >= STEPS[i].minShorterRows
    ensures FanIn(Ascending(InWindow(source, c - STEPS[i].window, c)), c, i)
  {
    hide Aligned, Ascending;
    var q := Ascending(InWindow(source, c - STEPS[i].window, c));
    assert forall k :: 0 <= k < |q| ==> q[k] in q;
    if i > 0 {
      GridWindowIsFull(q, STEPS[i - 1].window, STEPS[i].minShorterRows, c - STEPS[i].window, c);
    }
  }

  lemma RolledRowsAreOk<P>(source: Level<Lineage<P>>, i: nat, start: int, upTo: int)
    requires i < |STEPS|
    requires LevelOk(source, STEPS[i].shorter)
    requires i > 0 ==> PairwiseAligned(source.Keys, STEPS[i - 1].window)
    ensures LevelOk(RolledIn(Graft(), source, STEPS[i], start, upTo), STEPS[i].longer)
  {
    hide Cursors, InWindow, LevelOk, Load, WellBuilt, PairwiseAligned, Aligned;
    var rolled := RolledIn(Graft(), source, STEPS[i], start, upTo);
    forall c | c in rolled
      ensures TimeOf(rolled[c]) == c && WellBuilt(rolled[c], STEPS[i].longer)
    {
      RolledRowIsOk(source, i, c);
    }
    LevelOkIf(rolled, STEPS[i].longer);
  }

  lemma RolledRowIsOk<P>(source: Level<Lineage<P>>, i: nat, c: int)
    requires i < |STEPS|
    requires LevelOk(source, STEPS[i].shorter)
    requires i > 0 ==> PairwiseAligned(source.Keys, STEPS[i - 1].window)
    requires |InWindow(source, c - STEPS[i].window, c)| >= STEPS[i].minShorterRows
    ensures WellBuilt(Rolled(STEPS[i].longer, c, Load(source, c - STEPS[i].window, c)), STEPS[i].longer)
  {
    hide FanIn, InWindow, LevelOk, Load, WellBuilt, PairwiseAligned, Aligned;
    LoadedParts(source, STEPS[i].shorter, c - STEPS[i].window, c);
    WindowFanIn(source, i, c);
    BuiltRow(i, c, Load(source, c - STEPS[i].window, c));
  }

  lemma BuiltRow<P>(i: nat, c: int, parts: seq<Lineage<P>>)
    requires i < |STEPS| && FanIn(Times(parts), c, i)
    requires forall k :: 0 <= k < |parts| ==> WellBuilt(parts[k], STEPS[i].shorter)
    ensures WellBuilt(Rolled(STEPS[i].longer, c, parts), STEPS[i].longer)
  {
    hide FanIn;
    assert StepInto(STEPS[i].longer) == i && STEPS[i].longer != M1;
  }

  lemma LevelOkIf<P>(level: Level<Lineage<P>>, r: Resolution)
    requires forall at :: at in level ==> TimeOf(level[at]) == at && WellBuilt(level[at], r)
    ensures LevelOk(level, r)
  {
  }

  ghost predicate TableOk<P>(t: Table<Lineage<P>>) {
    LevelOk(t.m1, M1) && LevelOk(t.m10, M10) && LevelOk(t.m20, M20) && LevelOk(t.m120, M120) && LevelOk(t.m480, M480)
  }

  ghost predicate OnGrids<R>(t: Table<R>) {
    forall i :: 0 <= i < |STEPS| ==> PairwiseAligned(t.At(STEPS[i].longer).Keys, STEPS[i].window)
  }

  lemma {:induction false} StepsKeepLineages<P>(t: Table<Lineage<P>>, n: nat, now: int)
    requires n <= |STEPS|
    requires TableOk(t) && OnGrids(t)
    ensures TableOk(AfterSteps(Graft(), t, n, now))
  {
    hide LevelOk, PairwiseAligned, RolledIn, StartCursor, Latest;
    if n > 0 {
      var i := n - 1;
      StepsKeepLineages(t, i, now);
      var before := AfterSteps(Graft(), t, i, now);
      var start := StartCursor(Latest(before.At(STEPS[i].longer)), STEPS[i], now);
      StepsAreChained(i);
      if i > 0 {
        assert PairwiseAligned(t.At(STEPS[i - 1].longer).Keys, STEPS[i - 1].window);
        PassKeepsSpacing(Graft(), t, i - 1, now);
      }
      TableLevel(before, STEPS[i].shorter);
      TableLevel(before, STEPS[i].longer);
      RolledRowsAreOk(before.At(STEPS[i].shorter), i, start, now);
      UnionOk(before.At(STEPS[i].longer), RolledIn(Graft(), before.At(STEPS[i].shorter), STEPS[i], start, now),
              STEPS[i].longer);
      StepOk(before, STEPS[i], now);
    }
  }

  lemma StepOk<P>(t: Table<Lineage<P>>, step: RollupStep, now: int)
    requires TableOk(t)
    requires LevelOk(ApplyStep(Graft(), t, step, now).At(step.longer), step.longer)
    ensures TableOk(ApplyStep(Graft(), t, step, now))
  {
    hide LevelOk, RolledIn, StartCursor, Latest;
  }

  lemma TableLevel<P>(t: Table<Lineage<P>>, r: Resolution)
    requires TableOk(t)
    ensures LevelOk(t.At(r), r)
  {
    hide LevelOk;
  }

  lemma UnionOk<P>(a: Level<Lineage<P>>, b: Level<Lineage<P>>, r: Resolution)
    requires LevelOk(a, r) && LevelOk(b, r)
    ensures LevelOk(a + b, r)
  {
    hide WellBuilt;
  }

  lemma PruneOk<P>(t: Table<Lineage<P>>, now: int)
    requires TableOk(t)
    ensures TableOk(Prune(t, now))
  {
    hide WellBuilt;
  }

  /** Exact fan-in over every run, whatever the clock did. */
  lemma {:induction false} LineagesAreExact<P>(es: seq<Event<P>>)
    ensures TableOk(Run(Graft(), Traced(es)))
  {
    hide WellBuilt, AfterSteps, OnGrids;
    if es != [] {
      var prefix := es[..|es| - 1];
      LineagesAreExact(prefix);
      assert Traced(es)[..|es| - 1] == Traced(prefix);
      var t := Run(Graft(), Traced(prefix));
      match es[|es| - 1]
      case Snapshot(at, row) =>
        RawOk(at, row);
      case Maintenance(now) =>
        RunsOnGrids(Graft(), Traced(prefix));
        StepsKeepLineages(t, |STEPS|, now);
        PruneOk(AfterSteps(Graft(), t, |STEPS|, now), now);
    }
  }

  lemma RawOk<P>(at: int, row: P)
    ensures WellBuilt(Raw(at, row), M1)
  {
  }

  lemma RunsOnGrids<R>(agg: Aggregator<R>, es: seq<Event<R>>)
    ensures OnGrids(Run(agg, es))
  {
    hide PairwiseAligned, Run;
    forall i | 0 <= i < |STEPS|
      ensures PairwiseAligned(Run(agg, es).At(STEPS[i].longer).Keys, STEPS[i].window)
    {
      SpacingHolds(agg, es, i);
    }
  }
}
