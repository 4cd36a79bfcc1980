/** Under a clock that never runs backwards the exact fan-ins line up across levels: a stored
    480m row stands for 48 consecutive ten-minute rows. */
module Consecutive {
  import opened Congruence
  import opened History
  import opened HistoryRuns
  import opened Lineage

  type Logs = q: seq<seq<int>> | |q| == 4 witness [[], [], [], []]

  function AllInserted<R>(agg: Aggregator<R>, es: seq<Event<R>>): Logs {
    [Inserted(agg, es, 0), Inserted(agg, es, 1), Inserted(agg, es, 2), Inserted(agg, es, 3)]
  }

  /** Every rolled row inside a lineage was inserted by its own step at its own time. */
  ghost predicate Logged<P>(l: Lineage<P>, logs: Logs) {
    l.Rolled? ==>
      && (l.res != M1 ==> l.time in logs[StepInto(l.res)])
      && (forall k :: 0 <= k < |l.parts| ==> Logged(l.parts[k], logs))
  }

  predicate Extended(logs: Logs, logs': Logs) {
    forall i :: 0 <= i < 4 ==> logs[i] <= logs'[i]
  }

  lemma {:induction false} StaysLogged<P>(l: Lineage<P>, logs: Logs, logs': Logs)
    requires Logged(l, logs) && Extended(logs, logs')
    ensures Logged(l, logs')
  {
    match l
    case Raw(_, _) =>
    case Rolled(res, at, parts) =>
      forall k | 0 <= k < |parts|
        ensures Logged(parts[k], logs')
      {
        StaysLogged(parts[k], logs, logs');
      }
      if res != M1 {
        assert at in logs[StepInto(res)] && logs[StepInto(res)] <= logs'[StepInto(res)];
        InPrefix(logs[StepInto(res)], logs'[StepInto(res)], at);
      }
  }

  lemma InPrefix(p: seq<int>, q: seq<int>, x: int)
    requires p <= q && x in p
    ensures x in q
  {
    var k :| 0 <= k < |p| && p[k] == x;
    assert q[k] == x;
  }

  ghost predicate LevelLogged<P>(level: Level<Lineage<P>>, logs: Logs) {
    forall at :: at in level ==> Logged(level[at], logs)
  }

  ghost predicate TableLogged<P>(t: Table<Lineage<P>>, logs: Logs) {
    LevelLogged(t.m1, logs) && LevelLogged(t.m10, logs) && LevelLogged(t.m20, logs) &&
    LevelLogged(t.m120, logs) && LevelLogged(t.m480, logs)
  }

  /** The logs hold everything that a pass over t inserts. */
  ghost predicate LogsCover<P>(t: Table<Lineage<P>>, logs: Logs, now: int) {
    forall i, c :: 0 <= i < |STEPS| && c in Fired(AfterSteps(Graft(), t, i, now), STEPS[i], now) ==> c in logs[i]
  }

  lemma LevelStaysLogged<P>(level: Level<Lineage<P>>, logs: Logs, logs': Logs)
    requires LevelLogged(level, logs) && Extended(logs, logs')
    ensures LevelLogged(level, logs')
  {
    hide Extended, Logged;
    forall at | at in level
      ensures Logged(level[at], logs')
    {
      StaysLogged(level[at], logs, logs');
    }
  }

  lemma RolledAreLogged<P>(source: Level<Lineage<P>>, i: nat, start: int, upTo: int, logs: Logs)
    requires i < |STEPS| && LevelLogged(source, logs)
    requires forall c :: c in FiredIn(source, STEPS[i], start, upTo) ==> c in logs[i]
    ensures LevelLogged(RolledIn(Graft(), source, STEPS[i], start, upTo), logs)
  {
    hide FiredIn, InWindow, Load, Logged;
    var rolled := RolledIn(Graft(), source, STEPS[i], start, upTo);
    forall c | c in rolled
      ensures Logged(rolled[c], logs)
    {
      LoadedFrom(source, c - STEPS[i].window, c);
      NodeIsLogged(i, c, Load(source, c - STEPS[i].window, c), logs);
    }
  }

  lemma NodeIsLogged<P>(i: nat, c: int, parts: seq<Lineage<P>>, logs: Logs)
    requires i < |STEPS| && c in logs[i]
    requires forall k :: 0 <= k < |parts| ==> Logged(parts[k], logs)
    ensures Logged(Rolled(STEPS[i].longer, c, parts), logs)
  {
    assert STEPS[i].longer != M1 && StepInto(STEPS[i].longer) == i;
  }

  lemma LoadedFrom<R>(level: Level<R>, after: int, upTo: int)
    ensures
      var parts := Load(level, after, upTo);
      forall k :: 0 <= k < |parts| ==> exists at :: at in level && parts[k] == level[at]
  {
    hide Ascending;
    var times := Ascending(InWindow(level, after, upTo));
    var parts := Load(level, after, upTo);
    forall k | 0 <= k < |parts|
      ensures exists at :: at in level && parts[k] == level[at]
    {
      assert times[k] in times;
      assert parts[k] == level[times[k]];
    }
  }

  lemma TableLevelLogged<P>(t: Table<Lineage<P>>, r: Resolution, logs: Logs)
    requires TableLogged(t, logs)
    ensures LevelLogged(t.At(r), logs)
  {
    hide LevelLogged;
  }

  lemma WithLogged<P>(t: Table<Lineage<P>>, r: Resolution, level: Level<Lineage<P>>, logs: Logs)
    requires TableLogged(t, logs) && LevelLogged(level, logs)
    ensures TableLogged(t.With(r, level), logs)
  {
    hide LevelLogged;
  }

  lemma UnionLogged<P>(a: Level<Lineage<P>>, b: Level<Lineage<P>>, logs: Logs)
    requires LevelLogged(a, logs) && LevelLogged(b, logs)
    ensures LevelLogged(a + b, logs)
  {
    hide Logged;
  }

  lemma {:induction false} StepsKeepLogged<P>(t: Table<Lineage<P>>, logs: Logs, n: nat, now: int)
    requires n <= |STEPS|
    requires TableLogged(t, logs) && LogsCover(t, logs, now)
    ensures TableLogged(AfterSteps(Graft(), t, n, now), logs)
  {
    hide TableLogged, LevelLogged, RolledIn, StartCursor, Latest, FiredIn, Table.At, Table.With;
    if n > 0 {
      StepsKeepLogged(t, logs, n - 1, now);
      var before := AfterSteps(Graft(), t, n - 1, now);
      var step := STEPS[n - 1];
      var start := StartCursor(Latest(before.At(step.longer)), step, now);
      assert Fired(before, step, now) == FiredIn(before.At(step.shorter), step, start, now);
      TableLevelLogged(before, step.shorter, logs);
      TableLevelLogged(before, step.longer, logs);
      RolledAreLogged(before.At(step.shorter), n - 1, start, now, logs);
      var rolled := RolledIn(Graft(), before.At(step.shorter), step, start, now);
      UnionLogged(before.At(step.longer), rolled, logs);
      WithLogged(before, step.longer, before.At(step.longer) + rolled, logs);
    }
  }

  lemma {:induction false} RunsAreLogged<P>(es: seq<Event<P>>)
    ensures TableLogged(Run(Graft(), Traced(es)), AllInserted(Graft(), Traced(es)))
  {
    hide LevelLogged, AfterSteps, LogsCover, Extended, Inserted;
    if es == [] {
      EmptyIsLogged<P>(AllInserted(Graft(), Traced(es)));
    } else {
      var prefix := es[..|es| - 1];
      RunsAreLogged(prefix);
      var traced := Traced(es);
      assert traced[..|traced| - 1] == Traced(prefix);
      var t := Run(Graft(), Traced(prefix));
      var logs, logs' := AllInserted(Graft(), Traced(prefix)), AllInserted(Graft(), traced);
      LogsGrow(traced);
      TableStaysLogged(t, logs, logs');
      match es[|es| - 1]
      case Snapshot(at, row) =>
        assert traced[|traced| - 1] == Snapshot(at, Raw(at, row));
        RawIsLogged(t.m1, at, row, logs');
      case Maintenance(now) =>
        assert traced[|traced| - 1] == Maintenance(now);
        StepsKeepLogged(t, logs', |STEPS|, now);
        PruneLogged(AfterSteps(Graft(), t, |STEPS|, now), logs', now);
    }
  }

  lemma EmptyIsLogged<P>(logs: Logs)
    ensures TableLogged<P>(EmptyTable(), logs)
  {
  }

  lemma RawIsLogged<P>(level: Level<Lineage<P>>, at: int, row: P, logs: Logs)
    requires LevelLogged(level, logs)
    ensures LevelLogged(level[at := Raw(at, row)], logs)
  {
  }

  lemma PruneLogged<P>(t: Table<Lineage<P>>, logs: Logs, now: int)
    requires TableLogged(t, logs)
    ensures TableLogged(Prune(t, now), logs)
  {
    hide Logged, Retention;
  }

  lemma TableStaysLogged<P>(t: Table<Lineage<P>>, logs: Logs, logs': Logs)
    requires TableLogged(t, logs) && Extended(logs, logs')
    ensures TableLogged(t, logs')
  {
    hide LevelLogged, Extended;
    LevelStaysLogged(t.m1, logs, logs');
    LevelStaysLogged(t.m10, logs, logs');
    LevelStaysLogged(t.m20, logs, logs');
    LevelStaysLogged(t.m120, logs, logs');
    LevelStaysLogged(t.m480, logs, logs');
  }

  lemma LogsGrow<P>(es: seq<Event<Lineage<P>>>)
    requires es != []
    ensures Extended(AllInserted(Graft(), es[..|es| - 1]), AllInserted(Graft(), es))
    ensures es[|es| - 1].Maintenance? ==>
              LogsCover(Run(Graft(), es[..|es| - 1]), AllInserted(Graft(), es), es[|es| - 1].now)
  {
    hide Fired, AfterSteps, Run, Ascending;
    if es[|es| - 1].Maintenance? {
      var t, now := Run(Graft(), es[..|es| - 1]), es[|es| - 1].now;
      var logs := AllInserted(Graft(), es);
      forall i, c | 0 <= i < |STEPS| && c in Fired(AfterSteps(Graft(), t, i, now), STEPS[i], now)
        ensures c in logs[i]
      {
        assert c in Ascending(Fired(AfterSteps(Graft(), t, i, now), STEPS[i], now));
        assert logs[i] == Inserted(Graft(), es, i);
      }
    }
  }

  // ----- lining up the levels -----

  function PartsOf<P>(l: Lineage<P>): seq<Lineage<P>> {
    if l.Rolled? then l.parts else []
  }

  /** The sources of a sequence of rows, in order. */
  function Expand<P>(ls: seq<Lineage<P>>): seq<Lineage<P>> {
    if ls == [] then [] else Expand(ls[..|ls| - 1]) + PartsOf(ls[|ls| - 1])
  }

  /** Consecutive rows of the level that step i rolls into. */
  ghost predicate Consecutive<P>(ls: seq<Lineage<P>>, i: nat)
    requires i < |STEPS|
  {
    && EvenlySpaced(Times(ls), STEPS[i].window)
    && (forall k :: 0 <= k < |ls| ==> WellBuilt(ls[k], STEPS[i].longer))
  }

  predicate GridOf(q: seq<int>, d: int)
    requires d > 0
  {
    forall a, b :: 0 <= a < |q| && 0 <= b < |q| ==> Aligned(q[a], q[b], d)
  }

  lemma {:induction false} EvenDistance(q: seq<int>, d: int, a: nat, b: nat)
    requires EvenlySpaced(q, d) && a <= b < |q|
    ensures q[b] - q[a] == (b - a) * d
    decreases b - a
  {
    if a < b {
      EvenDistance(q, d, a, b - 1);
      assert q[b - 1 + 1] - q[b - 1] == d;
    }
  }

  /** The sources of one row fill its window: the first one lies in the window's first source
      slot and the last one in its last. */
  lemma PartsFillWindow<P>(l: Lineage<P>, i: nat)
    requires 0 < i < |STEPS| && WellBuilt(l, STEPS[i].longer)
    ensures
      var parts := PartsOf(l);
      var d := STEPS[i - 1].window;
      && |parts| == STEPS[i].minShorterRows
      && Consecutive(parts, i - 1)
      && l.time - STEPS[i].window < TimeOf(parts[0]) <= l.time - STEPS[i].window + d
      && l.time - d < TimeOf(parts[|parts| - 1]) <= l.time
  {
    hide WellBuilt;
    WellBuiltParts(l, i);
    var times := Times(l.parts);
    EvenDistance(times, STEPS[i - 1].window, 0, |times| - 1);
    StepsAreChained(i);
  }

  lemma WellBuiltParts<P>(l: Lineage<P>, i: nat)
    requires i < |STEPS| && WellBuilt(l, STEPS[i].longer)
    ensures l.Rolled? && l.res == STEPS[i].longer && FanIn(Times(l.parts), l.time, i)
    ensures forall k :: 0 <= k < |l.parts| ==> WellBuilt(l.parts[k], STEPS[i].shorter)
  {
    hide FanIn;
    assert STEPS[i].longer != M1 && StepInto(STEPS[i].longer) == i;
  }

  /** If the sources of consecutive rows lie on one grid, they are consecutive themselves. */
  lemma {:induction false} ExpandIsConsecutive<P>(ls: seq<Lineage<P>>, i: nat)
    requires 0 < i < |STEPS| && ls != []
    requires Consecutive(ls, i)
    requires GridOf(Times(Expand(ls)), STEPS[i - 1].window)
    ensures Expand(ls) != [] && |Expand(ls)| == STEPS[i].minShorterRows * |ls|
    ensures Consecutive(Expand(ls), i - 1)
    ensures TimeOf(ls[|ls| - 1]) - STEPS[i - 1].window < TimeOf(Expand(ls)[|Expand(ls)| - 1]) <= TimeOf(ls[|ls| - 1])
    decreases |ls|
  {
    hide WellBuilt, Aligned, Consecutive, GridOf;
    var last := ls[|ls| - 1];
    LastIsWellBuilt(ls, i);
    PartsFillWindow(last, i);
    if |ls| == 1 {
      assert ls[..0] == [];
      assert Expand(ls) == PartsOf(last);
    } else {
      var init := ls[..|ls| - 1];
      var head, tail := Expand(init), PartsOf(last);
      assert Expand(ls) == head + tail;
      InitIsConsecutive(ls, i);
      HeadIsOnGrid(head, tail, STEPS[i - 1].window);
      ExpandIsConsecutive(init, i);
      NextSlot(head, tail, STEPS[i - 1].window);
      Join(head, tail, i - 1);
      OneMore(STEPS[i].minShorterRows, |ls|);
    }
  }

  lemma OneMore(n: nat, k: nat)
    requires k > 0
    ensures n * (k - 1) + n == n * k && n * 1 == n
  {
  }

  lemma LastIsWellBuilt<P>(ls: seq<Lineage<P>>, i: nat)
    requires i < |STEPS| && ls != [] && Consecutive(ls, i)
    ensures WellBuilt(ls[|ls| - 1], STEPS[i].longer) && ls[|ls| - 1].Rolled?
  {
    WellBuiltParts(ls[|ls| - 1], i);
  }

  lemma InitIsConsecutive<P>(ls: seq<Lineage<P>>, i: nat)
    requires i < |STEPS| && |ls| > 1 && Consecutive(ls, i)
    ensures Consecutive(ls[..|ls| - 1], i)
    ensures TimeOf(ls[|ls| - 1]) - TimeOf(ls[..|ls| - 1][|ls| - 2]) == STEPS[i].window
  {
    hide WellBuilt;
    var q, init := Times(ls), Times(ls[..|ls| - 1]);
    assert q[|ls| - 2 + 1] - q[|ls| - 2] == STEPS[i].window;
    forall k | 0 <= k < |init| - 1
      ensures init[k + 1] - init[k] == STEPS[i].window
    {
      assert q[k + 1] - q[k] == STEPS[i].window;
    }
  }

  lemma HeadIsOnGrid<P>(head: seq<Lineage<P>>, tail: seq<Lineage<P>>, d: int)
    requires d > 0 && GridOf(Times(head + tail), d)
    ensures GridOf(Times(head), d)
  {
    hide Aligned;
    var all := Times(head + tail);
    forall a, b | 0 <= a < |head| && 0 <= b < |head|
      ensures Aligned(Times(head)[a], Times(head)[b], d)
    {
      assert Aligned(all[a], all[b], d);
    }
  }

  /** A grid point in the slot before a boundary and one in the slot after it are neighbours. */
  lemma NextSlot<P>(head: seq<Lineage<P>>, tail: seq<Lineage<P>>, d: int)
    requires d > 0 && head != [] && tail != []
    requires GridOf(Times(head + tail), d)
    requires 0 < TimeOf(tail[0]) - TimeOf(head[|head| - 1]) < 2 * d
    ensures TimeOf(tail[0]) - TimeOf(head[|head| - 1]) == d
  {
    hide Aligned;
    var all := Times(head + tail);
    assert Aligned(all[|head|], all[|head| - 1], d);
    SingleStep(all[|head| - 1], all[|head|], d);
  }

  /** Two grid points less than two steps apart are one step apart. */
  lemma SingleStep(a: int, b: int, d: int)
    requires d > 0 && Aligned(b, a, d) && 0 < b - a < 2 * d
    ensures b - a == d
  {
    hide Aligned;
    var k := Apart(b, a, d);
    assert (k - 1) * d == k * d - d;
    MulBound(k, d);
    MulBound(k - 1, d);
  }

  lemma Join<P>(head: seq<Lineage<P>>, tail: seq<Lineage<P>>, i: nat)
    requires i < |STEPS| && head != [] && tail != []
    requires Consecutive(head, i) && Consecutive(tail, i)
    requires TimeOf(tail[0]) - TimeOf(head[|head| - 1]) == STEPS[i].window
    ensures Consecutive(head + tail, i)
  {
    hide WellBuilt;
    var all := Times(head + tail);
    forall k | 0 <= k < |all| - 1
      ensures all[k + 1] - all[k] == STEPS[i].window
    {
      if k + 1 < |head| {
        assert Times(head)[k + 1] - Times(head)[k] == STEPS[i].window;
      } else if k >= |head| {
        assert Times(tail)[k - |head| + 1] - Times(tail)[k - |head|] == STEPS[i].window;
      }
    }
  }

  lemma {:induction false} ExpandWithin<P>(ls: seq<Lineage<P>>, i: nat, logs: Logs)
    requires i < |STEPS|
    requires forall k :: 0 <= k < |ls| ==> WellBuilt(ls[k], STEPS[i].longer) && Logged(ls[k], logs)
    ensures forall x :: x in Expand(ls) ==>
              Logged(x, logs) &&
              exists k :: 0 <= k < |ls| && TimeOf(ls[k]) - STEPS[i].window < TimeOf(x) <= TimeOf(ls[k])
    ensures forall x :: x in Expand(ls) ==> WellBuilt(x, STEPS[i].shorter)
    decreases |ls|
  {
    hide WellBuilt;
    if ls != [] {
      var last := ls[|ls| - 1];
      var init := ls[..|ls| - 1];
      ExpandWithin(init, i, logs);
      WellBuiltParts(last, i);
      forall x | x in Expand(ls)
        ensures Logged(x, logs) && WellBuilt(x, STEPS[i].shorter)
        ensures exists k :: 0 <= k < |ls| && TimeOf(ls[k]) - STEPS[i].window < TimeOf(x) <= TimeOf(ls[k])
      {
        if x in Expand(init) {
          var k :| 0 <= k < |init| && TimeOf(init[k]) - STEPS[i].window < TimeOf(x) <= TimeOf(init[k]);
          assert ls[k] == init[k];
        } else {
          var k :| 0 <= k < |last.parts| && last.parts[k] == x;
          assert Times(last.parts)[k] == TimeOf(x);
          assert ls[|ls| - 1] == last;
        }
      }
    }
  }

  /** Sources that one log inserted within one retention period lie on one grid. */
  lemma LoggedSourcesShareGrid<P>(ls: seq<Lineage<P>>, i: nat, logs: Logs)
    requires 0 < i < |STEPS| && ls != []
    requires Consecutive(ls, i)
    requires forall k :: 0 <= k < |ls| ==> Logged(ls[k], logs)
    requires NearAligned(logs[i - 1], STEPS[i - 1].window, Retention(STEPS[i - 1].longer))
    requires |ls| * STEPS[i].window <= Retention(STEPS[i - 1].longer)
    ensures GridOf(Times(Expand(ls)), STEPS[i - 1].window)
    ensures forall x :: x in Expand(ls) ==> Logged(x, logs)
  {
    hide WellBuilt, Aligned, Logged, Retention;
    ExpandWithin(ls, i, logs);
    var q := Times(Expand(ls));
    var w := STEPS[i].window;
    forall a, b | 0 <= a < |q| && 0 <= b < |q|
      ensures Aligned(q[a], q[b], STEPS[i - 1].window)
    {
      var x, y := Expand(ls)[a], Expand(ls)[b];
      assert x in Expand(ls) && y in Expand(ls);
      TimeIsLogged(x, i, logs);
      TimeIsLogged(y, i, logs);
      var j :| 0 <= j < |ls| && TimeOf(ls[j]) - w < TimeOf(x) <= TimeOf(ls[j]);
      var k :| 0 <= k < |ls| && TimeOf(ls[k]) - w < TimeOf(y) <= TimeOf(ls[k]);
      SpreadOf(Times(ls), w, j);
      SpreadOf(Times(ls), w, k);
      var m :| 0 <= m < |logs[i - 1]| && logs[i - 1][m] == TimeOf(x);
      var n :| 0 <= n < |logs[i - 1]| && logs[i - 1][n] == TimeOf(y);
      assert Aligned(logs[i - 1][m], logs[i - 1][n], STEPS[i - 1].window);
    }
  }

  lemma SpreadOf(q: seq<int>, w: int, k: nat)
    requires w > 0 && k < |q| && EvenlySpaced(q, w)
    ensures q[0] <= q[k] <= q[0] + |q| * w - w
  {
    EvenDistance(q, w, 0, k);
    MulBound(k, w);
    if k < |q| - 1 {
      MulOrder(k, |q| - 1, w);
    }
    assert (|q| - 1) * w == |q| * w - w;
  }

  lemma TimeIsLogged<P>(x: Lineage<P>, i: nat, logs: Logs)
    requires 0 < i < |STEPS| && WellBuilt(x, STEPS[i].shorter) && Logged(x, logs)
    ensures TimeOf(x) in logs[i - 1]
  {
    StepsAreChained(i);
    assert StepInto(STEPS[i - 1].longer) == i - 1;
  }

  /** A stored 480m row is made of exactly 48 ten-minute rows, ten minutes apart, each of at
      least nine raw rows. */
  lemma FortyEightConsecutive<P>(es: seq<Event<P>>, at: int)
    requires Monotone(es) && at in Run(Graft(), Traced(es)).m480
    ensures
      var row := Run(Graft(), Traced(es)).m480[at];
      var m120 := PartsOf(row);
      var m20 := Expand(m120);
      var m10 := Expand(m20);
      && |m120| == 4 && |m20| == 24 && |m10| == 48
      && Consecutive(m120, 2) && Consecutive(m20, 1) && Consecutive(m10, 0)
  {
    hide WellBuilt, Aligned, Logged, NearAligned, Run, Inserted, Consecutive, GridOf, EvenlySpaced;
    var traced := Traced(es);
    var logs := AllInserted(Graft(), traced);
    TracedClock(es);
    LineagesAreExact(es);
    RunsAreLogged(es);
    LogHolds(Graft(), traced, 0);
    LogHolds(Graft(), traced, 1);
    var row := Run(Graft(), traced).m480[at];
    RowFacts(Run(Graft(), traced), logs, at);
    PartsFillWindow(row, 3);
    PartsLogged(row, logs);
    var m120 := PartsOf(row);
    LoggedSourcesShareGrid(m120, 2, logs);
    ExpandIsConsecutive(m120, 2);
    var m20 := Expand(m120);
    assert forall k :: 0 <= k < |m20| ==> m20[k] in m20;
    LoggedSourcesShareGrid(m20, 1, logs);
    ExpandIsConsecutive(m20, 1);
  }

  /** Tracing changes no time. */
  lemma {:induction false} TracedClock<P>(es: seq<Event<P>>)
    ensures Clock(Traced(es)) == Clock(es)
    ensures Monotone(Traced(es)) <==> Monotone(es)
  {
    if es != [] {
      assert Traced(es)[..|es| - 1] == Traced(es[..|es| - 1]);
      TracedClock(es[..|es| - 1]);
    }
  }

  lemma RowFacts<P>(t: Table<Lineage<P>>, logs: Logs, at: int)
    requires TableOk(t) && TableLogged(t, logs) && at in t.m480
    ensures WellBuilt(t.m480[at], M480) && Logged(t.m480[at], logs)
  {
    hide WellBuilt, Logged;
  }

  lemma PartsLogged<P>(l: Lineage<P>, logs: Logs)
    requires Logged(l, logs)
    ensures forall k :: 0 <= k < |PartsOf(l)| ==> Logged(PartsOf(l)[k], logs)
  {
  }
}
