/** Runs of a history table: snapshot writes and maintenance passes in any order and at any
    times, starting from an empty table, and what every such run keeps. */
module HistoryRuns {
  import opened Basics
  import opened Congruence
  import opened History

  datatype Event<+R> = Snapshot(at: int, row: R) | Maintenance(now: int)

  function Next<R>(agg: Aggregator<R>, t: Table<R>, e: Event<R>): Table<R> {
    match e
    case Snapshot(at, row) => InsertRow(t, at, row)
    case Maintenance(now) => Maintain(agg, t, now)
  }

  function Run<R>(agg: Aggregator<R>, es: seq<Event<R>>): Table<R> {
    if es == [] then EmptyTable()
    else Next(agg, Run(agg, es[..|es| - 1]), es[|es| - 1])
  }

  lemma MaintenanceRuns<R>(agg: Aggregator<R>, es: seq<Event<R>>, now: int)
    ensures Run(agg, es + [Maintenance(now)]) == Maintain(agg, Run(agg, es), now)
  {
    hide Maintain;
    assert (es + [Maintenance(now)])[..|es|] == es;
  }

  lemma SnapshotRuns<R>(agg: Aggregator<R>, es: seq<Event<R>>, at: int, row: R)
    ensures Run(agg, es + [Snapshot(at, row)]) == InsertRow(Run(agg, es), at, row)
    ensures InsertRow(Run(agg, es), at, row) == Run(agg, es).With(M1, Run(agg, es).At(M1)[at := row])
  {
    assert (es + [Snapshot(at, row)])[..|es|] == es;
  }

  lemma PassUnfolds<R>(agg: Aggregator<R>, t: Table<R>, now: int)
    ensures AfterSteps(agg, t, 0, now) == t
    ensures Maintain(agg, t, now) == Prune(AfterSteps(agg, t, |STEPS|, now), now)
  {
    hide Prune, ApplyStep;
  }

  lemma PassContinues<R>(agg: Aggregator<R>, t: Table<R>, i: nat, now: int)
    requires i < |STEPS|
    ensures AfterSteps(agg, t, i + 1, now) == ApplyStep(agg, AfterSteps(agg, t, i, now), STEPS[i], now)
  {
    hide ApplyStep;
  }

  /** Every capture time that step i ever inserted during a run, in the order of insertion. */
  function Inserted<R>(agg: Aggregator<R>, es: seq<Event<R>>, i: nat): seq<int>
    requires i < |STEPS|
  {
    if es == [] then []
    else
      var before := Inserted(agg, es[..|es| - 1], i);
      match es[|es| - 1]
      case Snapshot(_, _) => before
      case Maintenance(now) =>
        before + Ascending(Fired(AfterSteps(agg, Run(agg, es[..|es| - 1]), i, now), STEPS[i], now))
  }

  /** The time of the last maintenance pass. */
  function Clock<R>(es: seq<Event<R>>): Option<int> {
    if es == [] then None
    else match es[|es| - 1]
      case Snapshot(_, _) => Clock(es[..|es| - 1])
      case Maintenance(now) => Some(now)
  }

  /** Maintenance times never decrease; snapshot times are unrestricted. */
  predicate Monotone<R>(es: seq<Event<R>>) {
    es == [] ||
    (Monotone(es[..|es| - 1]) &&
     (es[|es| - 1].Maintenance? && Clock(es[..|es| - 1]).Some? ==>
        Clock(es[..|es| - 1]).value <= es[|es| - 1].now))
  }

  // ----- one level of one pass -----

  /** A level changes only in the step that rolls into it. */
  lemma {:induction false} LevelUntouched<R>(agg: Aggregator<R>, t: Table<R>, m: nat, n: nat, r: Resolution, now: int)
    requires m <= n <= |STEPS|
    requires forall j :: m <= j < n ==> STEPS[j].longer != r
    ensures AfterSteps(agg, t, n, now).At(r) == AfterSteps(agg, t, m, now).At(r)
    decreases n
  {
    hide ApplyStep, Table.At;
    if m < n {
      LevelUntouched(agg, t, m, n - 1, r, now);
      OtherLevelsStay(agg, AfterSteps(agg, t, n - 1, now), STEPS[n - 1], r, now);
    }
  }

  lemma OtherLevelsStay<R>(agg: Aggregator<R>, t: Table<R>, step: RollupStep, r: Resolution, now: int)
    requires r != step.longer
    ensures ApplyStep(agg, t, step, now).At(r) == t.At(r)
  {
    hide RolledIn, StartCursor, Latest;
  }

  lemma PassLevels<R>(agg: Aggregator<R>, t: Table<R>, i: nat, now: int)
    requires i < |STEPS|
    ensures AfterSteps(agg, t, i, now).At(STEPS[i].longer) == t.At(STEPS[i].longer)
    ensures AfterSteps(agg, t, |STEPS|, now).At(STEPS[i].longer) == AfterSteps(agg, t, i + 1, now).At(STEPS[i].longer)
    ensures AfterSteps(agg, t, |STEPS|, now).At(STEPS[i].shorter) == AfterSteps(agg, t, i, now).At(STEPS[i].shorter)
    ensures AfterSteps(agg, t, |STEPS|, now).At(M1) == t.At(M1)
  {
    forall j | 0 <= j < |STEPS| {
      StepsAreChained(j);
    }
    LevelUntouched(agg, t, 0, i, STEPS[i].longer, now);
    LevelUntouched(agg, t, i + 1, |STEPS|, STEPS[i].longer, now);
    LevelUntouched(agg, t, i, |STEPS|, STEPS[i].shorter, now);
    LevelUntouched(agg, t, 0, |STEPS|, M1, now);
  }

  /** The rows a pass inserts into the level of step i. */
  function Additions<R>(agg: Aggregator<R>, t: Table<R>, i: nat, now: int): Level<R>
    requires i < |STEPS|
  {
    var before := AfterSteps(agg, t, i, now);
    RolledIn(agg, before.At(STEPS[i].shorter), STEPS[i],
             StartCursor(Latest(before.At(STEPS[i].longer)), STEPS[i], now), now)
  }

  lemma PrunedLevel<R>(t: Table<R>, r: Resolution, now: int)
    ensures Prune(t, now).At(r) == Keep(t.At(r), now - Retention(r))
  {
    hide Keep;
  }

  lemma SteppedLevel<R>(agg: Aggregator<R>, t: Table<R>, step: RollupStep, now: int)
    ensures ApplyStep(agg, t, step, now).At(step.longer)
         == t.At(step.longer)
          + RolledIn(agg, t.At(step.shorter), step, StartCursor(Latest(t.At(step.longer)), step, now), now)
  {
    hide RolledIn, StartCursor, Latest;
  }

  lemma MaintainLevel<R>(agg: Aggregator<R>, t: Table<R>, i: nat, now: int)
    requires i < |STEPS|
    ensures Maintain(agg, t, now).At(STEPS[i].longer)
         == Keep(t.At(STEPS[i].longer) + Additions(agg, t, i, now), now - Retention(STEPS[i].longer))
    ensures Maintain(agg, t, now).At(M1) == Keep(t.At(M1), now - Retention(M1))
    ensures Additions(agg, t, i, now).Keys == Fired(AfterSteps(agg, t, i, now), STEPS[i], now)
  {
    hide Keep, FiredIn, StartCursor, Latest, ApplyStep, Prune, Retention;
    PassLevels(agg, t, i, now);
    var before := AfterSteps(agg, t, i, now);
    SteppedLevel(agg, before, STEPS[i], now);
    assert AfterSteps(agg, t, i + 1, now) == ApplyStep(agg, before, STEPS[i], now);
    PrunedLevel(AfterSteps(agg, t, |STEPS|, now), STEPS[i].longer, now);
    PrunedLevel(AfterSteps(agg, t, |STEPS|, now), M1, now);
  }

  /** How old a stored row may be, in milliseconds: one hour, half a day, a day, a week and thirty
      days. A stored row survives a pass unchanged if and only if it is not older. */
  lemma SurvivesExactlyWhen<R>(agg: Aggregator<R>, t: Table<R>, now: int, at: int)
    ensures
      var after := Maintain(agg, t, now);
      && (at in t.m1 ==> (at in after.m1 <==> now - at <= 3_600_000))
      && (at in t.m10 ==> (at in after.m10 <==> now - at <= 43_200_000))
      && (at in t.m20 ==> (at in after.m20 <==> now - at <= 86_400_000))
      && (at in t.m120 ==> (at in after.m120 <==> now - at <= 604_800_000))
      && (at in t.m480 ==> (at in after.m480 <==> now - at <= 2_592_000_000))
    ensures
      var after := Maintain(agg, t, now);
      && (at in t.m1 && at in after.m1 ==> after.m1[at] == t.m1[at])
      && (at in t.m10 && at in after.m10 ==> after.m10[at] == t.m10[at])
      && (at in t.m20 && at in after.m20 ==> after.m20[at] == t.m20[at])
      && (at in t.m120 && at in after.m120 ==> after.m120[at] == t.m120[at])
      && (at in t.m480 && at in after.m480 ==> after.m480[at] == t.m480[at])
  {
    hide Maintain, Additions, AfterSteps, Fired;
    StoredRowSurvives(agg, t, 0, now, at);
    StoredRowSurvives(agg, t, 1, now, at);
    StoredRowSurvives(agg, t, 2, now, at);
    StoredRowSurvives(agg, t, 3, now, at);
    MaintainLevel(agg, t, 0, now);
  }

  lemma StoredRowSurvives<R>(agg: Aggregator<R>, t: Table<R>, i: nat, now: int, at: int)
    requires i < |STEPS|
    ensures
      var r := STEPS[i].longer;
      var before, after := t.At(r), Maintain(agg, t, now).At(r);
      at in before ==> (at in after <==> now - at <= Retention(r)) && (at in after ==> after[at] == before[at])
  {
    hide Maintain, Additions, AfterSteps, Retention, Fired, Table.At;
    MaintainLevel(agg, t, i, now);
    InsertNeverReplaces(AfterSteps(agg, t, i, now), STEPS[i], now);
    PassLevels(agg, t, i, now);
  }

  /** The windows and the least numbers of rows they need, in plain numbers. */
  lemma StepsInNumbers()
    ensures |STEPS| == 4
    ensures STEPS[0].shorter == M1 && STEPS[0].longer == M10 && STEPS[1].longer == M20
    ensures STEPS[2].longer == M120 && STEPS[3].longer == M480
    ensures STEPS[0].window == 600_000 && STEPS[1].window == 1_200_000
    ensures STEPS[2].window == 7_200_000 && STEPS[3].window == 28_800_000
    ensures STEPS[0].minShorterRows == 9 && STEPS[1].minShorterRows == 2
    ensures STEPS[2].minShorterRows == 6 && STEPS[3].minShorterRows == 4
  {
  }

  /** New rows are later than every stored row of their level and stay on its grid; an empty
      level takes at most the row that ends now. */
  lemma FiredExtendsGrid<R>(t: Table<R>, step: RollupStep, now: int)
    ensures Extends(t.At(step.longer).Keys, Fired(t, step, now), now, step.window)
  {
    hide Aligned, InWindow, Skip;
    var level := t.At(step.longer);
    var last := Latest(level);
    var start := StartCursor(last, step, now);
    var w := step.window;
    StartCursorIsLeast(last, step, now);
    forall c, d | c in Fired(t, step, now) && d in Fired(t, step, now)
      ensures Aligned(c, d, w)
    {
      AlignedSym(d, start, w);
      AlignedTrans(c, start, d, w);
    }
    if last.Some? {
      AlignedShift(last.value, 1, w);
      AlignedTrans(start, last.value + w, last.value, w);
      forall c | c in Fired(t, step, now)
        ensures Aligned(c, last.value, w)
      {
        AlignedTrans(c, start, last.value, w);
      }
    }
  }

  /** In any table and at any clock, an insert never replaces a stored row. */
  lemma InsertNeverReplaces<R>(t: Table<R>, step: RollupStep, now: int)
    ensures Fired(t, step, now) !! t.At(step.longer).Keys
  {
    FiredExtendsGrid(t, step, now);
  }

  lemma GridGrows(keys: set<int>, fired: set<int>, now: int, w: int)
    requires w > 0 && PairwiseAligned(keys, w) && Extends(keys, fired, now, w)
    ensures PairwiseAligned(keys + fired, w)
  {
    hide Aligned;
    forall x, y | x in keys + fired && y in keys + fired
      ensures Aligned(x, y, w)
    {
      if keys != {} {
        var last := Greatest(keys);
        assert Aligned(x, last, w) && Aligned(y, last, w);
        AlignedSym(y, last, w);
        AlignedTrans(x, last, y, w);
      }
    }
  }

  // ----- what every run keeps -----

  /** Spacing: whatever the clock did, the stored rows of a rolled resolution lie whole
      windows apart, so two different rows are at least one window apart. */
  lemma {:induction false} SpacingHolds<R>(agg: Aggregator<R>, es: seq<Event<R>>, i: nat)
    requires i < |STEPS|
    ensures PairwiseAligned(Run(agg, es).At(STEPS[i].longer).Keys, STEPS[i].window)
    ensures forall x, y :: x in Run(agg, es).At(STEPS[i].longer) && y in Run(agg, es).At(STEPS[i].longer) && x < y ==>
              y - x >= STEPS[i].window
  {
    hide Aligned;
    StepsAreChained(i);
    if es != [] {
      var before := Run(agg, es[..|es| - 1]);
      SpacingHolds(agg, es[..|es| - 1], i);
      match es[|es| - 1]
      case Snapshot(at, row) =>
      case Maintenance(now) =>
        PassKeepsSpacing(agg, before, i, now);
    }
    forall x, y | x in Run(agg, es).At(STEPS[i].longer) && y in Run(agg, es).At(STEPS[i].longer) && x < y
      ensures y - x >= STEPS[i].window
    {
      AlignedGap(x, y, STEPS[i].window);
    }
  }

  lemma PassKeepsSpacing<R>(agg: Aggregator<R>, t: Table<R>, i: nat, now: int)
    requires i < |STEPS|
    requires PairwiseAligned(t.At(STEPS[i].longer).Keys, STEPS[i].window)
    ensures PairwiseAligned(AfterSteps(agg, t, i + 1, now).At(STEPS[i].longer).Keys, STEPS[i].window)
    ensures PairwiseAligned(Maintain(agg, t, now).At(STEPS[i].longer).Keys, STEPS[i].window)
  {
    hide Aligned;
    PassLevels(agg, t, i, now);
    FiredExtendsGrid(AfterSteps(agg, t, i, now), STEPS[i], now);
    GridGrows(t.At(STEPS[i].longer).Keys, Fired(AfterSteps(agg, t, i, now), STEPS[i], now), now, STEPS[i].window);
    assert AfterSteps(agg, t, i + 1, now) == ApplyStep(agg, AfterSteps(agg, t, i, now), STEPS[i], now);
    MaintainLevel(agg, t, i, now);
  }

  /** Entries of a log that are at most `span` apart lie on one grid. */
  predicate NearAligned(log: seq<int>, w: int, span: int)
    requires w > 0
  {
    forall p, q :: 0 <= p < |log| && 0 <= q < |log| && -span <= log[q] - log[p] <= span ==>
      Aligned(log[q], log[p], w)
  }

  /** How a level's stored times relate to the log of everything its step ever inserted. */
  predicate LogTracks(keys: set<int>, log: seq<int>, clock: Option<int>, w: int, span: int)
    requires w > 0
  {
    && StrictlyAscending(log)
    && Gapped(log, w)
    && NearAligned(log, w, span)
    && (forall at :: at in keys ==> at in log)
    && (clock.None? ==> log == [])
    && (clock.Some? ==> Settled(keys, log, clock.value, span))
  }

  /** Right after a pass, exactly the logged times not older than the retention are stored. */
  predicate Settled(keys: set<int>, log: seq<int>, clock: int, span: int) {
    && (forall at :: at in keys ==> at >= clock - span)
    && (forall p :: 0 <= p < |log| ==> log[p] <= clock)
    && (forall p :: 0 <= p < |log| ==> log[p] in keys || log[p] < clock - span)
  }

  /** What a walk guarantees of the times it inserts into a level. */
  predicate Extends(keys: set<int>, fired: set<int>, now: int, w: int)
    requires w > 0
  {
    && PairwiseAligned(fired, w)
    && (forall c :: c in fired ==> c <= now)
    && (forall c, at :: c in fired && at in keys ==> at + w <= c)
    && (keys != {} ==> forall c :: c in fired ==> Aligned(c, Greatest(keys), w))
    && (keys == {} ==> fired <= {now})
  }

  /** Under a clock that never runs backwards, a step's inserts move forward by at least one
      window each, even across a level that retention emptied and the step re-anchored. */
  lemma {:induction false} LogHolds<R>(agg: Aggregator<R>, es: seq<Event<R>>, i: nat)
    requires i < |STEPS| && Monotone(es)
    ensures LogTracks(Run(agg, es).At(STEPS[i].longer).Keys, Inserted(agg, es, i), Clock(es),
                      STEPS[i].window, Retention(STEPS[i].longer))
  {
    hide LogTracks, Retention, Fired, AfterSteps, ApplyStep, Maintain, Additions, Extends, Aligned;
    var w, span := STEPS[i].window, Retention(STEPS[i].longer);
    StepsAreChained(i);
    if es == [] {
      assert Run(agg, es).At(STEPS[i].longer).Keys == {} by {
        match STEPS[i].longer case M1 => case M10 => case M20 => case M120 => case M480 =>
      }
      EmptyLog(w, span);
    } else {
      var prefix := es[..|es| - 1];
      LogHolds(agg, prefix, i);
      match es[|es| - 1]
      case Snapshot(at, row) =>
      case Maintenance(now) =>
        var t := Run(agg, prefix);
        var fired := Fired(AfterSteps(agg, t, i, now), STEPS[i], now);
        PassKeys(agg, t, i, now);
        LogExtends(t.At(STEPS[i].longer).Keys, Inserted(agg, prefix, i), Clock(prefix), fired, now, w, span);
    }
  }

  /** What a pass inserts into a level, and what it leaves there. */
  lemma PassKeys<R>(agg: Aggregator<R>, t: Table<R>, i: nat, now: int)
    requires i < |STEPS|
    ensures
      var keys, fired := t.At(STEPS[i].longer).Keys, Fired(AfterSteps(agg, t, i, now), STEPS[i], now);
      && Extends(keys, fired, now, STEPS[i].window)
      && Maintain(agg, t, now).At(STEPS[i].longer).Keys == Recent(keys + fired, now - Retention(STEPS[i].longer))
  {
    hide Retention, Fired, AfterSteps, Maintain, Additions, Extends;
    PassLevels(agg, t, i, now);
    MaintainLevel(agg, t, i, now);
    FiredExtendsGrid(AfterSteps(agg, t, i, now), STEPS[i], now);
  }

  lemma EmptyLog(w: int, span: int)
    requires w > 0
    ensures LogTracks({}, [], None, w, span)
  {
  }

  function Recent(keys: set<int>, since: int): set<int> {
    set at | at in keys && at >= since
  }

  lemma LogExtends(keys: set<int>, log: seq<int>, clock: Option<int>, fired: set<int>, now: int, w: int, span: int)
    requires 0 < w <= span
    requires LogTracks(keys, log, clock, w, span)
    requires Extends(keys, fired, now, w)
    requires clock.Some? ==> clock.value <= now
    ensures LogTracks(Recent(keys + fired, now - span), log + Ascending(fired), Some(now), w, span)
  {
    hide Aligned, Gapped, NearAligned, PairwiseAligned;
    var new' := Ascending(fired);
    assert forall q :: 0 <= q < |new'| ==> new'[q] in new';
    forall p, q | 0 <= p < |log| && 0 <= q < |new'|
      ensures new'[q] - log[p] >= w
      ensures new'[q] - log[p] <= span ==> Aligned(new'[q], log[p], w)
    {
      LogBeforeNew(keys, log, clock.value, fired, now, w, span, p, new'[q]);
    }
    NewInsertsAreGapped(fired, w);
    LogAppend(log, new', w, span);
    StaysSettled(keys, log, clock, fired, now, w, span);
  }

  lemma NewInsertsAreGapped(fired: set<int>, w: int)
    requires w > 0 && PairwiseAligned(fired, w)
    ensures Gapped(Ascending(fired), w)
    ensures var q := Ascending(fired); forall i, j :: 0 <= i < |q| && 0 <= j < |q| ==> Aligned(q[i], q[j], w)
  {
    hide Aligned;
    var q := Ascending(fired);
    assert forall i :: 0 <= i < |q| ==> q[i] in q;
    AlignedAscendingIsGapped(q, w);
  }

  lemma StaysSettled(keys: set<int>, log: seq<int>, clock: Option<int>, fired: set<int>, now: int, w: int, span: int)
    requires 0 < w <= span
    requires LogTracks(keys, log, clock, w, span)
    requires Extends(keys, fired, now, w)
    requires clock.Some? ==> clock.value <= now
    ensures Settled(Recent(keys + fired, now - span), log + Ascending(fired), now, span)
    ensures forall at :: at in Recent(keys + fired, now - span) ==> at in log + Ascending(fired)
  {
    hide Aligned, Gapped, NearAligned, PairwiseAligned, StrictlyAscending, Ascending;
    var new' := Ascending(fired);
    assert forall q :: 0 <= q < |new'| ==> new'[q] in new';
    forall p | 0 <= p < |log + new'|
      ensures (log + new')[p] <= now
      ensures (log + new')[p] in Recent(keys + fired, now - span) || (log + new')[p] < now - span
    {
      if p < |log| {
        assert log[p] in keys || log[p] < clock.value - span;
      } else {
        assert new'[p - |log|] in fired;
      }
    }
    forall at | at in Recent(keys + fired, now - span)
      ensures at in log + new'
    {
      assert at in keys ==> at in log;
      assert at in fired ==> at in new';
    }
  }

  /** A new insert is at least a window after any earlier one, and on its grid unless more
      than a retention period later. */
  lemma LogBeforeNew(keys: set<int>, log: seq<int>, clock: int, fired: set<int>, now: int, w: int, span: int,
                     p: nat, c: int)
    requires 0 < w <= span
    requires LogTracks(keys, log, Some(clock), w, span)
    requires Extends(keys, fired, now, w)
    requires clock <= now
    requires p < |log| && c in fired
    ensures c - log[p] >= w
    ensures c - log[p] <= span ==> Aligned(c, log[p], w)
  {
    hide Aligned;
    if keys != {} {
      var last := Greatest(keys);
      assert last in log;
      var l :| 0 <= l < |log| && log[l] == last;
      assert log[p] <= last;
      if c - log[p] <= span {
        assert Aligned(log[l], log[p], w);
        AlignedTrans(c, last, log[p], w);
      }
    }
  }

  lemma LogAppend(log: seq<int>, new': seq<int>, w: int, span: int)
    requires w > 0
    requires StrictlyAscending(log) && Gapped(log, w) && NearAligned(log, w, span)
    requires StrictlyAscending(new') && Gapped(new', w)
    requires forall p, q :: 0 <= p < |new'| && 0 <= q < |new'| ==> Aligned(new'[p], new'[q], w)
    requires forall p, q :: 0 <= p < |log| && 0 <= q < |new'| ==> new'[q] - log[p] >= w
    requires forall p, q :: 0 <= p < |log| && 0 <= q < |new'| && new'[q] - log[p] <= span ==>
               Aligned(new'[q], log[p], w)
    ensures StrictlyAscending(log + new') && Gapped(log + new', w) && NearAligned(log + new', w, span)
  {
    hide Aligned;
    var all := log + new';
    var n := |log|;
    forall p, q | 0 <= p < |all| && 0 <= q < |all| && -span <= all[q] - all[p] <= span
      ensures Aligned(all[q], all[p], w)
    {
      if p < n && q >= n {
        assert Aligned(new'[q - n], log[p], w);
      } else if q < n && p >= n {
        assert Aligned(new'[p - n], log[q], w);
        AlignedSym(all[p], all[q], w);
      }
    }
    forall p, q | 0 <= p < q < |all|
      ensures all[p] < all[q]
    {
      if p < n && q >= n {
        assert new'[q - n] - log[p] >= w;
      }
    }
    forall p | 0 <= p < |all| - 1
      ensures all[p + 1] - all[p] >= w
    {
      if p + 1 == n {
        assert new'[0] - log[p] >= w;
      } else if p + 1 < n {
        assert log[p + 1] - log[p] >= w;
      } else {
        assert new'[p - n + 1] - new'[p - n] >= w;
      }
    }
  }

  predicate Covers(c: int, w: int, at: int) {
    c - w < at <= c
  }

  /** No source time falls into the windows of two entries. */
  ghost predicate DisjointWindows(log: seq<int>, w: int) {
    forall j, k, at :: 0 <= j < |log| && 0 <= k < |log| && Covers(log[j], w, at) && Covers(log[k], w, at) ==> j == k
  }

  /** Each source time falls into the window of at most one insert of a whole run. */
  lemma AggregatedAtMostOnce<R>(agg: Aggregator<R>, es: seq<Event<R>>, i: nat)
    requires i < |STEPS| && Monotone(es)
    ensures DisjointWindows(Inserted(agg, es, i), STEPS[i].window)
  {
    hide LogTracks, Inserted, Run, Monotone, DisjointWindows;
    LogHolds(agg, es, i);
    LogIsGapped(Run(agg, es).At(STEPS[i].longer).Keys, Inserted(agg, es, i), Clock(es), STEPS[i].window,
                Retention(STEPS[i].longer));
    WindowsAreDisjoint(Inserted(agg, es, i), STEPS[i].window);
  }

  lemma LogIsGapped(keys: set<int>, log: seq<int>, clock: Option<int>, w: int, span: int)
    requires w > 0 && LogTracks(keys, log, clock, w, span)
    ensures Gapped(log, w)
  {
  }

  lemma WindowsAreDisjoint(log: seq<int>, w: int)
    requires w > 0 && Gapped(log, w)
    ensures DisjointWindows(log, w)
  {
    hide Gapped;
    forall j: nat, k: nat, at | j < k < |log| && Covers(log[j], w, at)
      ensures !Covers(log[k], w, at)
    {
      GappedDistance(log, w, j, k);
      MulBound(k - j, w);
    }
  }

  /** The last cursor of the walk of step i in a pass over t. */
  function LastCursor<R>(agg: Aggregator<R>, t: Table<R>, i: nat, now: int): int
    requires i < |STEPS|
  {
    var start := StartCursor(Latest(AfterSteps(agg, t, i, now).At(STEPS[i].longer)), STEPS[i], now);
    Closing(STEPS[i], start, now - STEPS[i].window + 1)
  }

  /** A source row that is newer than its level's newest row and not expired, up to the last
      cursor of a pass after a run. */
  ghost predicate IsDue<R>(agg: Aggregator<R>, es: seq<Event<R>>, i: nat, now: int, at: int)
    requires i < |STEPS|
  {
    var t := Run(agg, es);
    && t.At(STEPS[i].longer) != map[]
    && at in AfterSteps(agg, t, i, now).At(STEPS[i].shorter)
    && Latest(t.At(STEPS[i].longer)).value < at <= LastCursor(agg, t, i, now)
    && now - Retention(STEPS[i].shorter) < at
  }

  /** However late a pass comes on a clock that never runs backwards: a due row lies in one
      examined window, that of some cursor c. That window's row is inserted if and only if it
      holds enough rows, and no other insert of the step's whole run, up to and including this
      pass, covers the due row. */
  lemma LateRowsEndUpOnce<R>(agg: Aggregator<R>, es: seq<Event<R>>, i: nat, now: int, at: int) returns (c: int)
    requires i < |STEPS| && Monotone(es + [Maintenance(now)])
    ensures
      var source := AfterSteps(agg, Run(agg, es), i, now).At(STEPS[i].shorter);
      var log := Inserted(agg, es + [Maintenance(now)], i);
      && DisjointWindows(log, STEPS[i].window)
      && (IsDue(agg, es, i, now, at) ==>
            && at in InWindow(source, c - STEPS[i].window, c)
            && (c in log <==> |InWindow(source, c - STEPS[i].window, c)| >= STEPS[i].minShorterRows)
            && (forall j :: 0 <= j < |log| && Covers(log[j], STEPS[i].window, at) ==> log[j] == c))
  {
    hide Inserted, Run, Monotone, DisjointWindows, AfterSteps, Retention, LastCursor, Latest, Fired, InWindow;
    AggregatedAtMostOnce(agg, es + [Maintenance(now)], i);
    c := at;
    if IsDue(agg, es, i, now, at) {
      var t := Run(agg, es);
      var before := AfterSteps(agg, t, i, now);
      MonotoneBefore(es, now);
      PassLevels(agg, t, i, now);
      LatestIsSome(t.At(STEPS[i].longer));
      LastCursorIs(agg, t, i, now);
      c := RowIsExamined(before, STEPS[i], now, at);
      InsertedNext(agg, es, i, now);
      OldInsertsAreNotNewer(agg, es, i);
      CoveredOnce(Inserted(agg, es, i), Fired(before, STEPS[i], now), STEPS[i].window, at, c);
    }
  }

  lemma MonotoneBefore<R>(es: seq<Event<R>>, now: int)
    requires Monotone(es + [Maintenance(now)])
    ensures Monotone(es)
  {
    assert (es + [Maintenance(now)])[..|es|] == es;
  }

  lemma LastCursorIs<R>(agg: Aggregator<R>, t: Table<R>, i: nat, now: int)
    requires i < |STEPS|
    ensures
      var start := StartCursor(Latest(AfterSteps(agg, t, i, now).At(STEPS[i].longer)), STEPS[i], now);
      LastCursor(agg, t, i, now) == Closing(STEPS[i], start, now - STEPS[i].window + 1)
  {
  }

  /** In one step of one pass the row's window is examined, no other examined window holds the
      row, and it fires if it holds enough rows. */
  lemma RowIsExamined<R>(t: Table<R>, step: RollupStep, now: int, at: int) returns (c: int)
    requires Latest(t.At(step.longer)).Some? && at in t.At(step.shorter)
    requires Latest(t.At(step.longer)).value < at && now - Retention(step.shorter) < at
    requires at <= Closing(step, StartCursor(Latest(t.At(step.longer)), step, now), now - step.window + 1)
    ensures Covers(c, step.window, at) && at in InWindow(t.At(step.shorter), c - step.window, c)
    ensures c in Fired(t, step, now) <==> |InWindow(t.At(step.shorter), c - step.window, c)| >= step.minShorterRows
    ensures forall x :: x in Fired(t, step, now) && Covers(x, step.window, at) ==> x == c
  {
    hide Closing, Retention, Latest, Aligned, StartCursor, Table.At;
    var newest := Latest(t.At(step.longer)).value;
    var start := StartCursor(Some(newest), step, now);
    WalkHasStarted(newest, step, now, at);
    NoRowIsPassedOver(newest, step, now, at);
    c := Closing(step, start, at);
    OnlyCursor(step, start, now, at, c);
  }

  lemma CoveredOnce(log: seq<int>, fired: set<int>, w: int, at: int, c: int)
    requires forall x :: x in log ==> x < at
    requires Covers(c, w, at) && forall x :: x in fired && Covers(x, w, at) ==> x == c
    ensures
      var all := log + Ascending(fired);
      && (c in all <==> c in fired)
      && (forall j :: 0 <= j < |all| && Covers(all[j], w, at) ==> all[j] == c)
  {
    var all := log + Ascending(fired);
    assert forall j :: 0 <= j < |all| ==> all[j] in log || all[j] in Ascending(fired);
  }

  lemma LatestIsSome<R>(level: Level<R>)
    requires level != map[]
    ensures Latest(level) == Some(Latest(level).value)
  {
  }

  lemma InsertedNext<R>(agg: Aggregator<R>, es: seq<Event<R>>, i: nat, now: int)
    requires i < |STEPS|
    ensures Inserted(agg, es + [Maintenance(now)], i)
         == Inserted(agg, es, i) + Ascending(Fired(AfterSteps(agg, Run(agg, es), i, now), STEPS[i], now))
  {
    hide Ascending, Fired, AfterSteps, Run;
    assert (es + [Maintenance(now)])[..|es|] == es;
  }

  /** A row up to the last cursor means that there is one. */
  lemma WalkHasStarted(newest: int, step: RollupStep, now: int, at: int)
    requires newest < at && now - Retention(step.shorter) < at
    requires at <= Closing(step, StartCursor(Some(newest), step, now), now - step.window + 1)
    ensures StartCursor(Some(newest), step, now) <= now
  {
    hide StartCursor, Closing, Aligned, Retention;
    var start := StartCursor(Some(newest), step, now);
    StartCursorIsLeast(Some(newest), step, now);
    if start > now {
      NoClosing(step, start, now);
      AlignedShift(start, -1, step.window);
      AlignedTrans(start + -1 * step.window, start, newest + step.window, step.window);
    }
  }

  lemma NoClosing(step: RollupStep, start: int, now: int)
    requires now < start
    ensures Closing(step, start, now - step.window + 1) <= start - step.window
  {
    var w := step.window;
    DivMod(now - start, w);
    MulBound((now - start) / w, w);
  }

  lemma OldInsertsAreNotNewer<R>(agg: Aggregator<R>, es: seq<Event<R>>, i: nat)
    requires i < |STEPS| && Monotone(es) && Run(agg, es).At(STEPS[i].longer) != map[]
    ensures forall x :: x in Inserted(agg, es, i) ==> x <= Latest(Run(agg, es).At(STEPS[i].longer)).value
  {
    hide LogTracks, Inserted, Run, Monotone, Retention;
    LogHolds(agg, es, i);
    LogEndsWithNewest(Run(agg, es).At(STEPS[i].longer), Inserted(agg, es, i), Clock(es), STEPS[i],
                      Retention(STEPS[i].longer));
  }

  lemma LogEndsWithNewest<R>(level: Level<R>, log: seq<int>, clock: Option<int>, step: RollupStep, span: int)
    requires level != map[] && LogTracks(level.Keys, log, clock, step.window, span)
    ensures forall x :: x in log ==> x <= Latest(level).value
  {
    assert Latest(level).value in level.Keys;
  }

  lemma OnlyCursor(step: RollupStep, start: int, now: int, at: int, c: int)
    requires c in Cursors(step, start, now) && Covers(c, step.window, at)
    ensures forall x :: x in Cursors(step, start, now) && Covers(x, step.window, at) ==> x == c
  {
    hide Cursors;
    forall x | x in Cursors(step, start, now) && Covers(x, step.window, at)
      ensures x == c
    {
      if x < c {
        CursorsAreApart(step, start, now, x, c);
      } else if c < x {
        CursorsAreApart(step, start, now, c, x);
      }
    }
  }

  // ----- bounds -----

  const MOST_WINDOWS := [6, 36, 12, 21]

  const MOST_ROWS := [73, 73, 85, 91]

  /** A step never examines more windows than its source retention holds. */
  lemma WorkIsBounded(last: Option<int>, i: nat, now: int)
    requires i < |STEPS|
    ensures |Cursors(STEPS[i], StartCursor(last, STEPS[i], now), now)| <= [6, 36, 12, 21][i]
  {
    hide Retention, StartCursor, Aligned, Ascending, Gapped;
    var step := STEPS[i];
    var start := StartCursor(last, step, now);
    StartCursorIsLeast(last, step, now);
    CursorsAreGapped(step, start, now);
    var q := Ascending(Cursors(step, start, now));
    assert forall k :: 0 <= k < |q| ==> q[k] in q;
    GappedCount(q, step.window, start, now);
    if q != [] {
      WindowsFit(|q|, i);
    }
  }

  lemma CursorsAreGapped(step: RollupStep, start: int, now: int)
    ensures Gapped(Ascending(Cursors(step, start, now)), step.window)
  {
    hide Aligned, Ascending;
    var q := Ascending(Cursors(step, start, now));
    forall k | 0 <= k < |q| - 1
      ensures q[k + 1] - q[k] >= step.window
    {
      assert q[k] in q && q[k + 1] in q;
      CursorsAreApart(step, start, now, q[k], q[k + 1]);
    }
  }

  lemma WindowsFit(n: nat, i: nat)
    requires i < |STEPS| && n > 0
    requires (n - 1) * STEPS[i].window < Retention(STEPS[i].shorter)
    ensures n <= MOST_WINDOWS[i]
  {
  }

  /** After any maintenance pass under a clock that never runs backwards, a rolled level holds
      a bounded number of rows. */
  lemma StorageIsBounded<R>(agg: Aggregator<R>, es: seq<Event<R>>, i: nat)
    requires i < |STEPS| && Monotone(es) && es != [] && es[|es| - 1].Maintenance?
    ensures |Run(agg, es).At(STEPS[i].longer)| <= [73, 73, 85, 91][i]
  {
    hide Aligned, LogTracks, Inserted, Run;
    LogHolds(agg, es, i);
    SpacingHolds(agg, es, i);
    var now := es[|es| - 1].now;
    LevelIsBounded(Run(agg, es).At(STEPS[i].longer).Keys, Inserted(agg, es, i), now, i);
  }

  lemma LevelIsBounded(keys: set<int>, log: seq<int>, now: int, i: nat)
    requires i < |STEPS|
    requires PairwiseAligned(keys, STEPS[i].window)
    requires LogTracks(keys, log, Some(now), STEPS[i].window, Retention(STEPS[i].longer))
    ensures |keys| <= MOST_ROWS[i]
  {
    hide Aligned, Gapped, NearAligned, Retention;
    var q := Ascending(keys);
    assert forall k :: 0 <= k < |q| ==> q[k] in q && q[k] in log;
    AlignedAscendingIsGapped(q, STEPS[i].window);
    GappedCount(q, STEPS[i].window, now - Retention(STEPS[i].longer), now);
    if q != [] {
      RowsFit(|q|, i);
    }
  }

  lemma RowsFit(n: nat, i: nat)
    requires i < |STEPS| && n > 0
    requires (n - 1) * STEPS[i].window <= Retention(STEPS[i].longer)
    ensures n <= MOST_ROWS[i]
  {
  }
}
