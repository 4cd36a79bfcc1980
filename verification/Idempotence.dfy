/** When a second maintenance pass at the same time changes nothing. It does so unless the
    first pass left some level empty while enough of its source rows end at `now`. */
module Idempotence {
  import opened Basics
  import opened Congruence
  import opened History
  import opened HistoryRuns

  /** A step has nothing to do on its next pass at `now`: its level still has a row to anchor
      on, or the one window that ends at `now` holds too few source rows. */
  predicate Quiet<R>(t: Table<R>, step: RollupStep, now: int) {
    t.At(step.longer) != map[] ||
    |InWindow(t.At(step.shorter), now - step.window, now)| < step.minShorterRows
  }

  /** The exact condition, to be checked on the table the first pass left behind. */
  lemma IdempotentExactlyWhenQuiet<R>(agg: Aggregator<R>, t: Table<R>, now: int)
    ensures
      var once := Maintain(agg, t, now);
      Maintain(agg, once, now) == once <==> forall i :: 0 <= i < |STEPS| ==> Quiet(once, STEPS[i], now)
  {
    hide Quiet, Maintain, Fired;
    var once := Maintain(agg, t, now);
    forall i | 0 <= i < |STEPS|
      ensures Quiet(once, STEPS[i], now) <==> Fired(once, STEPS[i], now) == {}
    {
      SecondPassFires(agg, t, i, now);
    }
    if forall i :: 0 <= i < |STEPS| ==> Quiet(once, STEPS[i], now) {
      assert forall i :: 0 <= i < |STEPS| ==> Fired(once, STEPS[i], now) == {} by {
        assert forall i :: 0 <= i < |STEPS| ==> Quiet(once, STEPS[i], now);
      }
      NothingFires(agg, once, |STEPS|, now);
      PruneTwice(AfterSteps(agg, t, |STEPS|, now), now);
      PassUnfolds(agg, t, now);
      PassUnfolds(agg, once, now);
    } else {
      var i := FirstLoud(once, 0, now);
      NothingFires(agg, once, i, now);
      FiringChanges(agg, once, i, now);
    }
  }

  lemma FirstLoud<R>(t: Table<R>, from: nat, now: int) returns (i: nat)
    requires from < |STEPS|
    requires forall j :: 0 <= j < from ==> Fired(t, STEPS[j], now) == {}
    requires exists j :: 0 <= j < |STEPS| && Fired(t, STEPS[j], now) != {}
    ensures i < |STEPS| && Fired(t, STEPS[i], now) != {}
    ensures forall j :: 0 <= j < i ==> Fired(t, STEPS[j], now) == {}
    decreases |STEPS| - from
  {
    hide Fired;
    if Fired(t, STEPS[from], now) != {} {
      i := from;
    } else {
      i := FirstLoud(t, from + 1, now);
    }
  }

  /** A pass whose first n steps fire nothing has changed nothing after those steps. */
  lemma {:induction false} NothingFires<R>(agg: Aggregator<R>, t: Table<R>, n: nat, now: int)
    requires n <= |STEPS|
    requires forall i :: 0 <= i < n ==> Fired(t, STEPS[i], now) == {}
    ensures AfterSteps(agg, t, n, now) == t
  {
    hide FiredIn, StartCursor, Latest;
    if n > 0 {
      NothingFires(agg, t, n - 1, now);
      QuietStep(agg, t, STEPS[n - 1], now);
    }
  }

  lemma QuietStep<R>(agg: Aggregator<R>, t: Table<R>, step: RollupStep, now: int)
    requires Fired(t, step, now) == {}
    ensures ApplyStep(agg, t, step, now) == t
  {
    hide FiredIn, StartCursor, Latest;
    var start := StartCursor(Latest(t.At(step.longer)), step, now);
    assert RolledIn(agg, t.At(step.shorter), step, start, now) == map[];
    assert t.At(step.longer) + map[] == t.At(step.longer);
  }

  lemma FiringChanges<R>(agg: Aggregator<R>, t: Table<R>, i: nat, now: int)
    requires i < |STEPS| && AfterSteps(agg, t, i, now) == t && Fired(t, STEPS[i], now) != {}
    ensures Maintain(agg, t, now) != t
  {
    hide Maintain, AfterSteps;
    var c :| c in Fired(t, STEPS[i], now);
    MaintainLevel(agg, t, i, now);
    InsertNeverReplaces(t, STEPS[i], now);
    StartCursorIsLeast(Latest(t.At(STEPS[i].longer)), STEPS[i], now);
    assert c in Additions(agg, t, i, now).Keys;
    assert c in Maintain(agg, t, now).At(STEPS[i].longer);
  }

  lemma PruneTwice<R>(t: Table<R>, now: int)
    ensures Prune(Prune(t, now), now) == Prune(t, now)
  {
    hide Retention;
  }

  lemma SecondPassFires<R>(agg: Aggregator<R>, t: Table<R>, i: nat, now: int)
    requires i < |STEPS|
    ensures
      var once := Maintain(agg, t, now);
      Quiet(once, STEPS[i], now) <==> Fired(once, STEPS[i], now) == {}
  {
    hide Maintain, AfterSteps, Retention, StartCursor, FiredIn, InWindow, Keep, Table.At;
    var once := Maintain(agg, t, now);
    var before := AfterSteps(agg, t, i, now);
    var step := STEPS[i];
    WhatThePassLeft(agg, t, i, now);
    if once.At(step.longer) == map[] {
      EmptyLevelFires(once.At(step.shorter), step, now);
    } else {
      SecondWalkIsEmpty(before.At(step.longer), once.At(step.longer),
                        before.At(step.shorter), once.At(step.shorter), step, now);
    }
  }

  /** The two levels of a step after a pass, in terms of what the step saw during it. */
  lemma WhatThePassLeft<R>(agg: Aggregator<R>, t: Table<R>, i: nat, now: int)
    requires i < |STEPS|
    ensures
      var once, before, step := Maintain(agg, t, now), AfterSteps(agg, t, i, now), STEPS[i];
      && once.At(step.shorter) == Keep(before.At(step.shorter), now - Retention(step.shorter))
      && once.At(step.longer).Keys
         == Recent(before.At(step.longer).Keys + Fired(before, step, now), now - Retention(step.longer))
  {
    hide Maintain, AfterSteps, Retention, Fired, Table.At, Additions;
    PassLevels(agg, t, i, now);
    MaintainLevel(agg, t, i, now);
    PassUnfolds(agg, t, now);
    PrunedLevel(AfterSteps(agg, t, |STEPS|, now), STEPS[i].shorter, now);
  }

  /** An empty level examines only the window that ends now. */
  lemma EmptyLevelFires<R>(source: Level<R>, step: RollupStep, now: int)
    ensures FiredIn(source, step, StartCursor(None, step, now), now) == {}
       <==> |InWindow(source, now - step.window, now)| < step.minShorterRows
  {
    hide InWindow;
    EmptyLevelExaminesOneWindow(step, now);
    if |InWindow(source, now - step.window, now)| >= step.minShorterRows {
      assert now in FiredIn(source, step, now, now);
    }
  }

  /** With a row left to anchor on, the second walk visits only windows the first walk has
      already found too empty. */
  lemma SecondWalkIsEmpty<R>(old': Level<R>, new': Level<R>, source: Level<R>, kept: Level<R>,
                             step: RollupStep, now: int)
    requires new' != map[]
    requires
      var fired := FiredIn(source, step, StartCursor(Latest(old'), step, now), now);
      new'.Keys == Recent(old'.Keys + fired, now - Retention(step.longer))
    requires kept == Keep(source, now - Retention(step.shorter))
    ensures FiredIn(kept, step, StartCursor(Latest(new'), step, now), now) == {}
  {
    hide Aligned, InWindow, Keep;
    var first := StartCursor(Latest(old'), step, now);
    var fired := FiredIn(source, step, first, now);
    var second := StartCursor(Latest(new'), step, now);
    ContinuesGrid(old', new', fired, step, now);
    StartCursorIsLeast(Latest(new'), step, now);
    forall c | c in Cursors(step, second, now)
      ensures |InWindow(kept, c - step.window, c)| < step.minShorterRows
    {
      AlignedTrans(c, second, first, step.window);
      assert c in fired ==> c in new';
      assert c !in fired;
      KeptWindowIsSmaller(source, now - Retention(step.shorter), c - step.window, c);
    }
  }

  /** The second walk starts later than the level's newest row, on the first walk's grid. */
  lemma ContinuesGrid<R>(old': Level<R>, new': Level<R>, fired: set<int>, step: RollupStep, now: int)
    requires new' != map[]
    requires fired <= Cursors(step, StartCursor(Latest(old'), step, now), now)
    requires new'.Keys == Recent(old'.Keys + fired, now - Retention(step.longer))
    ensures
      var first := StartCursor(Latest(old'), step, now);
      var second := StartCursor(Latest(new'), step, now);
      first <= second && Latest(new').value < second && Aligned(second, first, step.window)
  {
    hide Aligned;
    var w := step.window;
    var first := StartCursor(Latest(old'), step, now);
    var second := StartCursor(Latest(new'), step, now);
    var anchor := Latest(new').value;
    StartCursorIsLeast(Latest(new'), step, now);
    if anchor in fired {
      AlignedShift(anchor, 1, w);
      AlignedTrans(second, anchor + 1 * w, anchor, w);
      AlignedTrans(second, anchor, first, w);
    } else {
      var newest := Latest(old').value;
      assert anchor in old' && anchor <= newest;
      assert newest in new'.Keys;
      AlignedShift(second, 0, w);
    }
  }

  lemma KeptWindowIsSmaller<R>(source: Level<R>, since: int, after: int, upTo: int)
    ensures |InWindow(Keep(source, since), after, upTo)| <= |InWindow(source, after, upTo)|
  {
    SubsetIsSmaller(InWindow(Keep(source, since), after, upTo), InWindow(source, after, upTo));
  }

  lemma SubsetIsSmaller(a: set<int>, b: set<int>)
    requires a <= b
    ensures |a| <= |b|
  {
    assert b == a + (b - a);
  }

  /** A step's newest row was absent, was within its retention, or gets a successor from the
      pass, or the window that ends at `now` holds too few source rows during the pass. */
  predicate Anchored<R>(agg: Aggregator<R>, t: Table<R>, i: nat, now: int)
    requires i < |STEPS|
  {
    var step, before := STEPS[i], AfterSteps(agg, t, i, now);
    || t.At(step.longer) == map[]
    || Latest(t.At(step.longer)).value >= now - Retention(step.longer)
    || Fired(before, step, now) != {}
    || |InWindow(before.At(step.shorter), now - step.window, now)| < step.minShorterRows
  }

  /** The exact condition on the table before the first pass. */
  lemma IdempotentExactlyWhenAnchored<R>(agg: Aggregator<R>, t: Table<R>, now: int)
    ensures Maintain(agg, Maintain(agg, t, now), now) == Maintain(agg, t, now)
       <==> forall i :: 0 <= i < |STEPS| ==> Anchored(agg, t, i, now)
  {
    hide Quiet, Maintain, Anchored;
    var once := Maintain(agg, t, now);
    forall i | 0 <= i < |STEPS|
      ensures Quiet(once, STEPS[i], now) <==> Anchored(agg, t, i, now)
    {
      AnchoredIsQuiet(agg, t, i, now);
    }
    IdempotentExactlyWhenQuiet(agg, t, now);
  }

  lemma AnchoredIsQuiet<R>(agg: Aggregator<R>, t: Table<R>, i: nat, now: int)
    requires i < |STEPS|
    ensures Quiet(Maintain(agg, t, now), STEPS[i], now) <==> Anchored(agg, t, i, now)
  {
    hide Maintain, AfterSteps, InWindow, Retention, Fired, Keep, Table.At, Latest;
    var step, before := STEPS[i], AfterSteps(agg, t, i, now);
    PassLevels(agg, t, i, now);
    WhatThePassLeft(agg, t, i, now);
    KeptWindowIsWhole(before.At(step.shorter), step, now);
    LevelIsLeftEmpty(before, step, now);
    if before.At(step.longer) == map[] && Fired(before, step, now) == {} {
      EmptyStepIsQuiet(before, step, now);
    }
  }

  /** When a pass leaves a level empty. */
  lemma LevelIsLeftEmpty<R>(before: Table<R>, step: RollupStep, now: int)
    ensures Recent(before.At(step.longer).Keys + Fired(before, step, now), now - Retention(step.longer)) == {}
       <==> Fired(before, step, now) == {}
            && (before.At(step.longer) == map[] || Latest(before.At(step.longer)).value < now - Retention(step.longer))
  {
    hide FiredIn, Retention;
    var level, fired := before.At(step.longer), Fired(before, step, now);
    if fired != {} {
      var c := Greatest(fired);
      FiredIsRecent(before, step, now, c);
      assert c in Recent(level.Keys + fired, now - Retention(step.longer));
    } else if level != map[] && Latest(level).value >= now - Retention(step.longer) {
      assert Latest(level).value in Recent(level.Keys + fired, now - Retention(step.longer));
    }
  }

  lemma EmptyStepIsQuiet<R>(before: Table<R>, step: RollupStep, now: int)
    requires before.At(step.longer) == map[] && Fired(before, step, now) == {}
    ensures |InWindow(before.At(step.shorter), now - step.window, now)| < step.minShorterRows
  {
    EmptyLevelFires(before.At(step.shorter), step, now);
  }

  /** Pruning a level leaves the window that ends now alone. */
  lemma KeptWindowIsWhole<R>(source: Level<R>, step: RollupStep, now: int)
    ensures InWindow(Keep(source, now - Retention(step.shorter)), now - step.window, now)
         == InWindow(source, now - step.window, now)
  {
  }

  lemma FiredIsRecent<R>(t: Table<R>, step: RollupStep, now: int, c: int)
    requires c in Fired(t, step, now)
    ensures c >= now - Retention(step.longer)
  {
    StartCursorIsLeast(Latest(t.At(step.longer)), step, now);
  }

  // ----- a run after which the second pass does change something -----

  const NOW := 100 * HOUR

  const STALE := NOW - 12 * HOUR - 5 * MINUTE

  /** Nine minutes in a row, the last of them given. */
  function NineUpTo(at: int): set<int> {
    {at, at - MINUTE, at - 2 * MINUTE, at - 3 * MINUTE, at - 4 * MINUTE,
     at - 5 * MINUTE, at - 6 * MINUTE, at - 7 * MINUTE, at - 8 * MINUTE}
  }

  lemma NineMinutes(at: int)
    ensures |NineUpTo(at)| == 9
    ensures forall x :: x in NineUpTo(at) ==> at - 10 * MINUTE < x <= at
  {
  }

  function Snapshots<R>(ats: seq<int>, row: R): seq<Event<R>> {
    if ats == [] then [] else Snapshots(ats[..|ats| - 1], row) + [Snapshot(ats[|ats| - 1], row)]
  }

  /** Nine snapshots, a pass that rolls them up, a pass two hours later that prunes them, and
      nine more snapshots twelve hours and five minutes after the first nine. */
  function DriftingRun<R>(row: R): seq<Event<R>> {
    Snapshots(Ascending(NineUpTo(STALE)), row) + [Maintenance(STALE)] + [Maintenance(STALE + 2 * HOUR)]
    + Snapshots(Ascending(NineUpTo(NOW)), row)
  }

  function Drifted<R>(row: R, rolled: R): Table<R> {
    Table(map at | at in NineUpTo(NOW) :: row, map[STALE := rolled], map[], map[], map[])
  }

  function Filled<R>(level: Level<R>, ats: set<int>, row: R): Level<R> {
    level + map at | at in ats :: row
  }

  lemma FilledNext<R>(level: Level<R>, ats: seq<int>, row: R)
    requires ats != []
    ensures
      var before := Filled(level, Times(ats[..|ats| - 1]), row);
      Filled(level, Times(ats), row) == before[ats[|ats| - 1] := row]
  {
    var init, last := ats[..|ats| - 1], ats[|ats| - 1];
    assert ats == init + [last];
    assert Times(ats) == Times(init) + {last};
  }

  function Times(ats: seq<int>): set<int> {
    set at | at in ats
  }

  lemma {:induction false} SnapshotsInsert<R>(agg: Aggregator<R>, es: seq<Event<R>>, ats: seq<int>, row: R)
    ensures Run(agg, es + Snapshots(ats, row)) == Run(agg, es).With(M1, Filled(Run(agg, es).m1, Times(ats), row))
  {
    hide Filled, Run;
    var t := Run(agg, es);
    if ats == [] {
      assert es + Snapshots(ats, row) == es;
      NothingFilled(t.m1, row);
    } else {
      var init, last := ats[..|ats| - 1], ats[|ats| - 1];
      SnapshotsInsert(agg, es, init, row);
      assert es + Snapshots(ats, row) == (es + Snapshots(init, row)) + [Snapshot(last, row)];
      SnapshotRuns(agg, es + Snapshots(init, row), last, row);
      FilledNext(t.m1, ats, row);
    }
  }

  lemma NothingFilled<R>(level: Level<R>, row: R)
    ensures Filled(level, Times([]), row) == level
  {
  }

  lemma EmptyLevelIsQuiet<R>(t: Table<R>, step: RollupStep, now: int)
    requires t.At(step.longer) == map[]
    requires |InWindow(t.At(step.shorter), now - step.window, now)| < step.minShorterRows
    ensures Fired(t, step, now) == {}
  {
    EmptyLevelFires(t.At(step.shorter), step, now);
  }

  lemma FewRowsAreQuiet<R>(t: Table<R>, i: nat, now: int)
    requires 0 < i < |STEPS| && t.At(STEPS[i].longer) == map[] && |t.At(STEPS[i].shorter)| <= 1
    ensures Fired(t, STEPS[i], now) == {}
  {
    hide FiredIn;
    var source := t.At(STEPS[i].shorter);
    SubsetIsSmaller(InWindow(source, now - STEPS[i].window, now), source.Keys);
    EmptyLevelIsQuiet(t, STEPS[i], now);
  }

  /** Nine fresh snapshots become the first ten-minute row. */
  lemma FirstRollup<R>(agg: Aggregator<R>, m1: Level<R>, now: int) returns (rolled: R)
    requires m1.Keys == NineUpTo(now)
    ensures
      var t := Table(m1, map[], map[], map[], map[]);
      Maintain(agg, t, now) == Table(m1, map[now := rolled], map[], map[], map[])
  {
    hide NineUpTo, Maintain, AfterSteps, Fired, Load;
    var t := Table(m1, map[], map[], map[], map[]);
    rolled := agg(M10, now, Load(m1, now - 10 * MINUTE, now));
    var after := Table(m1, map[now := rolled], map[], map[], map[]);
    NineMinutes(now);
    assert InWindow(m1, now - 10 * MINUTE, now) == NineUpTo(now);
    OnlyWindow(agg, t, now);
    FewRowsAreQuiet(after, 1, now);
    FewRowsAreQuiet(after, 2, now);
    FewRowsAreQuiet(after, 3, now);
    RestIsQuiet(agg, t, after, now);
    PassUnfolds(agg, t, now);
    assert Keep(m1, now - HOUR) == m1;
    assert Keep(after.m10, now - 12 * HOUR) == after.m10;
  }

  lemma OnlyWindow<R>(agg: Aggregator<R>, t: Table<R>, now: int)
    requires t.m10 == map[] && |InWindow(t.m1, now - 10 * MINUTE, now)| >= 9
    ensures AfterSteps(agg, t, 1, now)
         == t.With(M10, map[now := agg(M10, now, Load(t.m1, now - 10 * MINUTE, now))])
  {
    hide InWindow, Load, AfterSteps;
    AlignedShift(now, 0, STEPS[0].window);
    PassUnfolds(agg, t, now);
    PassContinues(agg, t, 0, now);
    assert Cursors(STEPS[0], now, now) == {now};
    assert FiredIn(t.m1, STEPS[0], now, now) == {now};
    var rolled := RolledIn(agg, t.m1, STEPS[0], now, now);
    assert rolled == map[now := agg(M10, now, Load(t.m1, now - 10 * MINUTE, now))];
    assert t.m10 + rolled == rolled;
  }

  lemma RestIsQuiet<R>(agg: Aggregator<R>, t: Table<R>, after: Table<R>, now: int)
    requires AfterSteps(agg, t, 1, now) == after
    requires Fired(after, STEPS[1], now) == {} && Fired(after, STEPS[2], now) == {} && Fired(after, STEPS[3], now) == {}
    ensures AfterSteps(agg, t, 4, now) == after
  {
    hide Fired, ApplyStep;
    QuietStep(agg, after, STEPS[1], now);
    QuietStep(agg, after, STEPS[2], now);
    QuietStep(agg, after, STEPS[3], now);
    assert AfterSteps(agg, t, 2, now) == after;
    assert AfterSteps(agg, t, 3, now) == after;
  }

  /** Two hours later nothing can be rolled up, and only the snapshots have expired. */
  lemma OnlyPruning<R>(agg: Aggregator<R>, m1: Level<R>, rolled: R)
    requires m1.Keys == NineUpTo(STALE)
    ensures Maintain(agg, Table(m1, map[STALE := rolled], map[], map[], map[]), STALE + 2 * HOUR)
         == Table(map[], map[STALE := rolled], map[], map[], map[])
  {
    hide NineUpTo, Maintain, AfterSteps, Fired;
    var t, now := Table(m1, map[STALE := rolled], map[], map[], map[]), STALE + 2 * HOUR;
    NineMinutes(STALE);
    NothingLeftToRoll(t, now);
    FewRowsAreQuiet(t, 1, now);
    FewRowsAreQuiet(t, 2, now);
    FewRowsAreQuiet(t, 3, now);
    NothingFires(agg, t, 4, now);
    PassUnfolds(agg, t, now);
    assert Keep(m1, now - HOUR) == map[];
    assert Keep(t.m10, now - 12 * HOUR) == t.m10;
  }

  lemma NothingLeftToRoll<R>(t: Table<R>, now: int)
    requires forall at :: at in t.m1 ==> at <= now - HOUR - 10 * MINUTE
    ensures Fired(t, STEPS[0], now) == {}
  {
    hide StartCursor;
    var start := StartCursor(Latest(t.m10), STEPS[0], now);
    StartCursorIsLeast(Latest(t.m10), STEPS[0], now);
    forall c | c in Cursors(STEPS[0], start, now)
      ensures InWindow(t.m1, c - 10 * MINUTE, c) == {}
    {
    }
  }

  /** The nine early snapshots, their pass and the pass that prunes them. */
  lemma EarlyRun<R>(agg: Aggregator<R>, row: R) returns (rolled: R)
    ensures
      var e1 := Snapshots(Ascending(NineUpTo(STALE)), row);
      Run(agg, e1 + [Maintenance(STALE)] + [Maintenance(STALE + 2 * HOUR)])
      == Table(map[], map[STALE := rolled], map[], map[], map[])
  {
    hide Maintain, NineUpTo, Run, Snapshots, Ascending, Filled;
    var early := Ascending(NineUpTo(STALE));
    var e1 := Snapshots(early, row);
    assert [] + e1 == e1;
    NothingRun(agg);
    SnapshotsInsert(agg, [], early, row);
    var m1: Level<R> := Filled(map[], Times(early), row);
    FilledKeys<R>(early, row);
    assert Times(early) == NineUpTo(STALE);
    rolled := FirstRollup(agg, m1, STALE);
    MaintenanceRuns(agg, e1, STALE);
    OnlyPruning(agg, m1, rolled);
    MaintenanceRuns(agg, e1 + [Maintenance(STALE)], STALE + 2 * HOUR);
  }

  lemma FilledKeys<R>(ats: seq<int>, row: R)
    ensures Filled(map[], Times(ats), row) == map at | at in Times(ats) :: row
    ensures Filled(map[], Times(ats), row).Keys == Times(ats)
  {
  }

  lemma DriftedIsReached<R>(agg: Aggregator<R>, row: R) returns (rolled: R)
    ensures Run(agg, DriftingRun(row)) == Drifted(row, rolled)
  {
    hide NineUpTo, Run, Snapshots, Ascending, Filled;
    var late := Ascending(NineUpTo(NOW));
    rolled := EarlyRun(agg, row);
    var e3 := Snapshots(Ascending(NineUpTo(STALE)), row) + [Maintenance(STALE)] + [Maintenance(STALE + 2 * HOUR)];
    SnapshotsInsert(agg, e3, late, row);
    FilledKeys<R>(late, row);
    assert Times(late) == NineUpTo(NOW);
  }

  lemma NothingRun<R>(agg: Aggregator<R>)
    ensures Run(agg, []) == Table(map[], map[], map[], map[], map[])
  {
  }

  lemma {:induction false} SnapshotsKeepClock<R>(es: seq<Event<R>>, ats: seq<int>, row: R)
    requires Monotone(es)
    ensures Monotone(es + Snapshots(ats, row)) && Clock(es + Snapshots(ats, row)) == Clock(es)
  {
    hide Monotone, Clock;
    if ats == [] {
      assert es + Snapshots(ats, row) == es;
    } else {
      var before := es + Snapshots(ats[..|ats| - 1], row);
      SnapshotsKeepClock(es, ats[..|ats| - 1], row);
      assert es + Snapshots(ats, row) == before + [Snapshot(ats[|ats| - 1], row)];
      SnapshotKeepsClock(before, ats[|ats| - 1], row);
    }
  }

  lemma SnapshotKeepsClock<R>(es: seq<Event<R>>, at: int, row: R)
    requires Monotone(es)
    ensures Monotone(es + [Snapshot(at, row)]) && Clock(es + [Snapshot(at, row)]) == Clock(es)
  {
    assert (es + [Snapshot(at, row)])[..|es|] == es;
  }

  /** After this run, on a clock that never runs backwards, maintenance is not idempotent: a
      stale ten-minute row holds the first pass on a grid that splits the nine newest snapshots;
      pruning that row lets the second pass end a window at `now`. */
  lemma NotIdempotent<R>(agg: Aggregator<R>, row: R)
    ensures Monotone(DriftingRun(row) + [Maintenance(NOW)])
    ensures
      var once := Maintain(agg, Run(agg, DriftingRun(row)), NOW);
      Maintain(agg, once, NOW) != once
  {
    hide Maintain, DriftingRun, Drifted, Run;
    var rolled := DriftedIsReached(agg, row);
    DriftedIsNotIdempotent(agg, row, rolled);
    DriftingClock(row);
    PassTicks(DriftingRun(row), NOW);
  }

  lemma PassTicks<R>(es: seq<Event<R>>, now: int)
    requires Monotone(es) && (Clock(es).Some? ==> Clock(es).value <= now)
    ensures Monotone(es + [Maintenance(now)]) && Clock(es + [Maintenance(now)]) == Some(now)
  {
    assert (es + [Maintenance(now)])[..|es|] == es;
  }

  lemma DriftingClock<R>(row: R)
    ensures Monotone(DriftingRun(row)) && Clock(DriftingRun(row)) == Some(STALE + 2 * HOUR)
  {
    hide Monotone, Clock, Snapshots, Ascending, NineUpTo;
    var e1 := Snapshots(Ascending(NineUpTo(STALE)), row);
    assert [] + e1 == e1;
    NoClock<R>();
    SnapshotsKeepClock([], Ascending(NineUpTo(STALE)), row);
    PassTicks(e1, STALE);
    PassTicks(e1 + [Maintenance(STALE)], STALE + 2 * HOUR);
    SnapshotsKeepClock(e1 + [Maintenance(STALE)] + [Maintenance(STALE + 2 * HOUR)], Ascending(NineUpTo(NOW)), row);
  }

  lemma NoClock<R>()
    ensures Monotone<R>([]) && Clock<R>([]) == None
  {
  }

  lemma DriftedIsNotIdempotent<R>(agg: Aggregator<R>, row: R, rolled: R)
    ensures
      var once := Maintain(agg, Drifted(row, rolled), NOW);
      Maintain(agg, once, NOW) != once
  {
    hide Maintain, AfterSteps, Fired, NineUpTo, InWindow;
    var t := Drifted(row, rolled);
    var once := Maintain(agg, t, NOW);
    NothingFiresOnStaleGrid(row, rolled);
    PassUnfolds(agg, t, NOW);
    WhatThePassLeft(agg, t, 0, NOW);
    assert once.m10.Keys == {};
    NineMinutes(NOW);
    KeptWindowIsWhole(t.m1, STEPS[0], NOW);
    NewestWindow(row);
    assert !Quiet(once, STEPS[0], NOW);
    IdempotentExactlyWhenQuiet(agg, t, NOW);
  }

  lemma NewestWindow<R>(row: R)
    ensures InWindow(map at | at in NineUpTo(NOW) :: row, NOW - 10 * MINUTE, NOW) == NineUpTo(NOW)
  {
    hide NineUpTo;
    NineMinutes(NOW);
  }

  lemma NothingFiresOnStaleGrid<R>(row: R, rolled: R)
    ensures Fired(Drifted(row, rolled), STEPS[0], NOW) == {}
  {
    var t := Drifted(row, rolled);
    var start := StartCursor(Latest(t.m10), STEPS[0], NOW);
    StartCursorIsLeast(Latest(t.m10), STEPS[0], NOW);
    assert STALE in t.m10;
    assert Latest(t.m10).value == STALE;
    NineMinutes(NOW);
    forall c | c in Cursors(STEPS[0], start, NOW)
      ensures |InWindow(t.m1, c - 10 * MINUTE, c)| < 9
    {
      AlignedTrans(c, start, STALE + 10 * MINUTE, 10 * MINUTE);
      assert c != NOW;
      assert NOW !in InWindow(t.m1, c - 10 * MINUTE, c);
      SubsetIsSmaller(InWindow(t.m1, c - 10 * MINUTE, c), NineUpTo(NOW) - {NOW});
    }
  }
}
