/** One plugin's history table and the function that one maintenance pass computes on it.
    A table has one level per resolution, and a level maps a capture time in milliseconds
    to the record stored under it: (resolution, captured_at) is the table's primary key.
    The record type and the aggregation are parameters, so that the same definitions run
    on stored payloads and on records of where those payloads came from. */
module History {
  import opened Basics
  import opened Congruence

  datatype Resolution = M1 | M10 | M20 | M120 | M480

  type Level<R> = map<int, R>

  datatype Table<R> = Table(m1: Level<R>, m10: Level<R>, m20: Level<R>, m120: Level<R>, m480: Level<R>) {
    function At(r: Resolution): Level<R> {
      match r
      case M1 => m1
      case M10 => m10
      case M20 => m20
      case M120 => m120
      case M480 => m480
    }

    function With(r: Resolution, level: Level<R>): Table<R> {
      match r
      case M1 => this.(m1 := level)
      case M10 => this.(m10 := level)
      case M20 => this.(m20 := level)
      case M120 => this.(m120 := level)
      case M480 => this.(m480 := level)
    }
  }

  /** Computes the record stored at a resolution and time out of the records it replaces. */
  type Aggregator<!R> = (Resolution, int, seq<R>) -> R

  datatype StepFields = Step(shorter: Resolution, longer: Resolution, window: int, minShorterRows: nat)

  /** A rollup step: it moves rows up, and a window fits into both retention periods. */
  type RollupStep = s: StepFields | Sound(s) witness Step(M1, M10, 10 * MINUTE, 9)

  predicate Sound(s: StepFields) {
    && s.shorter != s.longer
    && 0 < s.window <= Retention(s.shorter) <= Retention(s.longer)
    && s.minShorterRows > 0
  }

  const MINUTE := 60_000
  const HOUR := 60 * MINUTE

  function Retention(r: Resolution): int {
    match r
    case M1 => HOUR
    case M10 => 12 * HOUR
    case M20 => 24 * HOUR
    case M120 => 7 * 24 * HOUR
    case M480 => 30 * 24 * HOUR
  }

  const STEPS: seq<RollupStep> := [
    Step(M1, M10, 10 * MINUTE, 9),
    Step(M10, M20, 20 * MINUTE, 2),
    Step(M20, M120, 120 * MINUTE, 6),
    Step(M120, M480, 480 * MINUTE, 4)]

  lemma StepsAreChained(i: nat)
    requires i < |STEPS|
    ensures STEPS[i].longer != M1
    ensures STEPS[i].shorter == if i == 0 then M1 else STEPS[i - 1].longer
    ensures forall j :: 0 <= j < |STEPS| && j != i ==> STEPS[j].longer != STEPS[i].longer
  {
  }

  const RESOLUTIONS := {M1, M10, M20, M120, M480}

  lemma AllResolutions()
    ensures forall r: Resolution :: r in RESOLUTIONS
  {
    forall r: Resolution
      ensures r in RESOLUTIONS
    {
      match r case M1 => case M10 => case M20 => case M120 => case M480 =>
    }
  }

  function EmptyTable<R>(): Table<R> {
    Table(map[], map[], map[], map[], map[])
  }

  /** MAX(captured_at) of a level. */
  function Latest<R>(level: Level<R>): (r: Option<int>)
    ensures r.None? <==> level == map[]
    ensures r.Some? ==> r.value in level && forall at :: at in level ==> at <= r.value
  {
    if level == map[] then None
    else
      assert level.Keys != {};
      Some(Greatest(level.Keys))
  }

  /** The times of a level inside the half-open window (after, upTo]. */
  function InWindow<R>(level: Level<R>, after: int, upTo: int): set<int> {
    set at | at in level && after < at <= upTo
  }

  function RowsAt<R>(level: Level<R>, times: seq<int>): (rows: seq<R>)
    requires forall i :: 0 <= i < |times| ==> times[i] in level
    ensures |rows| == |times|
    ensures forall i :: 0 <= i < |times| ==> rows[i] == level[times[i]]
  {
    seq(|times|, i requires 0 <= i < |times| => level[times[i]])
  }

  /** The records of a window ordered by capture time. */
  function Load<R>(level: Level<R>, after: int, upTo: int): (rows: seq<R>)
    ensures |rows| == |InWindow(level, after, upTo)|
  {
    var times := Ascending(InWindow(level, after, upTo));
    assert forall i :: 0 <= i < |times| ==> times[i] in times;
    RowsAt(level, times)
  }

  /** Where the window walk starts before old windows are skipped. */
  function BaseCursor(last: Option<int>, step: RollupStep, now: int): int {
    match last
    case Some(at) => at + step.window
    case None => now
  }

  /** The first point of base's grid after `oldest`, if base itself is not after it. */
  function Skip(base: int, oldest: int, w: int): int
    requires w > 0
  {
    if base <= oldest then base + ((oldest - base) / w + 1) * w else base
  }

  function StartCursor(last: Option<int>, step: RollupStep, now: int): int
  {
    Skip(BaseCursor(last, step, now), now - Retention(step.shorter), step.window)
  }

  /** The cursors a walk visits from `start` up to a bound. */
  function Cursors(step: RollupStep, start: int, upTo: int): set<int>
  {
    set c | start <= c <= upTo && Aligned(c, start, step.window)
  }

  function FiredIn<R>(source: Level<R>, step: RollupStep, start: int, upTo: int): set<int>
  {
    set c | c in Cursors(step, start, upTo) &&
            |InWindow(source, c - step.window, c)| >= step.minShorterRows
  }

  function RolledIn<R>(agg: Aggregator<R>, source: Level<R>, step: RollupStep, start: int, upTo: int): Level<R>
  {
    map c | c in FiredIn(source, step, start, upTo) ::
      agg(step.longer, c, Load(source, c - step.window, c))
  }

  /** The windows one step rolls up: cursors from the start to `now` with enough source rows. */
  function Fired<R>(t: Table<R>, step: RollupStep, now: int): set<int>
  {
    FiredIn(t.At(step.shorter), step, StartCursor(Latest(t.At(step.longer)), step, now), now)
  }

  function ApplyStep<R>(agg: Aggregator<R>, t: Table<R>, step: RollupStep, now: int): Table<R>
  {
    var start := StartCursor(Latest(t.At(step.longer)), step, now);
    t.With(step.longer, t.At(step.longer) + RolledIn(agg, t.At(step.shorter), step, start, now))
  }

  /** The table after the first n steps of a maintenance pass. */
  function AfterSteps<R>(agg: Aggregator<R>, t: Table<R>, n: nat, now: int): Table<R>
    requires n <= |STEPS|
  {
    if n == 0 then t else ApplyStep(agg, AfterSteps(agg, t, n - 1, now), STEPS[n - 1], now)
  }

  function Keep<R>(level: Level<R>, since: int): Level<R> {
    map at | at in level && at >= since :: level[at]
  }

  function Prune<R>(t: Table<R>, now: int): Table<R> {
    Table(Keep(t.m1, now - Retention(M1)), Keep(t.m10, now - Retention(M10)), Keep(t.m20, now - Retention(M20)),
          Keep(t.m120, now - Retention(M120)), Keep(t.m480, now - Retention(M480)))
  }

  function Maintain<R>(agg: Aggregator<R>, t: Table<R>, now: int): Table<R> {
    Prune(AfterSteps(agg, t, |STEPS|, now), now)
  }

  function InsertRow<R>(t: Table<R>, at: int, row: R): Table<R> {
    t.(m1 := t.m1[at := row])
  }

  // ----- the cursor walk -----

  /** Skipping lands on the least cursor of the walk's own grid that is newer than the
      source retention, and never moves backwards. */
  lemma StartCursorIsLeast(last: Option<int>, step: RollupStep, now: int)
    ensures
      var base := BaseCursor(last, step, now);
      var start := StartCursor(last, step, now);
      && base <= start
      && now - Retention(step.shorter) < start
      && Aligned(start, base, step.window)
      && (forall c :: base <= c && now - Retention(step.shorter) < c && Aligned(c, base, step.window) ==> start <= c)
  {
    SkipIsLeast(BaseCursor(last, step, now), now - Retention(step.shorter), step.window);
  }

  lemma SkipIsLeast(base: int, oldest: int, w: int)
    requires w > 0
    ensures
      var start := Skip(base, oldest, w);
      && base <= start && oldest < start && Aligned(start, base, w)
      && (forall c :: base <= c && oldest < c && Aligned(c, base, w) ==> start <= c)
  {
    hide Aligned;
    AlignedShift(base, 0, w);
    if base <= oldest {
      var k := (oldest - base) / w + 1;
      AlignedShift(base, k, w);
      DivMod(oldest - base, w);
      assert (k - 1) * w == k * w - w;
      MulBound(k, w);
      forall c | base <= c && oldest < c && Aligned(c, base, w)
        ensures base + k * w <= c
      {
        var m := Apart(c, base, w);
        if m < k - 1 {
          MulOrder(m, k - 1, w);
        } else if m > k {
          MulOrder(k, m, w);
        }
      }
    }
  }

  /** Every row in a window the walk skips is at least one source retention old. */
  lemma SkippedRowsAreExpired<R>(t: Table<R>, step: RollupStep, now: int, c: int, at: int)
    requires BaseCursor(Latest(t.At(step.longer)), step, now) <= c < StartCursor(Latest(t.At(step.longer)), step, now)
    requires Aligned(c, BaseCursor(Latest(t.At(step.longer)), step, now), step.window)
    requires at in InWindow(t.At(step.shorter), c - step.window, c)
    ensures at <= now - Retention(step.shorter)
  {
    StartCursorIsLeast(Latest(t.At(step.longer)), step, now);
  }

  lemma CursorsAreApart(step: RollupStep, start: int, upTo: int, c: int, d: int)
    requires c in Cursors(step, start, upTo) && d in Cursors(step, start, upTo) && c < d
    ensures Aligned(d, c, step.window) && d - c >= step.window
  {
    AlignedSym(c, start, step.window);
    AlignedTrans(d, start, c, step.window);
    AlignedGap(c, d, step.window);
  }

  /** The cursor whose window holds a given time. */
  function Closing(step: RollupStep, start: int, at: int): (c: int)
  {
    start + (at - start + step.window - 1) / step.window * step.window
  }

  /** The examined windows tile one interval without gap or overlap: each time from the
      first window's open end up to the last cursor lies in the window of exactly one
      cursor, and that last cursor is less than one window before `now`. */
  lemma CursorsTile(step: RollupStep, start: int, now: int)
    requires start <= now
    ensures
      var last := Closing(step, start, now - step.window + 1);
      && last in Cursors(step, start, now) && now - step.window < last <= now
      && (forall at :: start - step.window < at <= last ==>
            && Closing(step, start, at) in Cursors(step, start, now)
            && Closing(step, start, at) - step.window < at <= Closing(step, start, at))
      && (forall at, c :: c in Cursors(step, start, now) && c - step.window < at <= c ==>
            start - step.window < at <= last && c == Closing(step, start, at))
  {
    var last := Closing(step, start, now - step.window + 1);
    ClosingCursor(step, start, now - step.window + 1);
    forall at | start - step.window < at <= last
      ensures Closing(step, start, at) in Cursors(step, start, now)
      ensures Closing(step, start, at) - step.window < at <= Closing(step, start, at)
    {
      ClosingCursor(step, start, at);
      var c := Closing(step, start, at);
      if last < c {
        AlignedSym(last, start, step.window);
        AlignedTrans(c, start, last, step.window);
        AlignedGap(last, c, step.window);
      }
    }
    forall at, c | c in Cursors(step, start, now) && c - step.window < at <= c
      ensures start - step.window < at <= last && c == Closing(step, start, at)
    {
      ClosingCursor(step, start, at);
      var d := Closing(step, start, at);
      AlignedSame(c, d, start, step.window);
      if last < c {
        AlignedSym(last, start, step.window);
        AlignedTrans(c, start, last, step.window);
        AlignedGap(last, c, step.window);
      }
    }
  }

  /** No row is passed over: with a row to chain on, every source row that is newer than it and
      not expired, up to the last cursor, lies in a window the walk examines. */
  lemma NoRowIsPassedOver(newest: int, step: RollupStep, now: int, at: int)
    requires StartCursor(Some(newest), step, now) <= now
    requires newest < at && now - Retention(step.shorter) < at
    requires at <= Closing(step, StartCursor(Some(newest), step, now), now - step.window + 1)
    ensures
      var start := StartCursor(Some(newest), step, now);
      var c := Closing(step, start, at);
      c in Cursors(step, start, now) && c - step.window < at <= c
  {
    hide Closing, Cursors;
    var start := StartCursor(Some(newest), step, now);
    StartCursorIsLeast(Some(newest), step, now);
    CursorsTile(step, start, now);
    AlignedShift(start, -1, step.window);
    AlignedTrans(start + -1 * step.window, start, newest + step.window, step.window);
  }

  /** With nothing to chain on, only the window that ends now is examined. */
  lemma EmptyLevelExaminesOneWindow(step: RollupStep, now: int)
    ensures Cursors(step, StartCursor(None, step, now), now) == {now}
  {
    AlignedShift(now, 0, step.window);
    assert StartCursor(None, step, now) == now;
  }

  lemma ClosingCursor(step: RollupStep, start: int, at: int)
    requires start - step.window < at
    ensures
      var c := Closing(step, start, at);
      start <= c && Aligned(c, start, step.window) && c - step.window < at <= c
  {
    var i := (at - start + step.window - 1) / step.window;
    DivMod(at - start + step.window - 1, step.window);
    MulBound(i, step.window);
    MulBound(i + 1, step.window);
    AlignedShift(start, i, step.window);
  }
}
