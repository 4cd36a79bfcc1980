/** How far the 64-bit counters of a rolled row are from the numbers beneath it: truncated averages
    lose less than one unit a level exactly when no sum overflows, and peaks are exact at every
    level. */
module RolledCounters {
  import opened Basics
  import opened Rounding
  import opened Averages
  import opened PluginHistory
  import opened Congruence
  import opened History
  import opened HistoryRuns
  import opened Lineage
  import opened Consecutive
  import opened RolledValues
  import Network

  function CounterOf(plugin: Plugin, l: Row, c: Counter): nat {
    Count(Eval(AggregationOf(plugin), l).stats.counters, c)
  }

  function CounterPeakOf(plugin: Plugin, l: Row, c: Counter): nat {
    Count(Eval(AggregationOf(plugin), l).stats.counterPeaks, c)
  }

  function CounterTotal(plugin: Plugin, ls: seq<Row>, c: Counter): nat {
    if ls == [] then 0 else CounterTotal(plugin, ls[..|ls| - 1], c) + CounterOf(plugin, ls[|ls| - 1], c)
  }

  // ----- truncated averages -----

  lemma {:induction false} SourcesCounterSum(plugin: Plugin, parts: seq<Row>, c: Counter)
    requires CarriesCounter(plugin, c)
    ensures CounterSum(Sources(plugin, parts), c) == CounterTotal(plugin, parts, c)
  {
    hide Project, Eval, EvalAll, CarriesCounter;
    if parts != [] {
      var items := Sources(plugin, parts);
      var init := parts[..|parts| - 1];
      assert items[..|items| - 1] == Sources(plugin, init);
      SourcesCounterSum(plugin, init, c);
    }
  }

  lemma {:induction false} MissingCounterSumsToZero(items: seq<Stats>, c: Counter)
    requires c !in CounterKeys(items)
    ensures CounterSum(items, c) == 0
  {
    if items != [] {
      MissingCounterSumsToZero(items[..|items| - 1], c);
    }
  }

  /** A truncated average loses less than one unit of the sum per item, if and only if the sum
      does not overflow 64 bits; otherwise it loses more than 64 bits can hold. */
  lemma TruncationError(items: seq<Stats>, c: Counter)
    requires items != []
    ensures
      var loss := CounterSum(items, c) - |items| * Count(Average(items).counters, c);
      if CounterSum(items, c) < U64 then 0 <= loss <= |items| - 1 else loss >= U64
  {
    hide CounterSum;
    if c in CounterKeys(items) {
      Truncated(CounterSum(items, c), |items|);
    } else {
      MissingCounterSumsToZero(items, c);
    }
  }

  lemma Truncated(s: nat, n: nat)
    requires n > 0
    ensures if s < U64 then 0 <= s - n * (s % U64 / n) <= n - 1 else s - n * (s % U64 / n) >= U64
  {
    DivMod(s % U64, n);
  }

  lemma RolledCounterError(plugin: Plugin, l: Row, c: Counter)
    requires CarriesCounter(plugin, c)
    requires l.Rolled? && l.parts != []
    ensures
      var sum := CounterTotal(plugin, l.parts, c);
      var loss := sum - |l.parts| * CounterOf(plugin, l, c);
      if sum < U64 then 0 <= loss <= |l.parts| - 1 else loss >= U64
  {
    hide Average, CounterSum, CarriesCounter;
    CarriersAreNumeric(plugin);
    RolledIsAverage(plugin, l);
    SourcesCounterSum(plugin, l.parts, c);
    TruncationError(Sources(plugin, l.parts), c);
  }

  lemma {:induction false} CounterTotalOfJoin(plugin: Plugin, a: seq<Row>, b: seq<Row>, c: Counter)
    ensures CounterTotal(plugin, a + b, c) == CounterTotal(plugin, a, c) + CounterTotal(plugin, b, c)
  {
    hide CounterOf;
    if b == [] {
      assert a + b == a;
    } else {
      assert (a + b)[..|a + b| - 1] == a + b[..|b| - 1];
      CounterTotalOfJoin(plugin, a, b[..|b| - 1], c);
    }
  }

  /** The sums that the rows are averages of do not overflow 64 bits. */
  ghost predicate LevelFits(plugin: Plugin, ls: seq<Row>, c: Counter) {
    forall k :: 0 <= k < |ls| ==> CounterTotal(plugin, PartsOf(ls[k]), c) < U64
  }

  /** No sum overflows from the ten-minute rows up to a row of resolution r. */
  ghost predicate SumsFit(plugin: Plugin, l: Row, r: Resolution, c: Counter) {
    match r
    case M20 => LevelFits(plugin, [l], c)
    case M120 => LevelFits(plugin, [l], c) && LevelFits(plugin, PartsOf(l), c)
    case M480 =>
      LevelFits(plugin, [l], c) && LevelFits(plugin, PartsOf(l), c) && LevelFits(plugin, Expand(PartsOf(l)), c)
    case _ => true
  }

  /** Going down one level of fan-in n: the total grows by the factor n and loses at most
      n - 1 units per row, if and only if no sum overflows. */
  lemma {:induction false} CounterLevelLoss(plugin: Plugin, ls: seq<Row>, n: nat, c: Counter)
    requires CarriesCounter(plugin, c)
    requires n > 0 && FansOut(ls, n)
    ensures
      var loss := CounterTotal(plugin, Expand(ls), c) - n * CounterTotal(plugin, ls, c);
      if LevelFits(plugin, ls, c) then 0 <= loss <= (n - 1) * |ls| else loss >= U64
  {
    hide CounterOf, CarriesCounter, CounterTotal, Expand, LevelFits;
    if ls == [] {
      NoCounters(plugin, c);
    } else {
      var init, last := ls[..|ls| - 1], ls[|ls| - 1];
      CounterLevelLoss(plugin, init, n, c);
      RolledCounterError(plugin, last, c);
      OneMoreCounter(plugin, ls, c);
      OneMoreFits(plugin, ls, c);
      DistributeInt(n, CounterTotal(plugin, init, c), CounterOf(plugin, last, c));
      DistributeInt(n - 1, |init|, 1);
    }
  }

  lemma DistributeInt(n: int, x: int, y: int)
    ensures n * (x + y) == n * x + n * y
  {
  }

  lemma NoCounters(plugin: Plugin, c: Counter)
    ensures CounterTotal(plugin, [], c) == 0 && Expand<Payload>([]) == [] && LevelFits(plugin, [], c)
  {
  }

  lemma OneMoreCounter(plugin: Plugin, ls: seq<Row>, c: Counter)
    requires ls != [] && ls[|ls| - 1].Rolled?
    ensures
      var init, last := ls[..|ls| - 1], ls[|ls| - 1];
      && CounterTotal(plugin, ls, c) == CounterTotal(plugin, init, c) + CounterOf(plugin, last, c)
      && CounterTotal(plugin, Expand(ls), c)
         == CounterTotal(plugin, Expand(init), c) + CounterTotal(plugin, last.parts, c)
  {
    hide CounterOf;
    CounterTotalOfJoin(plugin, Expand(ls[..|ls| - 1]), PartsOf(ls[|ls| - 1]), c);
  }

  lemma OneMoreFits(plugin: Plugin, ls: seq<Row>, c: Counter)
    requires ls != [] && ls[|ls| - 1].Rolled?
    ensures LevelFits(plugin, ls, c)
       <==> LevelFits(plugin, ls[..|ls| - 1], c) && CounterTotal(plugin, ls[|ls| - 1].parts, c) < U64
  {
    hide CounterTotal, LevelFits;
    var init, last := ls[..|ls| - 1], ls[|ls| - 1];
    assert ls == init + [last];
    LevelsJoin(plugin, init, [last], c);
    OneFits(plugin, last, c);
  }

  lemma LevelsJoin(plugin: Plugin, a: seq<Row>, b: seq<Row>, c: Counter)
    ensures LevelFits(plugin, a + b, c) <==> LevelFits(plugin, a, c) && LevelFits(plugin, b, c)
  {
    hide CounterTotal, PartsOf;
    if LevelFits(plugin, a + b, c) {
      forall k | 0 <= k < |a|
        ensures CounterTotal(plugin, PartsOf(a[k]), c) < U64
      {
        assert (a + b)[k] == a[k];
      }
      forall k | 0 <= k < |b|
        ensures CounterTotal(plugin, PartsOf(b[k]), c) < U64
      {
        assert (a + b)[|a| + k] == b[k];
      }
    }
  }

  lemma OneFits(plugin: Plugin, l: Row, c: Counter)
    ensures LevelFits(plugin, [l], c) <==> CounterTotal(plugin, PartsOf(l), c) < U64
  {
    hide CounterTotal, PartsOf;
    assert [l][0] == l;
  }

  /** What truncation can lose in total at each level. */
  function LossBound(r: Resolution): nat {
    match r
    case M20 => 1
    case M120 => 16
    case M480 => 100
    case _ => 0
  }

  lemma LossesInNumbers()
    ensures LossBound(M10) == 0 && LossBound(M20) == 1 && LossBound(M120) == 16 && LossBound(M480) == 100
  {
  }

  /** What the total of the ten-minute rows loses. */
  function Loss(plugin: Plugin, l: Row, r: Resolution, c: Counter): int {
    CounterTotal(plugin, TenMinuteRows(l), c) - TenMinutes(r) * CounterOf(plugin, l, c)
  }

  lemma OneRow(plugin: Plugin, l: Row, c: Counter)
    requires l.Rolled?
    ensures CounterTotal(plugin, [l], c) == CounterOf(plugin, l, c) && Expand([l]) == l.parts
    ensures FansOut([l], |l.parts|)
  {
    hide CounterOf;
    assert [l][..0] == [];
  }

  lemma TwentyMinuteLoss(plugin: Plugin, l: Row, c: Counter)
    requires CarriesCounter(plugin, c) && WellBuilt(l, M20)
    ensures if SumsFit(plugin, l, M20, c)
            then 0 <= Loss(plugin, l, M20, c) <= 1 else Loss(plugin, l, M20, c) >= U64
  {
    hide WellBuilt, CounterOf, CounterTotal, CarriesCounter, LevelFits, Expand, FansOut;
    WellBuiltParts(l, 1);
    OneRow(plugin, l, c);
    CounterLevelLoss(plugin, [l], 2, c);
  }

  lemma TwoHourLoss(plugin: Plugin, l: Row, c: Counter)
    requires CarriesCounter(plugin, c) && WellBuilt(l, M120)
    ensures if SumsFit(plugin, l, M120, c)
            then 0 <= Loss(plugin, l, M120, c) <= 16 else Loss(plugin, l, M120, c) >= U64
  {
    hide WellBuilt, CounterOf, CounterTotal, CarriesCounter, LevelFits, Expand, FansOut;
    WellBuiltParts(l, 2);
    OneRow(plugin, l, c);
    FanOutOf(l.parts, 1);
    LevelLossOf(plugin, l.parts, 2, 6, c);
    LevelLossOf(plugin, [l], 6, 1, c);
  }

  lemma EightHourLoss(plugin: Plugin, l: Row, c: Counter)
    requires CarriesCounter(plugin, c) && WellBuilt(l, M480)
    ensures if SumsFit(plugin, l, M480, c)
            then 0 <= Loss(plugin, l, M480, c) <= 100 else Loss(plugin, l, M480, c) >= U64
  {
    hide WellBuilt, CounterOf, CounterTotal, CarriesCounter, LevelFits, Expand, FansOut, SumsFit, Loss, TenMinuteRows,
      PartsOf;
    EightHourShape(l);
    EightHourUnfolds(plugin, l, c);
    OneRow(plugin, l, c);
    var m120 := PartsOf(l);
    var m20 := Expand(m120);
    LevelLossOf(plugin, m20, 2, 24, c);
    LevelLossOf(plugin, m120, 6, 4, c);
    LevelLossOf(plugin, [l], 4, 1, c);
    LossesAddUp(LevelFits(plugin, m20, c), LevelFits(plugin, m120, c), LevelFits(plugin, [l], c),
                CounterTotal(plugin, Expand(m20), c), CounterTotal(plugin, m20, c), CounterTotal(plugin, m120, c),
                CounterOf(plugin, l, c));
  }

  lemma EightHourShape(l: Row)
    requires WellBuilt(l, M480)
    ensures l.Rolled? && l.parts == PartsOf(l) && |l.parts| == 4
    ensures FansOut(PartsOf(l), 6) && FansOut(Expand(PartsOf(l)), 2)
    ensures |Expand(PartsOf(l))| == 24 && TenMinuteRows(l) == Expand(Expand(PartsOf(l)))
  {
    hide WellBuilt, Expand, FansOut;
    WellBuiltParts(l, 3);
    FanOutOf(l.parts, 2);
    FanOutOf(Expand(l.parts), 1);
  }

  lemma EightHourUnfolds(plugin: Plugin, l: Row, c: Counter)
    requires TenMinuteRows(l) == Expand(Expand(PartsOf(l)))
    ensures Loss(plugin, l, M480, c)
         == CounterTotal(plugin, Expand(Expand(PartsOf(l))), c) - 48 * CounterOf(plugin, l, c)
    ensures SumsFit(plugin, l, M480, c)
       <==> LevelFits(plugin, Expand(PartsOf(l)), c) && LevelFits(plugin, PartsOf(l), c) && LevelFits(plugin, [l], c)
  {
    hide CounterOf, CounterTotal, LevelFits, Expand, PartsOf, TenMinuteRows;
  }

  lemma LevelLossOf(plugin: Plugin, ls: seq<Row>, n: nat, k: nat, c: Counter)
    requires CarriesCounter(plugin, c)
    requires n > 0 && FansOut(ls, n) && |ls| == k
    ensures
      var loss := CounterTotal(plugin, Expand(ls), c) - n * CounterTotal(plugin, ls, c);
      if LevelFits(plugin, ls, c) then 0 <= loss <= (n - 1) * k else loss >= U64
  {
    CounterLevelLoss(plugin, ls, n, c);
  }

  lemma LossesAddUp(fits20: bool, fits120: bool, fits480: bool, t48: int, t24: int, t4: int, v: int)
    requires if fits20 then 0 <= t48 - 2 * t24 <= 24 else t48 - 2 * t24 >= U64
    requires if fits120 then 0 <= t24 - 6 * t4 <= 20 else t24 - 6 * t4 >= U64
    requires if fits480 then 0 <= t4 - 4 * v <= 3 else t4 - 4 * v >= U64
    ensures if fits20 && fits120 && fits480 then 0 <= t48 - 48 * v <= 100 else t48 - 48 * v >= U64
  {
  }

  lemma TenMinuteCounter(plugin: Plugin, l: Row, c: Counter)
    requires WellBuilt(l, M10)
    ensures TenMinuteRows(l) == [l] && CounterTotal(plugin, [l], c) == CounterOf(plugin, l, c)
  {
    hide CounterOf;
    WellBuiltParts(l, 0);
    assert [l][..0] == [];
  }

  lemma RowLoss(plugin: Plugin, l: Row, r: Resolution, c: Counter)
    requires CarriesCounter(plugin, c)
    requires r != M1 && WellBuilt(l, r)
    ensures 0 <= Loss(plugin, l, r, c)
    ensures Loss(plugin, l, r, c) <= LossBound(r) <==> SumsFit(plugin, l, r, c)
  {
    hide WellBuilt, CounterTotal, CarriesCounter, CounterOf, LevelFits, TenMinuteRows;
    match r
    case M10 => TenMinuteCounter(plugin, l, c);
    case M20 => TwentyMinuteLoss(plugin, l, c);
    case M120 => TwoHourLoss(plugin, l, c);
    case M480 => EightHourLoss(plugin, l, c);
  }

  /** Every stored rolled row: a truncated average is never above the plain mean of the
      ten-minute values beneath it, and short of it by less than one unit a level if and only if
      no 64-bit sum overflowed on the way up. */
  lemma NestedTruncation(plugin: Plugin, es: seq<Event<Payload>>, r: Resolution, at: int, c: Counter)
    requires CarriesCounter(plugin, c)
    requires r != M1 && at in Run(AggregationOf(plugin), es).At(r)
    ensures
      var l := LineageOf(plugin, es, r, at);
      var ten := TenMinuteRows(l);
      var stored := Count(Run(AggregationOf(plugin), es).At(r)[at].stats.counters, c);
      var loss := CounterTotal(plugin, ten, c) - |ten| * stored;
      && |ten| == TenMinutes(r)
      && 0 <= loss
      && (loss <= LossBound(r) <==> SumsFit(plugin, l, r, c))
  {
    hide WellBuilt, CounterTotal, CarriesCounter, Run, AggregationOf, SumsFit, TenMinuteRows, Eval;
    StoredValue(plugin, es, r, at);
    var l := LineageOf(plugin, es, r, at);
    TenMinuteRowsAreAll(l, r);
    RowLoss(plugin, l, r, c);
  }

  // ----- when sums fit -----

  /** Values small enough that six of them fit into 64 bits. */
  ghost predicate Fits(plugin: Plugin, ls: seq<Row>, c: Counter) {
    forall k :: 0 <= k < |ls| ==> CounterOf(plugin, ls[k], c) * 6 < U64
  }

  lemma {:induction false} FitsTotal(plugin: Plugin, ls: seq<Row>, c: Counter, n: nat)
    requires Fits(plugin, ls, c) && |ls| <= n <= 6
    ensures CounterTotal(plugin, ls, c) * 6 <= (U64 - 1) * |ls|
    decreases |ls|
  {
    hide CounterOf;
    if ls != [] {
      var init := ls[..|ls| - 1];
      assert forall k :: 0 <= k < |init| ==> init[k] == ls[k];
      FitsTotal(plugin, init, c, n);
      DistributeInt(U64 - 1, |init|, 1);
    }
  }

  lemma SmallQuotient(n: nat, v: nat, total: nat)
    requires n > 0 && n * v <= total && total * 6 <= (U64 - 1) * n
    ensures v * 6 < U64
  {
    var d := v * 6 - (U64 - 1);
    assert n * d == n * v * 6 - (U64 - 1) * n;
    assert d > 0 ==> n * d > 0;
  }

  /** Rows of small sources have sums that fit, and are small themselves. */
  lemma RolledFits(plugin: Plugin, l: Row, c: Counter)
    requires CarriesCounter(plugin, c)
    requires l.Rolled? && 0 < |l.parts| <= 6 && Fits(plugin, l.parts, c)
    ensures CounterTotal(plugin, l.parts, c) < U64
    ensures CounterOf(plugin, l, c) * 6 < U64
  {
    hide CounterOf, CounterTotal, CarriesCounter, Fits;
    FitsTotal(plugin, l.parts, c, 6);
    RolledCounterError(plugin, l, c);
    SmallQuotient(|l.parts|, CounterOf(plugin, l, c), CounterTotal(plugin, l.parts, c));
  }

  lemma {:induction false} SmallLevelFits(plugin: Plugin, ls: seq<Row>, n: nat, c: Counter)
    requires CarriesCounter(plugin, c)
    requires 0 < n <= 6 && FansOut(ls, n) && Fits(plugin, Expand(ls), c)
    ensures LevelFits(plugin, ls, c) && Fits(plugin, ls, c)
  {
    hide CounterOf, CarriesCounter, CounterTotal, Fits, LevelFits;
    if ls == [] {
      NoCounters(plugin, c);
      NothingFits(plugin, c);
    } else {
      var init, last := ls[..|ls| - 1], ls[|ls| - 1];
      FitsSplit(plugin, Expand(init), last.parts, c);
      SmallLevelFits(plugin, init, n, c);
      RolledFits(plugin, last, c);
      OneMoreFits(plugin, ls, c);
      assert ls == init + [last];
      FitsJoin(plugin, init, last, c);
    }
  }

  lemma NothingFits(plugin: Plugin, c: Counter)
    ensures Fits(plugin, [], c)
  {
  }

  lemma FitsSplit(plugin: Plugin, a: seq<Row>, b: seq<Row>, c: Counter)
    requires Fits(plugin, a + b, c)
    ensures Fits(plugin, a, c) && Fits(plugin, b, c)
  {
    hide CounterOf;
    forall k | 0 <= k < |a|
      ensures CounterOf(plugin, a[k], c) * 6 < U64
    {
      assert (a + b)[k] == a[k];
    }
    forall k | 0 <= k < |b|
      ensures CounterOf(plugin, b[k], c) * 6 < U64
    {
      assert (a + b)[|a| + k] == b[k];
    }
  }

  lemma FitsJoin(plugin: Plugin, a: seq<Row>, l: Row, c: Counter)
    requires Fits(plugin, a, c) && CounterOf(plugin, l, c) * 6 < U64
    ensures Fits(plugin, a + [l], c)
  {
    hide CounterOf;
  }

  lemma SmallValuesFit(plugin: Plugin, l: Row, r: Resolution, c: Counter)
    requires CarriesCounter(plugin, c)
    requires r != M1 && WellBuilt(l, r) && Fits(plugin, TenMinuteRows(l), c)
    ensures SumsFit(plugin, l, r, c)
  {
    hide WellBuilt, CounterOf, CounterTotal, CarriesCounter, Fits, LevelFits, FansOut, Expand;
    WellBuiltParts(l, StepInto(r));
    OneRow(plugin, l, c);
    match r
    case M10 =>
    case M20 =>
      SmallLevelFits(plugin, [l], 2, c);
    case M120 =>
      FanOutOf(l.parts, 1);
      SmallLevelFits(plugin, l.parts, 2, c);
      SmallLevelFits(plugin, [l], 6, c);
    case M480 =>
      FanOutOf(l.parts, 2);
      FanOutOf(Expand(l.parts), 1);
      SmallLevelFits(plugin, Expand(l.parts), 2, c);
      SmallLevelFits(plugin, l.parts, 6, c);
      SmallLevelFits(plugin, [l], 4, c);
  }

  // ----- peaks -----

  function RawCounterHighWater(ps: seq<Payload>, c: Counter): nat {
    if ps == [] then 0 else MaxNat(CounterCrest(ps[0].stats, c), RawCounterHighWater(ps[1..], c))
  }

  lemma {:induction false} RawCounterHighWaterOfJoin(a: seq<Payload>, b: seq<Payload>, c: Counter)
    ensures RawCounterHighWater(a + b, c) == MaxNat(RawCounterHighWater(a, c), RawCounterHighWater(b, c))
  {
    hide CounterCrest;
    if a == [] {
      assert a + b == b;
    } else {
      assert (a + b)[1..] == a[1..] + b;
      RawCounterHighWaterOfJoin(a[1..], b, c);
    }
  }

  function CounterCrestOf(plugin: Plugin, l: Row, c: Counter): nat {
    MaxNat(CounterPeakOf(plugin, l, c), CounterOf(plugin, l, c))
  }

  function CounterCrestOfAll(plugin: Plugin, ls: seq<Row>, c: Counter): nat {
    if ls == [] then 0
    else MaxNat(CounterCrestOfAll(plugin, ls[..|ls| - 1], c), CounterCrestOf(plugin, ls[|ls| - 1], c))
  }

  lemma {:induction false} SourcesCounterHighWater(plugin: Plugin, parts: seq<Row>, c: Counter)
    requires CarriesCounter(plugin, c)
    ensures CounterHighWater(Sources(plugin, parts), c) == CounterCrestOfAll(plugin, parts, c)
  {
    hide Project, Eval, EvalAll, CarriesCounter;
    if parts != [] {
      var items := Sources(plugin, parts);
      assert items[..|items| - 1] == Sources(plugin, parts[..|parts| - 1]);
      SourcesCounterHighWater(plugin, parts[..|parts| - 1], c);
    }
  }

  lemma {:induction false} MissingCounterPeakIsZero(items: seq<Stats>, c: Counter)
    requires HasCounterPeak(c) && c !in CounterPeakKeys(items)
    ensures CounterHighWater(items, c) == 0
  {
    if items != [] {
      MissingCounterPeakIsZero(items[..|items| - 1], c);
    }
  }

  lemma {:induction false} SumWithinHighWater(items: seq<Stats>, c: Counter)
    ensures CounterSum(items, c) <= |items| * CounterHighWater(items, c)
  {
    hide CounterCrest;
    if items != [] {
      var init, last := items[..|items| - 1], items[|items| - 1];
      SumWithinHighWater(init, c);
      var m := CounterHighWater(items, c);
      CountWithinCrest(last, c);
      assert CounterSum(items, c) == CounterSum(init, c) + Count(last.counters, c);
      AddWithin(CounterSum(init, c), |init|, CounterHighWater(init, c), Count(last.counters, c), m);
    }
  }

  lemma CountWithinCrest(item: Stats, c: Counter)
    ensures Count(item.counters, c) <= CounterCrest(item, c)
  {
  }

  lemma AddWithin(s: nat, n: nat, bound: nat, x: nat, bound': nat)
    requires s <= n * bound && bound <= bound' && x <= bound'
    ensures s + x <= (n + 1) * bound'
  {
    assert n * bound' - n * bound == n * (bound' - bound);
    assert (n + 1) * bound' == n * bound' + bound';
  }

  lemma AveragedCounterPeak(items: seq<Stats>, c: Counter)
    requires HasCounterPeak(c) && items != []
    ensures Count(Average(items).counterPeaks, c) == CounterHighWater(items, c) >= Count(Average(items).counters, c)
  {
    hide CounterHighWater, CounterSum, GaugeKeys, TwoDecimals;
    if c !in CounterPeakKeys(items) {
      MissingCounterPeakIsZero(items, c);
    }
    SumWithinHighWater(items, c);
    QuotientWithin(CounterSum(items, c), |items|, CounterHighWater(items, c));
  }

  lemma QuotientWithin(s: nat, n: nat, bound: nat)
    requires n > 0 && s <= n * bound
    ensures s % U64 / n <= bound
  {
    DivMod(s % U64, n);
    var q := s % U64 / n;
    assert s % U64 <= s;
    assert n * (q - bound) == n * q - n * bound;
    assert q - bound > 0 ==> n * (q - bound) > 0;
  }

  /** Counter peaks need no assumption: truncation rounds down, and a sum that wraps around
      only gets smaller. */
  lemma {:induction false} CounterPeaksAreExact(plugin: Plugin, l: Row, r: Resolution, c: Counter)
    requires CarriesCounter(plugin, c) && HasCounterPeak(c)
    requires WellBuilt(l, r)
    ensures r != M1 ==> CounterPeakOf(plugin, l, c) == RawCounterHighWater(Leaves(l), c) >= CounterOf(plugin, l, c)
    ensures CounterCrestOf(plugin, l, c) == RawCounterHighWater(Leaves(l), c)
    decreases l, 1
  {
    hide CarriesCounter;
    match l
    case Raw(at, payload) =>
      RawCounterPeak(plugin, l, c);
    case Rolled(res, at, parts) =>
      hide Eval, WellBuilt, Average, CounterHighWater;
      WellBuiltParts(l, StepInto(r));
      assert parts != [];
      AllCounterPeaksAreExact(plugin, parts, STEPS[StepInto(r)].shorter, c);
      CarriersAreNumeric(plugin);
      RolledIsAverage(plugin, l);
      SourcesCounterHighWater(plugin, parts, c);
      AveragedCounterPeak(Sources(plugin, parts), c);
  }

  lemma RawCounterPeak(plugin: Plugin, l: Row, c: Counter)
    requires l.Raw?
    ensures CounterCrestOf(plugin, l, c) == RawCounterHighWater(Leaves(l), c)
  {
    assert Leaves(l) == [l.payload];
    assert Leaves(l)[1..] == [];
  }

  lemma {:induction false} AllCounterPeaksAreExact(plugin: Plugin, ls: seq<Row>, r: Resolution, c: Counter)
    requires CarriesCounter(plugin, c) && HasCounterPeak(c)
    requires forall k :: 0 <= k < |ls| ==> WellBuilt(ls[k], r)
    ensures CounterCrestOfAll(plugin, ls, c) == RawCounterHighWater(AllLeaves(ls), c)
    decreases ls, 0
  {
    hide CarriesCounter, WellBuilt, CounterOf, CounterPeakOf, Leaves;
    if ls != [] {
      CounterPeaksAreExact(plugin, ls[0], r, c);
      AllCounterPeaksAreExact(plugin, ls[1..], r, c);
      RawCounterHighWaterOfJoin(Leaves(ls[0]), AllLeaves(ls[1..]), c);
      CounterCrestFromFront(plugin, ls, c);
    }
  }

  lemma {:induction false} CounterCrestFromFront(plugin: Plugin, ls: seq<Row>, c: Counter)
    requires ls != []
    ensures CounterCrestOfAll(plugin, ls, c)
         == MaxNat(CounterCrestOf(plugin, ls[0], c), CounterCrestOfAll(plugin, ls[1..], c))
    decreases |ls|
  {
    hide CounterCrestOf;
    if |ls| == 1 {
      assert ls[..0] == [] && ls[1..] == [];
      assert CounterCrestOfAll(plugin, ls, c)
          == MaxNat(CounterCrestOfAll(plugin, ls[..0], c), CounterCrestOf(plugin, ls[0], c));
    } else {
      CounterCrestFromFront(plugin, ls[..|ls| - 1], c);
      assert ls[1..][..|ls[1..]| - 1] == ls[..|ls| - 1][1..];
    }
  }

  lemma NestedCounterPeaks(plugin: Plugin, es: seq<Event<Payload>>, r: Resolution, at: int, c: Counter)
    requires CarriesCounter(plugin, c) && HasCounterPeak(c)
    requires r != M1 && at in Run(AggregationOf(plugin), es).At(r)
    ensures
      var raw := Leaves(LineageOf(plugin, es, r, at));
      var stored := Run(AggregationOf(plugin), es).At(r)[at].stats;
      Count(stored.counterPeaks, c) == RawCounterHighWater(raw, c) >= Count(stored.counters, c)
  {
    hide WellBuilt, CarriesCounter, Run, AggregationOf, Leaves;
    StoredValue(plugin, es, r, at);
    CounterPeaksAreExact(plugin, LineageOf(plugin, es, r, at), r, c);
  }

  // ----- bandwidth -----

  lemma {:induction false} OneOfTheLeaves(ls: seq<Row>, k: nat, c: Counter)
    requires k < |ls|
    ensures RawCounterHighWater(Leaves(ls[k]), c) <= RawCounterHighWater(AllLeaves(ls), c)
    decreases |ls|
  {
    hide Leaves;
    RawCounterHighWaterOfJoin(Leaves(ls[0]), AllLeaves(ls[1..]), c);
    if k > 0 {
      OneOfTheLeaves(ls[1..], k - 1, c);
    }
  }

  /** Bandwidth never overflows: the network manager publishes at most ten billion, so the stored
      average is always within the loss bound of the mean of its ten-minute values. */
  lemma BandwidthNeverOverflows(es: seq<Event<Payload>>, r: Resolution, at: int, i: nat)
    requires r != M1 && at in Run(AggregationOf(PluginNetwork), es).At(r)
    ensures
      var l := LineageOf(PluginNetwork, es, r, at);
      var ten := TenMinuteRows(l);
      var stored := Count(Run(AggregationOf(PluginNetwork), es).At(r)[at].stats.counters, Bandwidth(i));
      && |ten| == TenMinutes(r)
      && (RawCounterHighWater(Leaves(l), Bandwidth(i)) <= Network.THRESHOLD ==>
            0 <= CounterTotal(PluginNetwork, ten, Bandwidth(i)) - |ten| * stored <= LossBound(r))
  {
    hide WellBuilt, Run, AggregationOf, SumsFit, Leaves, AllLeaves, RawCounterHighWater, TenMinuteRows, CounterTotal,
      CounterOf, LineageOf;
    var l, c := LineageOf(PluginNetwork, es, r, at), Bandwidth(i);
    StoredValue(PluginNetwork, es, r, at);
    NestedTruncation(PluginNetwork, es, r, at, c);
    if RawCounterHighWater(Leaves(l), c) <= Network.THRESHOLD {
      SmallBandwidthFits(l, r, c);
    }
  }

  lemma SmallBandwidthFits(l: Row, r: Resolution, c: Counter)
    requires r != M1 && WellBuilt(l, r) && c.Bandwidth?
    requires RawCounterHighWater(Leaves(l), c) <= Network.THRESHOLD
    ensures SumsFit(PluginNetwork, l, r, c)
  {
    hide WellBuilt, SumsFit, Leaves, AllLeaves, RawCounterHighWater, TenMinuteRows, CounterOf;
    TenMinuteRowsAreAll(l, r);
    var ten := TenMinuteRows(l);
    forall k | 0 <= k < |ten|
      ensures CounterOf(PluginNetwork, ten[k], c) * 6 < U64
    {
      CounterPeaksAreExact(PluginNetwork, ten[k], M10, c);
      OneOfTheLeaves(ten, k, c);
    }
    SmallValuesFit(PluginNetwork, l, r, c);
  }
}
