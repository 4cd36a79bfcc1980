/** How far the gauges of a rolled row are from the numbers beneath it: nested averages stay
    within a fixed error, and peaks are exact at every level. */
module RolledValues {
  import opened Rounding
  import opened Averages
  import opened PluginHistory
  import opened History
  import opened HistoryRuns
  import opened Lineage
  import opened Consecutive

  type Row = Lineage<Payload>

  /** The value of a gauge in the record that a lineage stands for. */
  function GaugeOf(plugin: Plugin, l: Row, g: Gauge): real {
    Real(Eval(AggregationOf(plugin), l).stats.gauges, g)
  }

  function PeakOf(plugin: Plugin, l: Row, g: Gauge): real {
    Real(Eval(AggregationOf(plugin), l).stats.peaks, g)
  }

  function Total(plugin: Plugin, ls: seq<Row>, g: Gauge): real {
    if ls == [] then 0.0 else Total(plugin, ls[..|ls| - 1], g) + GaugeOf(plugin, ls[|ls| - 1], g)
  }

  // ----- one rolled row -----

  /** The decoded payloads of a row's sources. */
  function Sources(plugin: Plugin, parts: seq<Row>): (items: seq<Stats>)
    ensures |items| == |parts|
    ensures forall k :: 0 <= k < |parts| ==> items[k] == Project(plugin, Eval(AggregationOf(plugin), parts[k]).stats)
  {
    Projected(plugin, EvalAll(AggregationOf(plugin), parts))
  }

  lemma RolledIsAverage(plugin: Plugin, l: Row)
    requires IsNumeric(plugin) && l.Rolled? && l.parts != []
    ensures Eval(AggregationOf(plugin), l).stats == Project(plugin, Average(Sources(plugin, l.parts)))
  {
    var items := EvalAll(AggregationOf(plugin), l.parts);
    assert Eval(AggregationOf(plugin), l) == Aggregate(plugin, items);
    ExtractsWhatItFills(plugin);
  }

  lemma {:induction false} SourcesSum(plugin: Plugin, parts: seq<Row>, g: Gauge)
    requires Carries(plugin, g)
    ensures Sum(Sources(plugin, parts), g) == Total(plugin, parts, g)
  {
    hide Project, Eval, EvalAll, Carries;
    if parts != [] {
      var items := Sources(plugin, parts);
      var init := parts[..|parts| - 1];
      assert items[..|items| - 1] == Sources(plugin, init);
      SourcesSum(plugin, init, g);
    }
  }

  lemma {:induction false} MissingGaugeSumsToZero(items: seq<Stats>, g: Gauge)
    requires g !in GaugeKeys(items)
    ensures Sum(items, g) == 0.0
  {
    if items != [] {
      MissingGaugeSumsToZero(items[..|items| - 1], g);
    }
  }

  lemma AveragedGauge(items: seq<Stats>, g: Gauge)
    ensures Real(Average(items).gauges, g) == if g in GaugeKeys(items) then Rounded(g, Mean(items, g)) else 0.0
  {
    hide Rounded, GaugeKeys, PeakKeys, CounterKeys, CounterPeakKeys, HighWater, CounterHighWater, CounterSum;
  }

  /** One averaging step is off by at most half a hundredth. */
  lemma AverageError(items: seq<Stats>, g: Gauge)
    requires items != [] && !g.Temperature? && !g.CpuCore?
    ensures
      var n := |items| as real;
      -0.005 * n <= n * Real(Average(items).gauges, g) - Sum(items, g) <= 0.005 * n
  {
    hide Sum, TwoDecimals, Average, GaugeKeys, Abs;
    AveragedGauge(items, g);
    if g in GaugeKeys(items) {
      RoundingError(Mean(items, g));
      ScaleError(Real(Average(items).gauges, g), Sum(items, g), |items| as real);
    } else {
      MissingGaugeSumsToZero(items, g);
    }
  }

  lemma ScaleError(v: real, s: real, n: real)
    requires n > 0.0 && Abs(v - s / n) <= 0.005
    ensures -0.005 * n <= n * v - s <= 0.005 * n
  {
    var e := v - s / n;
    assert n * v - s == n * e;
    assert n * e <= n * 0.005;
    assert n * e >= n * -0.005;
  }

  lemma RolledGaugeError(plugin: Plugin, l: Row, g: Gauge)
    requires Carries(plugin, g) && !g.Temperature? && !g.CpuCore?
    requires l.Rolled? && l.parts != []
    ensures
      var n := |l.parts| as real;
      -0.005 * n <= n * GaugeOf(plugin, l, g) - Total(plugin, l.parts, g) <= 0.005 * n
  {
    hide Average, Sum, Carries, GaugeOf, Total, Real, Sources;
    GaugeIsAverage(plugin, l, g);
    AverageError(Sources(plugin, l.parts), g);
    SourcesSum(plugin, l.parts, g);
  }

  lemma GaugeIsAverage(plugin: Plugin, l: Row, g: Gauge)
    requires Carries(plugin, g)
    requires l.Rolled? && l.parts != []
    ensures GaugeOf(plugin, l, g) == Real(Average(Sources(plugin, l.parts)).gauges, g)
  {
    hide Average, Carries, Sources;
    CarriersAreNumeric(plugin);
    RolledIsAverage(plugin, l);
  }

  // ----- a sequence of rolled rows and the rows beneath it -----

  ghost predicate FansOut(ls: seq<Row>, n: nat) {
    forall k :: 0 <= k < |ls| ==> ls[k].Rolled? && |ls[k].parts| == n
  }

  lemma {:induction false} TotalOfJoin(plugin: Plugin, a: seq<Row>, b: seq<Row>, g: Gauge)
    ensures Total(plugin, a + b, g) == Total(plugin, a, g) + Total(plugin, b, g)
  {
    hide GaugeOf;
    if b == [] {
      assert a + b == a;
    } else {
      assert (a + b)[..|a + b| - 1] == a + b[..|b| - 1];
      TotalOfJoin(plugin, a, b[..|b| - 1], g);
    }
  }

  /** Going down one level of fan-in n multiplies the total by n, up to half a hundredth per
      source row. */
  lemma {:induction false} LevelError(plugin: Plugin, ls: seq<Row>, n: nat, g: Gauge)
    requires Carries(plugin, g) && !g.Temperature? && !g.CpuCore?
    requires n > 0 && FansOut(ls, n)
    ensures
      var e := 0.005 * (n as real) * (|ls| as real);
      -e <= (n as real) * Total(plugin, ls, g) - Total(plugin, Expand(ls), g) <= e
  {
    hide GaugeOf, Carries, Total, Expand;
    if ls == [] {
      NoRows(plugin, g);
    } else {
      var init, last := ls[..|ls| - 1], ls[|ls| - 1];
      LevelError(plugin, init, n, g);
      RolledGaugeError(plugin, last, g);
      OneMoreRow(plugin, ls, g);
      AddError(n as real, |init| as real, Total(plugin, init, g), Total(plugin, Expand(init), g),
               GaugeOf(plugin, last, g), Total(plugin, last.parts, g));
    }
  }

  lemma AddError(m: real, k: real, total: real, beneath: real, v: real, sum: real)
    requires -(0.005 * m * k) <= m * total - beneath <= 0.005 * m * k
    requires -0.005 * m <= m * v - sum <= 0.005 * m
    ensures -(0.005 * m * (k + 1.0)) <= m * (total + v) - (beneath + sum) <= 0.005 * m * (k + 1.0)
  {
    Distribute(m, total, v);
    Distribute(0.005 * m, k, 1.0);
  }

  lemma Distribute(m: real, x: real, y: real)
    ensures m * (x + y) == m * x + m * y
  {
  }

  lemma NoRows(plugin: Plugin, g: Gauge)
    ensures Total(plugin, [], g) == 0.0 && Expand<Payload>([]) == []
  {
  }

  lemma OneMoreRow(plugin: Plugin, ls: seq<Row>, g: Gauge)
    requires ls != [] && ls[|ls| - 1].Rolled?
    ensures
      var init, last := ls[..|ls| - 1], ls[|ls| - 1];
      && Total(plugin, ls, g) == Total(plugin, init, g) + GaugeOf(plugin, last, g)
      && Total(plugin, Expand(ls), g) == Total(plugin, Expand(init), g) + Total(plugin, last.parts, g)
  {
    hide GaugeOf;
    TotalOfJoin(plugin, Expand(ls[..|ls| - 1]), PartsOf(ls[|ls| - 1]), g);
  }

  // ----- nested averages -----

  lemma {:induction false} FanOutOf(ls: seq<Row>, i: nat)
    requires 0 < i < |STEPS|
    requires forall k :: 0 <= k < |ls| ==> WellBuilt(ls[k], STEPS[i].longer)
    ensures FansOut(ls, STEPS[i].minShorterRows)
    ensures |Expand(ls)| == STEPS[i].minShorterRows * |ls|
    ensures forall k :: 0 <= k < |Expand(ls)| ==> WellBuilt(Expand(ls)[k], STEPS[i].shorter)
  {
    hide WellBuilt, Retention, FansOut;
    var n := STEPS[i].minShorterRows;
    if ls == [] {
      NothingFansOut(n);
    } else {
      var init, last := ls[..|ls| - 1], ls[|ls| - 1];
      FanOutOf(init, i);
      WellBuiltParts(last, i);
      assert ls == init + [last];
      FansOutNext(init, last, n);
      OneMore(n, |ls|);
      assert Expand(ls) == Expand(init) + last.parts;
    }
  }

  lemma NothingFansOut(n: nat)
    ensures FansOut([], n) && n * 0 == 0
  {
  }

  lemma FansOutNext(init: seq<Row>, last: Row, n: nat)
    requires FansOut(init, n) && last.Rolled? && |last.parts| == n
    ensures FansOut(init + [last], n)
  {
  }

  /** The ten-minute rows beneath a row. */
  function TenMinuteRows(l: Row): seq<Row> {
    match l
    case Raw(_, _) => []
    case Rolled(res, _, parts) =>
      match res
      case M1 => []
      case M10 => [l]
      case M20 => parts
      case M120 => Expand(parts)
      case M480 => Expand(Expand(parts))
  }

  /** Half a hundredth per level above the ten-minute rows. */
  function ErrorBound(r: Resolution): real {
    match r
    case M20 => 0.005
    case M120 => 0.01
    case M480 => 0.015
    case _ => 0.0
  }

  function TenMinutes(r: Resolution): nat {
    match r
    case M1 => 0
    case M10 => 1
    case M20 => 2
    case M120 => 12
    case M480 => 48
  }

  lemma TwentyMinuteError(plugin: Plugin, l: Row, g: Gauge)
    requires Carries(plugin, g) && !g.Temperature? && !g.CpuCore?
    requires WellBuilt(l, M20)
    ensures |TenMinuteRows(l)| == 2
    ensures -0.01 <= 2.0 * GaugeOf(plugin, l, g) - Total(plugin, TenMinuteRows(l), g) <= 0.01
  {
    hide WellBuilt, GaugeOf, Total, Carries;
    WellBuiltParts(l, 1);
    RolledGaugeError(plugin, l, g);
  }

  lemma TwoHourError(plugin: Plugin, l: Row, g: Gauge)
    requires Carries(plugin, g) && !g.Temperature? && !g.CpuCore?
    requires WellBuilt(l, M120)
    ensures |TenMinuteRows(l)| == 12
    ensures -0.12 <= 12.0 * GaugeOf(plugin, l, g) - Total(plugin, TenMinuteRows(l), g) <= 0.12
  {
    hide WellBuilt, GaugeOf, Total, Carries;
    WellBuiltParts(l, 2);
    RolledGaugeError(plugin, l, g);
    FanOutOf(l.parts, 1);
    LevelError(plugin, l.parts, 2, g);
  }

  lemma EightHourError(plugin: Plugin, l: Row, g: Gauge)
    requires Carries(plugin, g) && !g.Temperature? && !g.CpuCore?
    requires WellBuilt(l, M480)
    ensures |TenMinuteRows(l)| == 48
    ensures -0.72 <= 48.0 * GaugeOf(plugin, l, g) - Total(plugin, TenMinuteRows(l), g) <= 0.72
  {
    hide WellBuilt, GaugeOf, Total, Carries, FansOut, Expand;
    WellBuiltParts(l, 3);
    var m120 := l.parts;
    var m20 := Expand(m120);
    RolledGaugeError(plugin, l, g);
    FanOutOf(m120, 2);
    FanOutOf(m20, 1);
    LevelError(plugin, m120, 6, g);
    LevelError(plugin, m20, 2, g);
  }

  /** The payload table and the lineage table hold rows at the same times. */
  lemma SameRows(plugin: Plugin, es: seq<Event<Payload>>, r: Resolution)
    ensures Run(AggregationOf(plugin), es).At(r).Keys == Run(Graft(), Traced(es)).At(r).Keys
  {
    hide Run, AggregationOf, Eval;
    RunEvaluatesLineages(AggregationOf(plugin), es);
    LevelsEvaluate(AggregationOf(plugin), Run(Graft(), Traced(es)), r);
  }

  /** Where a stored record comes from. */
  function LineageOf(plugin: Plugin, es: seq<Event<Payload>>, r: Resolution, at: int): (l: Row)
    requires at in Run(AggregationOf(plugin), es).At(r)
  {
    SameRows(plugin, es, r);
    Run(Graft(), Traced(es)).At(r)[at]
  }

  /** A stored record is the value of its lineage, and its lineage is exact. */
  lemma StoredValue(plugin: Plugin, es: seq<Event<Payload>>, r: Resolution, at: int)
    requires at in Run(AggregationOf(plugin), es).At(r)
    ensures WellBuilt(LineageOf(plugin, es, r, at), r)
    ensures Run(AggregationOf(plugin), es).At(r)[at] == Eval(AggregationOf(plugin), LineageOf(plugin, es, r, at))
  {
    hide WellBuilt, Run, AggregationOf, Eval, TableOk;
    SameRows(plugin, es, r);
    RunEvaluatesLineages(AggregationOf(plugin), es);
    LevelsEvaluate(AggregationOf(plugin), Run(Graft(), Traced(es)), r);
    LineagesAreExact(es);
    TableLevel(Run(Graft(), Traced(es)), r);
  }

  lemma BoundsInNumbers()
    ensures TenMinutes(M10) == 1 && TenMinutes(M20) == 2 && TenMinutes(M120) == 12 && TenMinutes(M480) == 48
    ensures ErrorBound(M10) == 0.0 && ErrorBound(M20) == 0.005 && ErrorBound(M120) == 0.01 && ErrorBound(M480) == 0.015
  {
  }

  lemma RowError(plugin: Plugin, l: Row, r: Resolution, g: Gauge)
    requires Carries(plugin, g) && !g.Temperature? && !g.CpuCore? && r != M1 && WellBuilt(l, r)
    ensures |TenMinuteRows(l)| == TenMinutes(r)
    ensures Abs(GaugeOf(plugin, l, g) - Total(plugin, TenMinuteRows(l), g) / (TenMinutes(r) as real)) <= ErrorBound(r)
  {
    hide WellBuilt, Total, Carries, GaugeOf, TenMinuteRows, Abs;
    var v, total := GaugeOf(plugin, l, g), Total(plugin, TenMinuteRows(l), g);
    match r
    case M10 =>
      TenMinuteItself(plugin, l, g);
      MeanError(v, total, 1.0, 0.0);
    case M20 =>
      TwentyMinuteError(plugin, l, g);
      MeanError(v, total, 2.0, 0.005);
    case M120 =>
      TwoHourError(plugin, l, g);
      MeanError(v, total, 12.0, 0.01);
    case M480 =>
      EightHourError(plugin, l, g);
      MeanError(v, total, 48.0, 0.015);
  }

  lemma MeanError(v: real, total: real, n: real, e: real)
    requires n > 0.0 && -(n * e) <= n * v - total <= n * e
    ensures Abs(v - total / n) <= e
  {
    var d := v - total / n;
    assert n * d == n * v - total;
    assert d > e ==> n * (d - e) > 0.0;
    assert d < -e ==> n * (-e - d) > 0.0;
  }

  /** Every stored rolled row, at every level and after every run: its gauges are within the
      level's error of the plain mean of the ten-minute values beneath it. */
  lemma NestedAverageError(plugin: Plugin, es: seq<Event<Payload>>, r: Resolution, at: int, g: Gauge)
    requires Carries(plugin, g) && !g.Temperature? && !g.CpuCore?
    requires r != M1 && at in Run(AggregationOf(plugin), es).At(r)
    ensures
      var ten := TenMinuteRows(LineageOf(plugin, es, r, at));
      var stored := Real(Run(AggregationOf(plugin), es).At(r)[at].stats.gauges, g);
      && |ten| == TenMinutes(r)
      && Abs(stored - Total(plugin, ten, g) / (|ten| as real)) <= ErrorBound(r)
  {
    hide WellBuilt, Total, Carries, Run, AggregationOf, TenMinuteRows, LineageOf, Abs;
    StoredValue(plugin, es, r, at);
    RowError(plugin, LineageOf(plugin, es, r, at), r, g);
  }

  lemma TenMinuteItself(plugin: Plugin, l: Row, g: Gauge)
    requires WellBuilt(l, M10)
    ensures TenMinuteRows(l) == [l] && Total(plugin, [l], g) == GaugeOf(plugin, l, g)
  {
    hide GaugeOf;
    WellBuiltParts(l, 0);
    assert [l][..0] == [];
  }

  // ----- rounding and temperatures -----

  predicate IsWhole(x: real) {
    x.Floor as real == x
  }

  /** What is stored of a rolled gauge is a two-decimal number, of a core's load a whole one. */
  lemma AverageIsOnGrid(items: seq<Stats>, g: Gauge)
    ensures !g.CpuCore? ==> OnGrid(Real(Average(items).gauges, g))
    ensures g.CpuCore? ==> IsWhole(Real(Average(items).gauges, g))
  {
    hide TwoDecimals, OnGrid, Mean, GaugeKeys, Round, Average;
    AveragedGauge(items, g);
    ZeroOnGrid();
    if g in GaugeKeys(items) {
      GridIsFixed(Mean(items, g));
      assert g.CpuCore? ==> Real(Average(items).gauges, g) == Round(Mean(items, g)) as real;
    }
  }

  /** Every stored rolled gauge but a core's load is a two-decimal number. */
  lemma StoredIsOnGrid(plugin: Plugin, es: seq<Event<Payload>>, r: Resolution, at: int, g: Gauge)
    requires Carries(plugin, g) && r != M1 && at in Run(AggregationOf(plugin), es).At(r)
    ensures !g.CpuCore? ==> OnGrid(Real(Run(AggregationOf(plugin), es).At(r)[at].stats.gauges, g))
    ensures g.CpuCore? ==> IsWhole(Real(Run(AggregationOf(plugin), es).At(r)[at].stats.gauges, g))
  {
    hide WellBuilt, Carries, Run, AggregationOf, Average, OnGrid, LineageOf, Real, Sources;
    StoredValue(plugin, es, r, at);
    var l := LineageOf(plugin, es, r, at);
    RolledHasParts(l, r);
    GaugeIsAverage(plugin, l, g);
    AverageIsOnGrid(Sources(plugin, l.parts), g);
  }

  lemma RolledHasParts(l: Row, r: Resolution)
    requires r != M1 && WellBuilt(l, r)
    ensures l.Rolled? && l.parts != []
  {
    WellBuiltParts(l, StepInto(r));
  }

  /** A core's load is within a half of the plain mean of the row's own sources. */
  lemma CoreLoadError(es: seq<Event<Payload>>, r: Resolution, at: int, i: nat)
    requires r != M1 && at in Run(AggregationOf(PluginCpu), es).At(r)
    ensures
      var parts := PartsOf(LineageOf(PluginCpu, es, r, at));
      var stored := Real(Run(AggregationOf(PluginCpu), es).At(r)[at].stats.gauges, CpuCore(i));
      && parts != []
      && Abs(stored - Total(PluginCpu, parts, CpuCore(i)) / (|parts| as real)) <= 0.5
  {
    hide WellBuilt, Carries, Run, AggregationOf, Average, LineageOf, Real, Sources, Total, Sum, Round, Abs;
    StoredValue(PluginCpu, es, r, at);
    var l := LineageOf(PluginCpu, es, r, at);
    RolledHasParts(l, r);
    AveragedGauges(CpuCore(i));
    GaugeIsAverage(PluginCpu, l, CpuCore(i));
    SourcesSum(PluginCpu, l.parts, CpuCore(i));
    CoreAverage(Sources(PluginCpu, l.parts), i);
  }

  lemma CoreAverage(items: seq<Stats>, i: nat)
    requires items != []
    ensures Abs(Real(Average(items).gauges, CpuCore(i)) - Sum(items, CpuCore(i)) / (|items| as real)) <= 0.5
  {
    hide Average, GaugeKeys, Sum, Round, TwoDecimals;
    AveragedGauge(items, CpuCore(i));
    if CpuCore(i) in GaugeKeys(items) {
      RoundIsNearest(Mean(items, CpuCore(i)));
    } else {
      MissingGaugeSumsToZero(items, CpuCore(i));
    }
  }

  /** Whether a row's record holds any temperature. */
  ghost predicate Measured(l: Row) {
    exists sensor :: Temperature(sensor) in Eval(AggregationOf(PluginSensors), l).stats.gauges
  }

  ghost function MeasuredCount(ls: seq<Row>): nat {
    if ls == [] then 0 else MeasuredCount(ls[..|ls| - 1]) + (if Measured(ls[|ls| - 1]) then 1 else 0)
  }

  lemma {:induction false} SourcesTemperatures(parts: seq<Row>)
    ensures TemperatureCount(Sources(PluginSensors, parts)) == MeasuredCount(parts)
  {
    hide Eval, EvalAll, AggregationOf, HasTemperature, Measured;
    if parts != [] {
      var init, last := parts[..|parts| - 1], parts[|parts| - 1];
      var items := Sources(PluginSensors, parts);
      assert items[..|items| - 1] == Sources(PluginSensors, init);
      SourcesTemperatures(init);
      SourceTemperature(last);
      assert items[|items| - 1] == Project(PluginSensors, Eval(AggregationOf(PluginSensors), last).stats);
    }
  }

  lemma SourceTemperature(l: Row)
    ensures HasTemperature(Project(PluginSensors, Eval(AggregationOf(PluginSensors), l).stats)) <==> Measured(l)
  {
    hide Eval, AggregationOf;
    var s := Eval(AggregationOf(PluginSensors), l).stats;
    assert forall sensor ::
        Temperature(sensor) in Project(PluginSensors, s).gauges <==> Temperature(sensor) in s.gauges;
    if Measured(l) {
      var sensor :| Temperature(sensor) in s.gauges;
      assert Temperature(sensor) in Project(PluginSensors, s).gauges;
    }
  }

  /** A stored temperature is within half a hundredth of the mean over those sources that hold
      any temperature at all; without such a source there is none. */
  lemma TemperatureError(es: seq<Event<Payload>>, r: Resolution, at: int, sensor: string)
    requires r != M1 && at in Run(AggregationOf(PluginSensors), es).At(r)
    ensures
      var parts := PartsOf(LineageOf(PluginSensors, es, r, at));
      var stored := Real(Run(AggregationOf(PluginSensors), es).At(r)[at].stats.gauges, Temperature(sensor));
      if MeasuredCount(parts) == 0 then stored == 0.0
      else Abs(stored - Total(PluginSensors, parts, Temperature(sensor)) / (MeasuredCount(parts) as real)) <= 0.005
  {
    hide WellBuilt, Carries, Run, AggregationOf, Average, LineageOf, Real, Sources, Total, Sum, TwoDecimals, Abs,
      MeasuredCount;
    StoredValue(PluginSensors, es, r, at);
    var l := LineageOf(PluginSensors, es, r, at);
    RolledHasParts(l, r);
    AveragedGauges(Temperature(sensor));
    GaugeIsAverage(PluginSensors, l, Temperature(sensor));
    SourcesSum(PluginSensors, l.parts, Temperature(sensor));
    SourcesTemperatures(l.parts);
    TemperatureAverage(Sources(PluginSensors, l.parts), sensor);
  }

  lemma TemperatureAverage(items: seq<Stats>, sensor: string)
    ensures
      var v := Real(Average(items).gauges, Temperature(sensor));
      if TemperatureCount(items) == 0 then v == 0.0
      else Abs(v - Sum(items, Temperature(sensor)) / (TemperatureCount(items) as real)) <= 0.005
  {
    hide Average, GaugeKeys, Sum, TwoDecimals, TemperatureCount;
    var g := Temperature(sensor);
    AveragedGauge(items, g);
    if g in GaugeKeys(items) {
      DivisorIsPositive(items, g);
      RoundingError(Mean(items, g));
    } else {
      MissingGaugeSumsToZero(items, g);
    }
  }

  // ----- peaks -----

  /** The raw payloads beneath a row, in order. */
  function Leaves(l: Row): seq<Payload>
    decreases l, 1
  {
    match l
    case Raw(_, payload) => [payload]
    case Rolled(_, _, parts) => AllLeaves(parts)
  }

  function AllLeaves(ls: seq<Row>): seq<Payload>
    decreases ls, 0
  {
    if ls == [] then [] else Leaves(ls[0]) + AllLeaves(ls[1..])
  }

  /** The ten-minute rows beneath a row, and nothing but them, hold all of its raw payloads. */
  lemma TenMinuteRowsAreAll(l: Row, r: Resolution)
    requires r != M1 && WellBuilt(l, r)
    ensures |TenMinuteRows(l)| == TenMinutes(r)
    ensures forall k :: 0 <= k < |TenMinuteRows(l)| ==> WellBuilt(TenMinuteRows(l)[k], M10)
    ensures AllLeaves(TenMinuteRows(l)) == Leaves(l)
  {
    hide WellBuilt, Leaves, AllLeaves, Expand, FansOut;
    WellBuiltParts(l, StepInto(r));
    LeavesOfParts(l);
    LeavesOfOne(l);
    match r
    case M10 =>
    case M20 =>
    case M120 =>
      FanOutOf(l.parts, 1);
      ExpandKeepsLeaves(l.parts, 1);
    case M480 =>
      FanOutOf(l.parts, 2);
      FanOutOf(Expand(l.parts), 1);
      ExpandKeepsLeaves(l.parts, 2);
      ExpandKeepsLeaves(Expand(l.parts), 1);
  }

  lemma LeavesOfParts(l: Row)
    requires l.Rolled?
    ensures Leaves(l) == AllLeaves(l.parts)
  {
  }

  lemma LeavesOfOne(l: Row)
    ensures AllLeaves([l]) == Leaves(l)
  {
    hide Leaves;
    assert [l][1..] == [];
  }

  lemma {:induction false} AllLeavesOfJoin(a: seq<Row>, b: seq<Row>)
    ensures AllLeaves(a + b) == AllLeaves(a) + AllLeaves(b)
  {
    hide Leaves;
    if a == [] {
      assert a + b == b;
    } else {
      assert (a + b)[1..] == a[1..] + b;
      AllLeavesOfJoin(a[1..], b);
    }
  }

  lemma {:induction false} ExpandKeepsLeaves(ls: seq<Row>, i: nat)
    requires i < |STEPS| && forall k :: 0 <= k < |ls| ==> WellBuilt(ls[k], STEPS[i].longer)
    ensures AllLeaves(Expand(ls)) == AllLeaves(ls)
  {
    hide Leaves, AllLeaves, WellBuilt;
    if ls == [] {
      assert Expand(ls) == ls;
    } else {
      var init, last := ls[..|ls| - 1], ls[|ls| - 1];
      WellBuiltParts(last, i);
      ExpandKeepsLeaves(init, i);
      assert ls == init + [last];
      AllLeavesOfJoin(init, [last]);
      LeavesOfOne(last);
      LeavesOfParts(last);
      assert Expand(ls) == Expand(init) + last.parts;
      AllLeavesOfJoin(Expand(init), last.parts);
    }
  }

  /** The largest raw value or raw peak, starting from zero. */
  function RawHighWater(ps: seq<Payload>, g: Gauge): real {
    if ps == [] then 0.0 else Max(Crest(ps[0].stats, g), RawHighWater(ps[1..], g))
  }

  lemma {:induction false} RawHighWaterOfJoin(a: seq<Payload>, b: seq<Payload>, g: Gauge)
    ensures RawHighWater(a + b, g) == Max(RawHighWater(a, g), RawHighWater(b, g))
    ensures RawHighWater(b, g) >= 0.0
  {
    hide Crest;
    if a == [] {
      assert a + b == b;
      RawHighWaterNonNegative(b, g);
    } else {
      assert (a + b)[1..] == a[1..] + b;
      RawHighWaterOfJoin(a[1..], b, g);
    }
  }

  lemma {:induction false} RawHighWaterNonNegative(b: seq<Payload>, g: Gauge)
    ensures RawHighWater(b, g) >= 0.0
  {
    hide Crest;
    if b != [] {
      RawHighWaterNonNegative(b[1..], g);
    }
  }

  /** Collected values are non-negative and rounded to two decimals. */
  ghost predicate RawOnGrid(ps: seq<Payload>, g: Gauge) {
    forall k :: 0 <= k < |ps| ==>
      Real(ps[k].stats.gauges, g) >= 0.0 && OnGrid(Real(ps[k].stats.gauges, g)) && OnGrid(Real(ps[k].stats.peaks, g))
  }

  /** The largest of a row's value and peak. */
  function CrestOf(plugin: Plugin, l: Row, g: Gauge): real {
    Max(PeakOf(plugin, l, g), GaugeOf(plugin, l, g))
  }

  function CrestOfAll(plugin: Plugin, ls: seq<Row>, g: Gauge): real {
    if ls == [] then 0.0 else Max(CrestOfAll(plugin, ls[..|ls| - 1], g), CrestOf(plugin, ls[|ls| - 1], g))
  }

  lemma {:induction false} SourcesHighWater(plugin: Plugin, parts: seq<Row>, g: Gauge)
    requires Carries(plugin, g)
    ensures HighWater(Sources(plugin, parts), g) == CrestOfAll(plugin, parts, g)
  {
    hide Project, Eval, EvalAll, Carries;
    if parts != [] {
      var items := Sources(plugin, parts);
      assert items[..|items| - 1] == Sources(plugin, parts[..|parts| - 1]);
      SourcesHighWater(plugin, parts[..|parts| - 1], g);
    }
  }

  lemma {:induction false} MissingPeakIsZero(items: seq<Stats>, g: Gauge)
    requires HasPeak(g) && g !in PeakKeys(items)
    ensures HighWater(items, g) == 0.0
  {
    if items != [] {
      MissingPeakIsZero(items[..|items| - 1], g);
    }
  }

  lemma AveragedPeak(items: seq<Stats>, g: Gauge)
    requires HasPeak(g)
    ensures Real(Average(items).peaks, g) == HighWater(items, g)
  {
    hide HighWater, PeakKeys, GaugeKeys, Rounded;
    if g !in PeakKeys(items) {
      MissingPeakIsZero(items, g);
    }
  }

  lemma RolledPeak(plugin: Plugin, l: Row, g: Gauge)
    requires Carries(plugin, g) && HasPeak(g)
    requires l.Rolled? && l.parts != []
    ensures PeakOf(plugin, l, g) == CrestOfAll(plugin, l.parts, g)
  {
    hide Average, HighWater, Carries;
    CarriersAreNumeric(plugin);
    RolledIsAverage(plugin, l);
    SourcesHighWater(plugin, l.parts, g);
    AveragedPeak(Sources(plugin, l.parts), g);
  }

  lemma {:induction false} TotalWithinCrest(plugin: Plugin, ls: seq<Row>, g: Gauge)
    requires forall k :: 0 <= k < |ls| ==> GaugeOf(plugin, ls[k], g) >= 0.0
    ensures 0.0 <= Total(plugin, ls, g) <= (|ls| as real) * CrestOfAll(plugin, ls, g)
    ensures CrestOfAll(plugin, ls, g) >= 0.0
  {
    hide GaugeOf, PeakOf, CrestOf, Total, CrestOfAll;
    if ls == [] {
      NoRows(plugin, g);
      assert CrestOfAll(plugin, [], g) == 0.0 by { NoCrest(plugin, g); }
    }
    if ls != [] {
      var init, last := ls[..|ls| - 1], ls[|ls| - 1];
      assert forall k :: 0 <= k < |init| ==> init[k] == ls[k];
      TotalWithinCrest(plugin, init, g);
      ValueWithinCrest(plugin, last, g);
      UnfoldTotals(plugin, ls, g);
      AddWithinReal(Total(plugin, init, g), |init| as real, CrestOfAll(plugin, init, g), GaugeOf(plugin, last, g),
                    CrestOfAll(plugin, ls, g));
      assert |ls| as real == |init| as real + 1.0;
    }
  }

  lemma NoCrest(plugin: Plugin, g: Gauge)
    ensures CrestOfAll(plugin, [], g) == 0.0
  {
  }

  lemma UnfoldTotals(plugin: Plugin, ls: seq<Row>, g: Gauge)
    requires ls != []
    ensures Total(plugin, ls, g) == Total(plugin, ls[..|ls| - 1], g) + GaugeOf(plugin, ls[|ls| - 1], g)
    ensures CrestOfAll(plugin, ls, g) == Max(CrestOfAll(plugin, ls[..|ls| - 1], g), CrestOf(plugin, ls[|ls| - 1], g))
  {
    hide GaugeOf, CrestOf;
  }

  lemma AddWithinReal(s: real, n: real, bound: real, x: real, bound': real)
    requires n >= 0.0 && 0.0 <= s <= n * bound && bound <= bound' && x <= bound'
    ensures s + x <= (n + 1.0) * bound'
  {
    ScaleUp(n, bound, bound');
    assert (n + 1.0) * bound' == n * bound' + bound';
  }

  lemma ValueWithinCrest(plugin: Plugin, l: Row, g: Gauge)
    ensures GaugeOf(plugin, l, g) <= CrestOf(plugin, l, g)
  {
  }

  lemma ScaleUp(n: real, x: real, y: real)
    requires n >= 0.0 && x <= y
    ensures n * x <= n * y
  {
  }

  /** A rolled value is non-negative and never exceeds its own peak, if that is on the grid. */
  lemma RolledValueWithinPeak(plugin: Plugin, l: Row, g: Gauge)
    requires Carries(plugin, g) && HasPeak(g)
    requires l.Rolled? && l.parts != []
    requires forall k :: 0 <= k < |l.parts| ==> GaugeOf(plugin, l.parts[k], g) >= 0.0
    requires OnGrid(CrestOfAll(plugin, l.parts, g))
    ensures 0.0 <= GaugeOf(plugin, l, g) <= CrestOfAll(plugin, l.parts, g)
  {
    hide Average, Sum, Carries, Total, CrestOfAll, OnGrid, GaugeOf, Sources, Real;
    GaugeIsAverage(plugin, l, g);
    SourcesSum(plugin, l.parts, g);
    TotalWithinCrest(plugin, l.parts, g);
    AverageWithin(Sources(plugin, l.parts), g, CrestOfAll(plugin, l.parts, g));
  }

  lemma AverageWithin(items: seq<Stats>, g: Gauge, bound: real)
    requires items != [] && HasPeak(g) && OnGrid(bound) && bound >= 0.0
    requires 0.0 <= Sum(items, g) <= (|items| as real) * bound
    ensures 0.0 <= Real(Average(items).gauges, g) <= bound
  {
    hide Average, Sum, TwoDecimals, OnGrid, GaugeKeys;
    AveragedGauge(items, g);
    if g in GaugeKeys(items) {
      MeanWithin(Sum(items, g), |items| as real, bound);
      RoundedStaysBelowGrid(Mean(items, g), bound);
      RoundedIsNonNegative(Mean(items, g));
    }
  }

  lemma MeanWithin(s: real, n: real, bound: real)
    requires n > 0.0 && 0.0 <= s <= n * bound
    ensures 0.0 <= s / n <= bound
  {
  }

  /** Peaks at every level: the recorded peak of a rolled row is the largest raw value beneath
      it, and the row's own value never exceeds it. */
  lemma {:induction false} PeaksAreExact(plugin: Plugin, l: Row, r: Resolution, g: Gauge)
    requires Carries(plugin, g) && HasPeak(g)
    requires WellBuilt(l, r) && RawOnGrid(Leaves(l), g)
    ensures GaugeOf(plugin, l, g) >= 0.0
    ensures r != M1 ==> PeakOf(plugin, l, g) == RawHighWater(Leaves(l), g) >= GaugeOf(plugin, l, g)
    ensures Max(0.0, CrestOf(plugin, l, g)) == RawHighWater(Leaves(l), g)
    ensures OnGrid(RawHighWater(Leaves(l), g))
    decreases l, 1
  {
    hide Carries, OnGrid;
    match l
    case Raw(at, payload) =>
      RawPeak(plugin, l, g);
    case Rolled(res, at, parts) =>
      hide Eval, WellBuilt;
      WellBuiltParts(l, StepInto(r));
      assert parts != [];
      AllPeaksAreExact(plugin, parts, STEPS[StepInto(r)].shorter, g);
      RolledPeak(plugin, l, g);
      RolledValueWithinPeak(plugin, l, g);
  }

  lemma RawPeak(plugin: Plugin, l: Row, g: Gauge)
    requires l.Raw? && RawOnGrid(Leaves(l), g)
    ensures GaugeOf(plugin, l, g) >= 0.0
    ensures CrestOf(plugin, l, g) == RawHighWater(Leaves(l), g) && OnGrid(RawHighWater(Leaves(l), g))
  {
    assert Leaves(l) == [l.payload];
    assert Leaves(l)[0] == l.payload;
    assert Leaves(l)[1..] == [];
  }

  lemma {:induction false} AllPeaksAreExact(plugin: Plugin, ls: seq<Row>, r: Resolution, g: Gauge)
    requires Carries(plugin, g) && HasPeak(g)
    requires forall k :: 0 <= k < |ls| ==> WellBuilt(ls[k], r)
    requires RawOnGrid(AllLeaves(ls), g)
    ensures forall k :: 0 <= k < |ls| ==> GaugeOf(plugin, ls[k], g) >= 0.0
    ensures CrestOfAll(plugin, ls, g) == RawHighWater(AllLeaves(ls), g) && OnGrid(RawHighWater(AllLeaves(ls), g))
    decreases ls, 0
  {
    hide Carries, OnGrid, WellBuilt, GaugeOf, PeakOf, Leaves;
    if ls == [] {
      ZeroOnGrid();
    } else {
      RawSplit(Leaves(ls[0]), AllLeaves(ls[1..]), g);
      PeaksAreExact(plugin, ls[0], r, g);
      AllPeaksAreExact(plugin, ls[1..], r, g);
      RawHighWaterOfJoin(Leaves(ls[0]), AllLeaves(ls[1..]), g);
      CrestFromFront(plugin, ls, g);
    }
  }

  lemma ZeroOnGrid()
    ensures OnGrid(0.0)
  {
  }

  lemma RawSplit(a: seq<Payload>, b: seq<Payload>, g: Gauge)
    requires RawOnGrid(a + b, g)
    ensures RawOnGrid(a, g) && RawOnGrid(b, g)
  {
    hide OnGrid, Real;
    forall k | 0 <= k < |a|
      ensures Real(a[k].stats.gauges, g) >= 0.0 && OnGrid(Real(a[k].stats.gauges, g))
      ensures OnGrid(Real(a[k].stats.peaks, g))
    {
      assert a[k] == (a + b)[k];
    }
    forall k | 0 <= k < |b|
      ensures Real(b[k].stats.gauges, g) >= 0.0 && OnGrid(Real(b[k].stats.gauges, g))
      ensures OnGrid(Real(b[k].stats.peaks, g))
    {
      assert b[k] == (a + b)[|a| + k];
    }
  }

  lemma {:induction false} CrestFromFront(plugin: Plugin, ls: seq<Row>, g: Gauge)
    requires ls != []
    ensures CrestOfAll(plugin, ls, g) == Max(Max(0.0, CrestOf(plugin, ls[0], g)), CrestOfAll(plugin, ls[1..], g))
    decreases |ls|
  {
    hide GaugeOf, PeakOf, CrestOf;
    if |ls| == 1 {
      assert ls[..0] == [] && ls[1..] == [];
      assert CrestOfAll(plugin, ls, g) == Max(CrestOfAll(plugin, ls[..0], g), CrestOf(plugin, ls[0], g));
    } else {
      var init := ls[..|ls| - 1];
      CrestFromFront(plugin, init, g);
      assert ls[1..][..|ls[1..]| - 1] == init[1..];
    }
  }

  /** Every stored rolled row, at every level and after every run: its recorded peak is exactly
      the largest value among all raw snapshots beneath it. */
  lemma NestedPeaks(plugin: Plugin, es: seq<Event<Payload>>, r: Resolution, at: int, g: Gauge)
    requires Carries(plugin, g) && HasPeak(g)
    requires r != M1 && at in Run(AggregationOf(plugin), es).At(r)
    requires RawOnGrid(Leaves(LineageOf(plugin, es, r, at)), g)
    ensures
      var raw := Leaves(LineageOf(plugin, es, r, at));
      var stored := Run(AggregationOf(plugin), es).At(r)[at].stats;
      Real(stored.peaks, g) == RawHighWater(raw, g) && 0.0 <= Real(stored.gauges, g) <= RawHighWater(raw, g)
  {
    hide WellBuilt, Carries, Run, AggregationOf, RawOnGrid, Leaves;
    StoredValue(plugin, es, r, at);
    PeaksAreExact(plugin, LineageOf(plugin, es, r, at), r, g);
  }

  // ----- peaks off the grid -----

  /** The largest gauge among the rolled rows strictly beneath a row, starting from zero. */
  function RolledHighWater(plugin: Plugin, l: Row, g: Gauge): real
    decreases l, 1
  {
    match l
    case Raw(_, _) => 0.0
    case Rolled(_, _, parts) => AllRolledHighWater(plugin, parts, g)
  }

  /** The same for the rows themselves and what is beneath them. */
  function AllRolledHighWater(plugin: Plugin, ls: seq<Row>, g: Gauge): real
    decreases ls, 0
  {
    if ls == [] then 0.0
    else
      var own := if ls[0].Rolled? then GaugeOf(plugin, ls[0], g) else 0.0;
      Max(Max(own, RolledHighWater(plugin, ls[0], g)), AllRolledHighWater(plugin, ls[1..], g))
  }

  /** Peaks without any assumption on the values: a rolled row's peak is the largest of the raw
      values and peaks beneath it and of the rounded means in between. */
  lemma {:induction false} PeaksAreHighWater(plugin: Plugin, l: Row, r: Resolution, g: Gauge)
    requires Carries(plugin, g) && HasPeak(g) && WellBuilt(l, r)
    ensures r != M1 ==> PeakOf(plugin, l, g) == Max(RawHighWater(Leaves(l), g), RolledHighWater(plugin, l, g))
    ensures r == M10 ==> RolledHighWater(plugin, l, g) == 0.0
    ensures r == M1 ==> Max(0.0, CrestOf(plugin, l, g)) == RawHighWater(Leaves(l), g)
    ensures RawHighWater(Leaves(l), g) >= 0.0 && RolledHighWater(plugin, l, g) >= 0.0
    decreases l, 1
  {
    hide Carries;
    RawHighWaterNonNegative(Leaves(l), g);
    match l
    case Raw(at, payload) =>
      RawCrest(plugin, l, g);
    case Rolled(res, at, parts) =>
      hide Eval, WellBuilt;
      WellBuiltParts(l, StepInto(r));
      assert parts != [];
      AllPeaksAreHighWater(plugin, parts, STEPS[StepInto(r)].shorter, g);
      RolledPeak(plugin, l, g);
  }

  lemma RawCrest(plugin: Plugin, l: Row, g: Gauge)
    requires l.Raw?
    ensures Max(0.0, CrestOf(plugin, l, g)) == RawHighWater(Leaves(l), g)
  {
    assert Leaves(l) == [l.payload];
    assert Leaves(l)[1..] == [];
  }

  lemma {:induction false} AllPeaksAreHighWater(plugin: Plugin, ls: seq<Row>, r: Resolution, g: Gauge)
    requires Carries(plugin, g) && HasPeak(g)
    requires forall k :: 0 <= k < |ls| ==> WellBuilt(ls[k], r)
    ensures CrestOfAll(plugin, ls, g) == Max(RawHighWater(AllLeaves(ls), g), AllRolledHighWater(plugin, ls, g))
    ensures r == M1 ==> AllRolledHighWater(plugin, ls, g) == 0.0
    ensures AllRolledHighWater(plugin, ls, g) >= 0.0
    decreases ls, 0
  {
    hide Carries, WellBuilt, GaugeOf, PeakOf, Leaves, CrestOfAll;
    if ls == [] {
      NoCrest(plugin, g);
    } else {
      RawOrRolled(ls[0], r);
      PeaksAreHighWater(plugin, ls[0], r, g);
      AllPeaksAreHighWater(plugin, ls[1..], r, g);
      RawHighWaterOfJoin(Leaves(ls[0]), AllLeaves(ls[1..]), g);
      CrestFromFront(plugin, ls, g);
    }
  }

  lemma RawOrRolled(l: Row, r: Resolution)
    requires WellBuilt(l, r)
    ensures l.Raw? <==> r == M1
  {
  }

  /** Every stored rolled row: its peak is the largest raw value beneath it if and only if no
      rounded mean in between exceeds that; a ten-minute row's peak always is. */
  lemma NestedPeaksExactlyWhen(plugin: Plugin, es: seq<Event<Payload>>, r: Resolution, at: int, g: Gauge)
    requires Carries(plugin, g) && HasPeak(g)
    requires r != M1 && at in Run(AggregationOf(plugin), es).At(r)
    ensures
      var l := LineageOf(plugin, es, r, at);
      var peak := Real(Run(AggregationOf(plugin), es).At(r)[at].stats.peaks, g);
      && peak == Max(RawHighWater(Leaves(l), g), RolledHighWater(plugin, l, g))
      && (peak == RawHighWater(Leaves(l), g) <==> RolledHighWater(plugin, l, g) <= RawHighWater(Leaves(l), g))
      && (r == M10 ==> peak == RawHighWater(Leaves(l), g))
  {
    hide WellBuilt, Carries, Run, AggregationOf, Leaves;
    StoredValue(plugin, es, r, at);
    PeaksAreHighWater(plugin, LineageOf(plugin, es, r, at), r, g);
  }

  // ----- plugins that are not averaged -----

  /** The capture times of the raw payloads beneath a row, in the order of Leaves. */
  function CaptureTimes(l: Row): (ts: seq<int>)
    ensures |ts| == |Leaves(l)|
    decreases l, 1
  {
    match l
    case Raw(at, _) => [at]
    case Rolled(_, _, parts) => AllCaptureTimes(parts)
  }

  function AllCaptureTimes(ls: seq<Row>): (ts: seq<int>)
    ensures |ts| == |AllLeaves(ls)|
    decreases ls, 0
  {
    if ls == [] then [] else CaptureTimes(ls[0]) + AllCaptureTimes(ls[1..])
  }

  /** The last entry is greater than all others. */
  predicate EndsHighest(ts: seq<int>) {
    ts != [] && forall k :: 0 <= k < |ts| - 1 ==> ts[k] < ts[|ts| - 1]
  }

  predicate AtMost(ts: seq<int>, bound: int) {
    forall k :: 0 <= k < |ts| ==> ts[k] <= bound
  }

  /** How far the newest raw row beneath a row may lie behind it. */
  function Reach(r: Resolution): int {
    match r
    case M1 => 1
    case M10 => 10 * MINUTE
    case M20 => 20 * MINUTE
    case M120 => 40 * MINUTE
    case M480 => 160 * MINUTE
  }

  /** The last raw row beneath a row is the newest one. */
  lemma {:induction false} LastLeafIsNewest(l: Row, r: Resolution)
    requires WellBuilt(l, r)
    ensures EndsHighest(CaptureTimes(l)) && AtMost(CaptureTimes(l), TimeOf(l))
    ensures CaptureTimes(l)[|CaptureTimes(l)| - 1] > TimeOf(l) - Reach(r)
    decreases l
  {
    match l
    case Raw(_, _) =>
    case Rolled(res, at, parts) =>
      hide WellBuilt, EndsHighest, AtMost, CaptureTimes;
      var i := StepInto(r);
      WellBuiltParts(l, i);
      forall k | 0 <= k < |parts|
        ensures EndsHighest(CaptureTimes(parts[k])) && AtMost(CaptureTimes(parts[k]), TimeOf(parts[k]))
        ensures CaptureTimes(parts[k]) != []
        ensures CaptureTimes(parts[k])[|CaptureTimes(parts[k])| - 1] > TimeOf(parts[k]) - Reach(STEPS[i].shorter)
      {
        LastLeafIsNewest(parts[k], STEPS[i].shorter);
        HighestIsLast(CaptureTimes(parts[k]));
      }
      PartsAreApart(l, i);
      var ts := CaptureTimes(parts[|parts| - 1]);
      var newest := ts[|ts| - 1];
      forall k | 0 <= k < |parts| - 1
        ensures EndsBy(parts[k], newest - 1)
      {
        EarlierEndsBy(parts[k], TimeOf(parts[k]), newest - 1);
      }
      LastIsAtMost(ts, TimeOf(parts[|parts| - 1]));
      LastOfAll(parts, TimeOf(l), newest);
      CaptureTimesOfParts(l);
  }

  lemma LastIsAtMost(ts: seq<int>, bound: int)
    requires ts != [] && AtMost(ts, bound)
    ensures ts[|ts| - 1] <= bound
  {
  }

  lemma HighestIsLast(ts: seq<int>)
    requires EndsHighest(ts)
    ensures ts != []
  {
  }

  lemma CaptureTimesOfParts(l: Row)
    requires l.Rolled?
    ensures CaptureTimes(l) == AllCaptureTimes(l.parts)
  {
  }

  /** A row's sources end within its window, the last one so late that the others end before
      anything newest can lie beneath it. */
  lemma PartsAreApart(l: Row, i: nat)
    requires i < |STEPS| && WellBuilt(l, STEPS[i].longer)
    ensures l.Rolled? && l.parts != []
    ensures forall k :: 0 <= k < |l.parts| ==> TimeOf(l.parts[k]) <= TimeOf(l)
    ensures
      var last := TimeOf(l.parts[|l.parts| - 1]);
      && last - Reach(STEPS[i].shorter) >= TimeOf(l) - Reach(STEPS[i].longer)
      && (forall k :: 0 <= k < |l.parts| - 1 ==> TimeOf(l.parts[k]) <= last - Reach(STEPS[i].shorter))
  {
    hide WellBuilt;
    WellBuiltParts(l, i);
    var ts := Times(l.parts);
    assert forall k :: 0 <= k < |ts| ==> ts[k] == TimeOf(l.parts[k]);
    if i > 0 {
      PartsFillWindow(l, i);
      forall k | 0 <= k < |ts| - 1
        ensures ts[k] <= ts[|ts| - 1] - STEPS[i - 1].window
      {
        assert ts[|ts| - 2 + 1] - ts[|ts| - 2] == STEPS[i - 1].window;
      }
    }
  }

  /** The times of a row lie no later than some bound. */
  ghost predicate EndsBy(l: Row, bound: int) {
    AtMost(CaptureTimes(l), bound)
  }

  predicate EndsAt(ts: seq<int>, newest: int) {
    EndsHighest(ts) && ts[|ts| - 1] == newest
  }

  /** Joining capture times whose last part ends above all earlier parts. */
  lemma {:induction false} LastOfAll(ls: seq<Row>, bound: int, newest: int)
    requires ls != [] && newest <= bound
    requires forall k :: 0 <= k < |ls| - 1 ==> EndsBy(ls[k], newest - 1)
    requires EndsAt(CaptureTimes(ls[|ls| - 1]), newest)
    ensures EndsAt(AllCaptureTimes(ls), newest) && AtMost(AllCaptureTimes(ls), bound)
  {
    hide CaptureTimes, EndsAt, AtMost, EndsBy;
    var first := CaptureTimes(ls[0]);
    if |ls| == 1 {
      assert ls[1..] == [] && AllCaptureTimes(ls) == first + [];
      assert first + [] == first;
      HighestBounds(first, newest, bound);
    } else {
      var rest := ls[1..];
      TailEndsBy(ls, newest - 1);
      assert rest[|rest| - 1] == ls[|ls| - 1];
      LastOfAll(rest, bound, newest);
      JoinedTimes(first, AllCaptureTimes(rest), newest, bound);
    }
  }

  lemma TailEndsBy(ls: seq<Row>, bound: int)
    requires |ls| > 1 && forall k :: 0 <= k < |ls| - 1 ==> EndsBy(ls[k], bound)
    ensures AtMost(CaptureTimes(ls[0]), bound)
    ensures forall k :: 0 <= k < |ls[1..]| - 1 ==> EndsBy(ls[1..][k], bound)
  {
    hide CaptureTimes, AtMost;
    assert EndsBy(ls[0], bound);
    forall k | 0 <= k < |ls[1..]| - 1
      ensures EndsBy(ls[1..][k], bound)
    {
      assert ls[1..][k] == ls[k + 1];
    }
  }

  lemma HighestBounds(ts: seq<int>, newest: int, bound: int)
    requires EndsAt(ts, newest) && newest <= bound
    ensures AtMost(ts, bound)
  {
  }

  lemma JoinedTimes(a: seq<int>, b: seq<int>, newest: int, bound: int)
    requires EndsAt(b, newest) && newest <= bound && AtMost(a, newest - 1) && AtMost(b, bound)
    ensures EndsAt(a + b, newest) && AtMost(a + b, bound)
  {
  }

  lemma EarlierEndsBy(l: Row, bound: int, bound': int)
    requires EndsBy(l, bound) && bound <= bound'
    ensures EndsBy(l, bound')
  {
  }

  /** A document plugin's rolled row is the last raw document beneath it. */
  lemma {:induction false} DocumentIsLastLeaf(plugin: Plugin, l: Row, r: Resolution)
    requires !IsNumeric(plugin) && WellBuilt(l, r)
    ensures Leaves(l) != [] && Eval(AggregationOf(plugin), l) == Leaves(l)[|Leaves(l)| - 1]
    decreases l
  {
    hide WellBuilt, IsNumeric, Eval, Leaves, AggregationOf;
    RawOrRolled(l, r);
    if l.Raw? {
      RawIsItsLeaf(plugin, l);
    } else {
      WellBuiltParts(l, StepInto(r));
      DocumentIsLastPart(plugin, l);
      DocumentIsLastLeaf(plugin, l.parts[|l.parts| - 1], STEPS[StepInto(r)].shorter);
      LeavesOfParts(l);
      LeavesEndWith(l.parts);
    }
  }

  lemma DocumentIsLastPart(plugin: Plugin, l: Row)
    requires !IsNumeric(plugin) && l.Rolled? && l.parts != []
    ensures Eval(AggregationOf(plugin), l) == Eval(AggregationOf(plugin), l.parts[|l.parts| - 1])
  {
    hide IsNumeric;
    var items := EvalAll(AggregationOf(plugin), l.parts);
    assert Eval(AggregationOf(plugin), l) == Aggregate(plugin, items);
  }

  /** Every stored row of a document plugin: it is the one document beneath it that was captured
      last. */
  lemma NewestDocument(plugin: Plugin, es: seq<Event<Payload>>, r: Resolution, at: int)
    requires plugin in {PluginSystemd, PluginProcesses, PluginPrograms, PluginConnections, PluginIrq, PluginSmart}
    requires at in Run(AggregationOf(plugin), es).At(r)
    ensures
      var l := LineageOf(plugin, es, r, at);
      var leaves, times := Leaves(l), CaptureTimes(l);
      && leaves != []
      && Run(AggregationOf(plugin), es).At(r)[at] == leaves[|leaves| - 1]
      && forall k :: 0 <= k < |leaves| - 1 ==> times[k] < times[|leaves| - 1]
  {
    hide WellBuilt, Run, AggregationOf, Leaves, Eval;
    StoredValue(plugin, es, r, at);
    var l := LineageOf(plugin, es, r, at);
    DocumentIsLastLeaf(plugin, l, r);
    LastLeafIsNewest(l, r);
  }

  /** A load row's charge state is that of the last raw row beneath it. */
  lemma {:induction false} ChargeIsLastLeaf(l: Row, r: Resolution)
    requires WellBuilt(l, r)
    ensures Leaves(l) != []
    ensures Eval(AggregationOf(PluginLoad), l).stats.charge == Leaves(l)[|Leaves(l)| - 1].stats.charge
    decreases l
  {
    hide WellBuilt, Eval, Leaves, AggregationOf;
    RawOrRolled(l, r);
    if l.Raw? {
      RawIsItsLeaf(PluginLoad, l);
    } else {
      WellBuiltParts(l, StepInto(r));
      ChargeIsLastPart(l);
      ChargeIsLastLeaf(l.parts[|l.parts| - 1], STEPS[StepInto(r)].shorter);
      LeavesOfParts(l);
      LeavesEndWith(l.parts);
    }
  }

  lemma RawIsItsLeaf(plugin: Plugin, l: Row)
    requires l.Raw?
    ensures Leaves(l) == [Eval(AggregationOf(plugin), l)]
  {
  }

  lemma ChargeIsLastPart(l: Row)
    requires l.Rolled? && l.parts != []
    ensures Eval(AggregationOf(PluginLoad), l).stats.charge
         == Eval(AggregationOf(PluginLoad), l.parts[|l.parts| - 1]).stats.charge
  {
    hide Eval, GaugeKeys, PeakKeys, CounterKeys, CounterPeakKeys;
    RolledIsAverage(PluginLoad, l);
    ExtractsWhatItFills(PluginLoad);
  }

  /** Every stored row of the load plugin has the charge state that was captured last. */
  lemma NewestCharge(es: seq<Event<Payload>>, r: Resolution, at: int)
    ensures
      at in Run(AggregationOf(PluginLoad), es).At(r) ==>
        var l := LineageOf(PluginLoad, es, r, at);
        var leaves, times := Leaves(l), CaptureTimes(l);
        && leaves != []
        && Run(AggregationOf(PluginLoad), es).At(r)[at].stats.charge == leaves[|leaves| - 1].stats.charge
        && forall k :: 0 <= k < |leaves| - 1 ==> times[k] < times[|leaves| - 1]
  {
    hide WellBuilt, Run, AggregationOf, Leaves, Eval;
    if at in Run(AggregationOf(PluginLoad), es).At(r) {
      StoredValue(PluginLoad, es, r, at);
      var l := LineageOf(PluginLoad, es, r, at);
      ChargeIsLastLeaf(l, r);
      LastLeafIsNewest(l, r);
    }
  }

  lemma {:induction false} LeavesEndWith(ls: seq<Row>)
    requires ls != [] && Leaves(ls[|ls| - 1]) != []
    ensures AllLeaves(ls) != []
    ensures
      var last := Leaves(ls[|ls| - 1]);
      AllLeaves(ls)[|AllLeaves(ls)| - 1] == last[|last| - 1]
  {
    hide Leaves;
    if |ls| == 1 {
      assert ls[1..] == [];
      assert AllLeaves(ls) == Leaves(ls[0]) + AllLeaves(ls[1..]);
    } else {
      LeavesEndWith(ls[1..]);
    }
  }
}
