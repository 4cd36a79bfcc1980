/** What one rolled-up payload says about the payloads it replaces. A payload is decoded into
    named measurements; a measurement that a record does not carry counts as zero, which is
    also how an omitted field decodes. */
module Averages {
  import opened Basics
  import opened Rounding

  datatype Plugin =
    | PluginCpu | PluginMem | PluginSwap | PluginLoad | PluginDiskIO | PluginFs | PluginNetwork | PluginGpu
    | PluginSensors | PluginContainers | PluginSystemd | PluginProcesses | PluginPrograms
    | PluginConnections | PluginIrq | PluginSmart

  datatype FsField = FsTotal | FsUsed | FsReadPs | FsWritePs | FsIoStat(i: nat)

  datatype GpuField = GpuMemUsed | GpuMemTotal | GpuUsage | GpuPower | GpuEngine(engine: string)

  /** Measurements averaged as rounded numbers. */
  datatype Gauge =
    | Cpu | CpuBreakdown(i: nat) | CpuCore(i: nat)
    | Mem | MemUsed | MemPct | MemBuffCache | MemZfsArc | MemAvailable | MemCached | MemBuffers
    | Swap | SwapUsed | SwapPct
    | LoadAvg(i: nat)
    | DiskTotal | DiskUsed | DiskPct | DiskReadPs | DiskWritePs | DiskIoStat(i: nat)
    | Filesystem(name: string, field: FsField)
    | Gpu(id: string, gpuField: GpuField)
    | Temperature(sensor: string)
    | ContainerCpu(name: string) | ContainerMem(name: string)

  /** Measurements averaged as integers, and the byte totals of an interface, of which only the
      largest value is kept, among the peaks. */
  datatype Counter =
    | DiskIO(i: nat)
    | FsReadBytes(name: string) | FsWriteBytes(name: string)
    | Bandwidth(i: nat)
    | NicRate(nic: string, i: nat)
    | ContainerBandwidth(name: string, i: nat)
    | NicTotal(nic: string, i: nat)
    | BatteryLevel

  datatype Stats = Stats(
    gauges: map<Gauge, real>,
    peaks: map<Gauge, real>,
    counters: map<Counter, nat>,
    counterPeaks: map<Counter, nat>,
    charge: nat)

  const NoStats := Stats(map[], map[], map[], map[], 0)

  /** `stats` holds the numbers of a numeric plugin, `document` anything else. */
  datatype Payload = Payload(stats: Stats, document: string)

  function Real(m: map<Gauge, real>, g: Gauge): real {
    if g in m then m[g] else 0.0
  }

  function Count(m: map<Counter, nat>, c: Counter): nat {
    if c in m then m[c] else 0
  }

  /** The gauges that have a field for their largest value. */
  predicate HasPeak(g: Gauge) {
    match g
    case Cpu => true
    case MemUsed => true
    case DiskReadPs => true
    case DiskWritePs => true
    case DiskIoStat(_) => true
    case Filesystem(_, field) => field.FsReadPs? || field.FsWritePs? || field.FsIoStat?
    case _ => false
  }

  predicate HasCounterPeak(c: Counter) {
    c.DiskIO? || c.FsReadBytes? || c.FsWriteBytes? || c.Bandwidth? || c.NicTotal?
  }

  // ----- one average -----

  function GaugeKeys(items: seq<Stats>): set<Gauge> {
    if items == [] then {}
    else GaugeKeys(items[..|items| - 1]) + items[|items| - 1].gauges.Keys
  }

  function PeakKeys(items: seq<Stats>): set<Gauge> {
    if items == [] then {}
    else PeakKeys(items[..|items| - 1]) + PeaksFrom(items[|items| - 1])
  }

  function PeaksFrom(item: Stats): set<Gauge> {
    set g | g in item.gauges.Keys + item.peaks.Keys && HasPeak(g)
  }

  function CounterKeys(items: seq<Stats>): set<Counter> {
    if items == [] then {}
    else CounterKeys(items[..|items| - 1]) + items[|items| - 1].counters.Keys
  }

  function CounterPeakKeys(items: seq<Stats>): set<Counter> {
    if items == [] then {}
    else CounterPeakKeys(items[..|items| - 1]) + CounterPeaksFrom(items[|items| - 1])
  }

  function CounterPeaksFrom(item: Stats): set<Counter> {
    set c | c in item.counters.Keys + item.counterPeaks.Keys && HasCounterPeak(c)
  }

  function Sum(items: seq<Stats>, g: Gauge): real {
    if items == [] then 0.0
    else Sum(items[..|items| - 1], g) + Real(items[|items| - 1].gauges, g)
  }

  function CounterSum(items: seq<Stats>, c: Counter): nat {
    if items == [] then 0
    else CounterSum(items[..|items| - 1], c) + Count(items[|items| - 1].counters, c)
  }

  /** The largest value or recorded peak, starting from zero. */
  function HighWater(items: seq<Stats>, g: Gauge): real {
    if items == [] then 0.0
    else Max(HighWater(items[..|items| - 1], g), Crest(items[|items| - 1], g))
  }

  function Crest(item: Stats, g: Gauge): real {
    Max(Real(item.peaks, g), Real(item.gauges, g))
  }

  function CounterHighWater(items: seq<Stats>, c: Counter): nat {
    if items == [] then 0
    else MaxNat(CounterHighWater(items[..|items| - 1], c), CounterCrest(items[|items| - 1], c))
  }

  function CounterCrest(item: Stats, c: Counter): nat {
    MaxNat(Count(item.counterPeaks, c), Count(item.counters, c))
  }

  function MaxNat(x: nat, y: nat): nat {
    if x < y then y else x
  }

  predicate HasTemperature(item: Stats) {
    exists g :: g in item.gauges && g.Temperature?
  }

  function TemperatureCount(items: seq<Stats>): nat {
    if items == [] then 0
    else TemperatureCount(items[..|items| - 1]) + (if HasTemperature(items[|items| - 1]) then 1 else 0)
  }

  /** Temperatures are averaged over the records that have any. */
  function Divisor(items: seq<Stats>, g: Gauge): nat {
    if g.Temperature? then TemperatureCount(items) else |items|
  }

  lemma {:induction false} DivisorIsPositive(items: seq<Stats>, g: Gauge)
    requires g in GaugeKeys(items)
    ensures Divisor(items, g) > 0
  {
    var last := items[|items| - 1];
    if g in last.gauges {
      assert g.Temperature? ==> HasTemperature(last);
    } else {
      DivisorIsPositive(items[..|items| - 1], g);
    }
  }

  /** Gauges keep two decimals, except the load of a core, which is a whole number. */
  function Rounded(g: Gauge, x: real): real {
    if g.CpuCore? then Round(x) as real else TwoDecimals(x)
  }

  function Mean(items: seq<Stats>, g: Gauge): real
    requires g in GaugeKeys(items)
  {
    DivisorIsPositive(items, g);
    Sum(items, g) / (Divisor(items, g) as real)
  }

  function Average(items: seq<Stats>): Stats {
    Stats(
      map g | g in GaugeKeys(items) :: Rounded(g, Mean(items, g)),
      map g | g in PeakKeys(items) :: HighWater(items, g),
      map c | c in CounterKeys(items) :: CounterSum(items, c) % U64 / |items|,
      map c | c in CounterPeakKeys(items) :: CounterHighWater(items, c),
      Charge(items))
  }

  /** The battery's charge state is the last record's. */
  function Charge(items: seq<Stats>): nat {
    if items == [] then 0 else items[|items| - 1].charge
  }

  // ----- the averaging loop -----

  ghost predicate SumsOf(sums: map<Gauge, real>, items: seq<Stats>) {
    sums.Keys == GaugeKeys(items) && forall g :: Real(sums, g) == Sum(items, g)
  }

  ghost predicate PeaksOf(peaks: map<Gauge, real>, items: seq<Stats>) {
    peaks.Keys == PeakKeys(items) && forall g :: HasPeak(g) ==> Real(peaks, g) == HighWater(items, g)
  }

  ghost predicate CounterSumsOf(sums: map<Counter, nat>, items: seq<Stats>) {
    sums.Keys == CounterKeys(items) && forall c :: Count(sums, c) == CounterSum(items, c) % U64
  }

  ghost predicate CounterPeaksOf(peaks: map<Counter, nat>, items: seq<Stats>) {
    peaks.Keys == CounterPeakKeys(items) &&
    forall c :: HasCounterPeak(c) ==> Count(peaks, c) == CounterHighWater(items, c)
  }

  method AddGauges(sums: map<Gauge, real>, item: Stats, ghost items: seq<Stats>) returns (r: map<Gauge, real>)
    requires SumsOf(sums, items)
    ensures SumsOf(r, items + [item])
  {
    r := map g | g in sums.Keys + item.gauges.Keys :: Real(sums, g) + Real(item.gauges, g);
    assert (items + [item])[..|items|] == items;
  }

  method RaisePeaks(peaks: map<Gauge, real>, item: Stats, ghost items: seq<Stats>) returns (r: map<Gauge, real>)
    requires PeaksOf(peaks, items)
    ensures PeaksOf(r, items + [item])
  {
    r := map g | g in peaks.Keys + PeaksFrom(item) :: Max(Real(peaks, g), Crest(item, g));
    assert (items + [item])[..|items|] == items;
    PeaksAreNonNegative(items);
  }

  lemma {:induction false} PeaksAreNonNegative(items: seq<Stats>)
    ensures forall g :: HighWater(items, g) >= 0.0
  {
    if items != [] {
      PeaksAreNonNegative(items[..|items| - 1]);
    }
  }

  method AddCounters(sums: map<Counter, nat>, item: Stats, ghost items: seq<Stats>) returns (r: map<Counter, nat>)
    requires CounterSumsOf(sums, items)
    ensures CounterSumsOf(r, items + [item])
  {
    r := map c | c in sums.Keys + item.counters.Keys :: (Count(sums, c) + Count(item.counters, c)) % U64;
    assert (items + [item])[..|items|] == items;
    forall c
      ensures Count(r, c) == CounterSum(items + [item], c) % U64
    {
      WrappedSum(CounterSum(items, c), Count(item.counters, c));
      assert CounterSum(items + [item], c) == CounterSum(items, c) + Count(item.counters, c);
    }
  }

  /** Wrapping at every addition is wrapping once at the end. */
  lemma WrappedSum(x: nat, y: nat)
    ensures (x % U64 + y) % U64 == (x + y) % U64
    ensures x % U64 < U64
  {
  }

  method RaiseCounterPeaks(peaks: map<Counter, nat>, item: Stats, ghost items: seq<Stats>)
    returns (r: map<Counter, nat>)
    requires CounterPeaksOf(peaks, items)
    ensures CounterPeaksOf(r, items + [item])
  {
    r := map c | c in peaks.Keys + CounterPeaksFrom(item) :: MaxNat(Count(peaks, c), CounterCrest(item, c));
    assert (items + [item])[..|items|] == items;
  }

  lemma NothingAdded()
    ensures SumsOf(map[], []) && PeaksOf(map[], []) && CounterSumsOf(map[], []) && CounterPeaksOf(map[], [])
  {
  }

  method AverageSystemStats(items: seq<Stats>) returns (r: Stats)
    ensures r == Average(items)
  {
    hide SumsOf, PeaksOf, CounterSumsOf, CounterPeaksOf, HasTemperature;
    var sums, peaks, counterSums, counterPeaks := map[], map[], map[], map[];
    var temperatureCount, charge := 0, 0;
    NothingAdded();
    for k := 0 to |items|
      invariant SumsOf(sums, items[..k])
      invariant PeaksOf(peaks, items[..k])
      invariant CounterSumsOf(counterSums, items[..k])
      invariant CounterPeaksOf(counterPeaks, items[..k])
      invariant temperatureCount == TemperatureCount(items[..k])
      invariant charge == Charge(items[..k])
    {
      sums := AddGauges(sums, items[k], items[..k]);
      peaks := RaisePeaks(peaks, items[k], items[..k]);
      counterSums := AddCounters(counterSums, items[k], items[..k]);
      counterPeaks := RaiseCounterPeaks(counterPeaks, items[k], items[..k]);
      charge := items[k].charge;
      if HasTemperature(items[k]) {
        temperatureCount := temperatureCount + 1;
      }
      assert items[..k + 1] == items[..k] + [items[k]];
      assert items[..k + 1][..k] == items[..k];
    }
    assert items[..|items|] == items;
    var gauges := MeanGauges(items, sums, temperatureCount);
    var counters := MeanCounters(items, counterSums);
    PeaksAreAverages(items, peaks, counterPeaks);
    r := Stats(gauges, peaks, counters, counterPeaks, charge);
  }

  method MeanGauges(items: seq<Stats>, sums: map<Gauge, real>, temperatureCount: nat) returns (r: map<Gauge, real>)
    requires SumsOf(sums, items) && temperatureCount == TemperatureCount(items)
    ensures r == Average(items).gauges
  {
    forall g | g in sums
      ensures (if g.Temperature? then temperatureCount else |items|) == Divisor(items, g) > 0
      ensures sums[g] == Sum(items, g)
    {
      DivisorIsPositive(items, g);
      assert Real(sums, g) == Sum(items, g);
    }
    r := map g | g in sums ::
      Rounded(g, sums[g] / ((if g.Temperature? then temperatureCount else |items|) as real));
  }

  method MeanCounters(items: seq<Stats>, sums: map<Counter, nat>) returns (r: map<Counter, nat>)
    requires CounterSumsOf(sums, items)
    ensures r == Average(items).counters
  {
    hide CounterSum, Rounded, GaugeKeys;
    assert forall c :: c in sums ==> sums[c] == Count(sums, c);
    assert sums != map[] ==> |items| > 0;
    r := map c | c in sums :: sums[c] / |items|;
  }

  lemma PeaksAreAverages(items: seq<Stats>, peaks: map<Gauge, real>, counterPeaks: map<Counter, nat>)
    requires PeaksOf(peaks, items) && CounterPeaksOf(counterPeaks, items)
    ensures peaks == Average(items).peaks
    ensures counterPeaks == Average(items).counterPeaks
  {
    hide HighWater, CounterHighWater, Rounded, GaugeKeys;
    PeakKeysHavePeaks(items);
    assert forall g :: g in peaks ==> peaks[g] == Real(peaks, g);
    assert forall c :: c in counterPeaks ==> counterPeaks[c] == Count(counterPeaks, c);
  }

  lemma {:induction false} PeakKeysHavePeaks(items: seq<Stats>)
    ensures forall g :: g in PeakKeys(items) ==> HasPeak(g)
    ensures forall c :: c in CounterPeakKeys(items) ==> HasCounterPeak(c)
  {
    if items != [] {
      PeakKeysHavePeaks(items[..|items| - 1]);
    }
  }
}
