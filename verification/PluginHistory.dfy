/** How each plugin aggregates its history payloads. */
module PluginHistory {
  import opened Basics
  import opened Averages
  import opened History

  const PLUGIN_NAMES: seq<Plugin> := [
    PluginCpu, PluginMem, PluginSwap, PluginLoad, PluginDiskIO, PluginFs, PluginNetwork, PluginGpu,
    PluginSensors, PluginContainers, PluginSystemd, PluginProcesses, PluginPrograms,
    PluginConnections, PluginIrq, PluginSmart]

  /** A plugin's place in the canonical order. */
  function Rank(plugin: Plugin): (r: nat)
    ensures r < |PLUGIN_NAMES| && PLUGIN_NAMES[r] == plugin
  {
    match plugin
    case PluginCpu => 0
    case PluginMem => 1
    case PluginSwap => 2
    case PluginLoad => 3
    case PluginDiskIO => 4
    case PluginFs => 5
    case PluginNetwork => 6
    case PluginGpu => 7
    case PluginSensors => 8
    case PluginContainers => 9
    case PluginSystemd => 10
    case PluginProcesses => 11
    case PluginPrograms => 12
    case PluginConnections => 13
    case PluginIrq => 14
    case PluginSmart => 15
  }

  lemma NamesAreRanked()
    ensures forall i :: 0 <= i < |PLUGIN_NAMES| ==> Rank(PLUGIN_NAMES[i]) == i
  {
    forall i | 0 <= i < |PLUGIN_NAMES|
      ensures Rank(PLUGIN_NAMES[i]) == i
    {
      assert i in {0, 1, 2, 3, 4, 5, 6, 7, 8, 9, 10, 11, 12, 13, 14, 15};
    }
  }

  /** The fields of the statistics record that all averaged plugins share; containers have a
      record of their own. */
  datatype StatsField =
    | FieldCpu | FieldMaxCpu | FieldCpuBreakdown | FieldCpuCoresUsage
    | FieldMem | FieldMaxMem | FieldMemUsed | FieldMemPct | FieldMemBuffCache | FieldMemZfsArc
    | FieldMemAvailable | FieldMemCached | FieldMemBuffers | FieldSwap | FieldSwapUsed | FieldSwapPct
    | FieldLoadAvg | FieldBattery
    | FieldDiskTotal | FieldDiskUsed | FieldDiskPct | FieldDiskReadPs | FieldDiskWritePs | FieldMaxDiskReadPs
    | FieldMaxDiskWritePs | FieldDiskIO | FieldMaxDiskIO | FieldDiskIoStats | FieldMaxDiskIoStats
    | FieldExtraFs | FieldBandwidth | FieldMaxBandwidth | FieldNetworkInterfaces | FieldGpuData
    | FieldTemperatures | FieldContainers

  /** The fields that a plugin's stored payload fills before averaging. */
  function Filled(plugin: Plugin): set<StatsField> {
    match plugin
    case PluginCpu => {FieldCpu, FieldMaxCpu, FieldCpuBreakdown, FieldCpuCoresUsage}
    case PluginMem => {FieldMem, FieldMaxMem, FieldMemUsed, FieldMemPct, FieldMemBuffCache, FieldMemZfsArc, FieldSwap,
                       FieldSwapUsed, FieldSwapPct, FieldMemAvailable, FieldMemCached, FieldMemBuffers}
    case PluginSwap => {FieldSwap, FieldSwapUsed}
    case PluginLoad => {FieldLoadAvg, FieldBattery}
    case PluginDiskIO => {FieldDiskTotal, FieldDiskUsed, FieldDiskPct, FieldDiskReadPs, FieldDiskWritePs,
                          FieldMaxDiskReadPs, FieldMaxDiskWritePs, FieldDiskIO, FieldMaxDiskIO, FieldDiskIoStats,
                          FieldMaxDiskIoStats}
    case PluginFs => {FieldExtraFs}
    case PluginNetwork => {FieldBandwidth, FieldMaxBandwidth, FieldNetworkInterfaces}
    case PluginGpu => {FieldGpuData}
    case PluginSensors => {FieldTemperatures}
    case PluginContainers => {FieldContainers}
    case _ => {}
  }

  /** The fields that a plugin's payload takes from the averaged record. */
  function Extracted(plugin: Plugin): set<StatsField> {
    match plugin
    case PluginCpu => {FieldCpu, FieldMaxCpu, FieldCpuBreakdown, FieldCpuCoresUsage}
    case PluginMem => {FieldMem, FieldMaxMem, FieldMemUsed, FieldMemPct, FieldMemBuffCache, FieldMemZfsArc, FieldSwap,
                       FieldSwapUsed, FieldSwapPct, FieldMemAvailable, FieldMemCached, FieldMemBuffers}
    case PluginSwap => {FieldSwap, FieldSwapUsed}
    case PluginLoad => {FieldLoadAvg, FieldBattery}
    case PluginDiskIO => {FieldDiskTotal, FieldDiskUsed, FieldDiskPct, FieldDiskReadPs, FieldDiskWritePs,
                          FieldMaxDiskReadPs, FieldMaxDiskWritePs, FieldDiskIO, FieldMaxDiskIO, FieldDiskIoStats,
                          FieldMaxDiskIoStats}
    case PluginFs => {FieldExtraFs}
    case PluginNetwork => {FieldBandwidth, FieldMaxBandwidth, FieldNetworkInterfaces}
    case PluginGpu => {FieldGpuData}
    case PluginSensors => {FieldTemperatures}
    case PluginContainers => {FieldContainers}
    case _ => {}
  }

  function FieldOf(g: Gauge): StatsField {
    match g
    case Cpu => FieldCpu
    case CpuBreakdown(_) => FieldCpuBreakdown
    case CpuCore(_) => FieldCpuCoresUsage
    case Mem => FieldMem
    case MemUsed => FieldMemUsed
    case MemPct => FieldMemPct
    case MemBuffCache => FieldMemBuffCache
    case MemZfsArc => FieldMemZfsArc
    case MemAvailable => FieldMemAvailable
    case MemCached => FieldMemCached
    case MemBuffers => FieldMemBuffers
    case Swap => FieldSwap
    case SwapUsed => FieldSwapUsed
    case SwapPct => FieldSwapPct
    case LoadAvg(_) => FieldLoadAvg
    case DiskTotal => FieldDiskTotal
    case DiskUsed => FieldDiskUsed
    case DiskPct => FieldDiskPct
    case DiskReadPs => FieldDiskReadPs
    case DiskWritePs => FieldDiskWritePs
    case DiskIoStat(_) => FieldDiskIoStats
    case Filesystem(_, _) => FieldExtraFs
    case Gpu(_, _) => FieldGpuData
    case Temperature(_) => FieldTemperatures
    case ContainerCpu(_) => FieldContainers
    case ContainerMem(_) => FieldContainers
  }

  /** Where a gauge's largest value is kept, if not beside the gauge itself. */
  function PeakFieldOf(g: Gauge): StatsField {
    match g
    case Cpu => FieldMaxCpu
    case MemUsed => FieldMaxMem
    case DiskReadPs => FieldMaxDiskReadPs
    case DiskWritePs => FieldMaxDiskWritePs
    case DiskIoStat(_) => FieldMaxDiskIoStats
    case _ => FieldOf(g)
  }

  function CounterFieldOf(c: Counter): StatsField {
    match c
    case DiskIO(_) => FieldDiskIO
    case FsReadBytes(_) => FieldExtraFs
    case FsWriteBytes(_) => FieldExtraFs
    case Bandwidth(_) => FieldBandwidth
    case NicRate(_, _) => FieldNetworkInterfaces
    case ContainerBandwidth(_, _) => FieldContainers
    case NicTotal(_, _) => FieldNetworkInterfaces
    case BatteryLevel => FieldBattery
  }

  function CounterPeakFieldOf(c: Counter): StatsField {
    match c
    case DiskIO(_) => FieldMaxDiskIO
    case Bandwidth(_) => FieldMaxBandwidth
    case _ => CounterFieldOf(c)
  }

  /** The gauges a plugin's payload type has fields for. */
  predicate Carries(plugin: Plugin, g: Gauge) {
    FieldOf(g) in Filled(plugin)
  }

  predicate CarriesCounter(plugin: Plugin, c: Counter) {
    CounterFieldOf(c) in Filled(plugin)
  }

  /** Plugins whose history is averaged; the others keep their last record. */
  predicate IsNumeric(plugin: Plugin) {
    match plugin
    case PluginSystemd => false
    case PluginProcesses => false
    case PluginPrograms => false
    case PluginConnections => false
    case PluginIrq => false
    case PluginSmart => false
    case _ => true
  }

  lemma CarriersAreNumeric(plugin: Plugin)
    ensures forall g :: Carries(plugin, g) ==> IsNumeric(plugin)
    ensures forall c :: CarriesCounter(plugin, c) ==> IsNumeric(plugin)
  {
  }

  lemma CpuGauges(g: Gauge)
    ensures Carries(PluginCpu, g) <==> g.Cpu? || g.CpuBreakdown? || g.CpuCore?
  {
  }

  lemma MemGauges(g: Gauge)
    ensures Carries(PluginMem, g) <==>
              || g.Mem? || g.MemUsed? || g.MemPct? || g.MemBuffCache? || g.MemZfsArc? || g.MemAvailable?
              || g.MemCached? || g.MemBuffers? || g.Swap? || g.SwapUsed? || g.SwapPct?
  {
  }

  lemma SwapGauges(g: Gauge)
    ensures Carries(PluginSwap, g) <==> g.Swap? || g.SwapUsed?
  {
  }

  lemma LoadGauges(g: Gauge)
    ensures Carries(PluginLoad, g) <==> g.LoadAvg?
  {
  }

  lemma DiskIOGauges(g: Gauge)
    ensures Carries(PluginDiskIO, g) <==>
              g.DiskTotal? || g.DiskUsed? || g.DiskPct? || g.DiskReadPs? || g.DiskWritePs? || g.DiskIoStat?
  {
  }

  lemma FsGauges(g: Gauge)
    ensures Carries(PluginFs, g) <==> g.Filesystem?
  {
  }

  lemma GpuGauges(g: Gauge)
    ensures Carries(PluginGpu, g) <==> g.Gpu?
  {
  }

  lemma SensorsGauges(g: Gauge)
    ensures Carries(PluginSensors, g) <==> g.Temperature?
  {
  }

  lemma ContainersGauges(g: Gauge)
    ensures Carries(PluginContainers, g) <==> g.ContainerCpu? || g.ContainerMem?
  {
  }

  lemma NetworkGauges(g: Gauge)
    ensures !Carries(PluginNetwork, g)
  {
  }

  /** The gauges that each plugin's rolled rows average, and no others. */
  lemma AveragedGauges(g: Gauge)
    ensures Carries(PluginCpu, g) <==> g.Cpu? || g.CpuBreakdown? || g.CpuCore?
    ensures Carries(PluginMem, g) <==>
              || g.Mem? || g.MemUsed? || g.MemPct? || g.MemBuffCache? || g.MemZfsArc? || g.MemAvailable?
              || g.MemCached? || g.MemBuffers? || g.Swap? || g.SwapUsed? || g.SwapPct?
    ensures Carries(PluginSwap, g) <==> g.Swap? || g.SwapUsed?
    ensures Carries(PluginLoad, g) <==> g.LoadAvg?
    ensures Carries(PluginDiskIO, g) <==>
              g.DiskTotal? || g.DiskUsed? || g.DiskPct? || g.DiskReadPs? || g.DiskWritePs? || g.DiskIoStat?
    ensures Carries(PluginFs, g) <==> g.Filesystem?
    ensures Carries(PluginGpu, g) <==> g.Gpu?
    ensures Carries(PluginSensors, g) <==> g.Temperature?
    ensures Carries(PluginContainers, g) <==> g.ContainerCpu? || g.ContainerMem?
    ensures !Carries(PluginNetwork, g)
  {
    hide Carries;
    CpuGauges(g);
    MemGauges(g);
    SwapGauges(g);
    LoadGauges(g);
    DiskIOGauges(g);
    FsGauges(g);
    GpuGauges(g);
    SensorsGauges(g);
    ContainersGauges(g);
    NetworkGauges(g);
  }

  lemma LoadCounters(c: Counter)
    ensures CarriesCounter(PluginLoad, c) <==> c.BatteryLevel?
  {
  }

  lemma DiskIOCounters(c: Counter)
    ensures CarriesCounter(PluginDiskIO, c) <==> c.DiskIO?
  {
  }

  lemma FsCounters(c: Counter)
    ensures CarriesCounter(PluginFs, c) <==> c.FsReadBytes? || c.FsWriteBytes?
  {
  }

  lemma NetworkCounters(c: Counter)
    ensures CarriesCounter(PluginNetwork, c) <==> c.Bandwidth? || c.NicRate? || c.NicTotal?
  {
  }

  lemma ContainerCounters(c: Counter)
    ensures CarriesCounter(PluginContainers, c) <==> c.ContainerBandwidth?
  {
  }

  lemma NoCounters(c: Counter)
    ensures !CarriesCounter(PluginCpu, c) && !CarriesCounter(PluginMem, c) && !CarriesCounter(PluginSwap, c)
    ensures !CarriesCounter(PluginGpu, c) && !CarriesCounter(PluginSensors, c)
  {
  }

  /** The same for integers. */
  lemma AveragedCounters(c: Counter)
    ensures CarriesCounter(PluginLoad, c) <==> c.BatteryLevel?
    ensures CarriesCounter(PluginDiskIO, c) <==> c.DiskIO?
    ensures CarriesCounter(PluginFs, c) <==> c.FsReadBytes? || c.FsWriteBytes?
    ensures CarriesCounter(PluginNetwork, c) <==> c.Bandwidth? || c.NicRate? || c.NicTotal?
    ensures CarriesCounter(PluginContainers, c) <==> c.ContainerBandwidth?
    ensures !CarriesCounter(PluginCpu, c) && !CarriesCounter(PluginMem, c) && !CarriesCounter(PluginSwap, c)
    ensures !CarriesCounter(PluginGpu, c) && !CarriesCounter(PluginSensors, c)
  {
    hide CarriesCounter;
    LoadCounters(c);
    DiskIOCounters(c);
    FsCounters(c);
    NetworkCounters(c);
    ContainerCounters(c);
    NoCounters(c);
  }

  /** The measurements whose largest value is kept beside the average. */
  lemma KeptPeaks(g: Gauge, c: Counter)
    ensures HasPeak(g) <==>
              || g.Cpu? || g.MemUsed? || g.DiskReadPs? || g.DiskWritePs? || g.DiskIoStat?
              || (g.Filesystem? && (g.field.FsReadPs? || g.field.FsWritePs? || g.field.FsIoStat?))
    ensures HasCounterPeak(c) <==> c.DiskIO? || c.FsReadBytes? || c.FsWriteBytes? || c.Bandwidth? || c.NicTotal?
  {
  }

  /** The measurements that some fields hold. */
  function Restrict(fields: set<StatsField>, s: Stats): Stats {
    Stats(map g | g in s.gauges && FieldOf(g) in fields :: s.gauges[g],
          map g | g in s.peaks && PeakFieldOf(g) in fields :: s.peaks[g],
          map c | c in s.counters && CounterFieldOf(c) in fields :: s.counters[c],
          map c | c in s.counterPeaks && CounterPeakFieldOf(c) in fields :: s.counterPeaks[c],
          if FieldBattery in fields then s.charge else 0)
  }

  /** Every plugin that has a field for a measurement also has one for its peak. */
  lemma PeaksAreFilled(plugin: Plugin)
    ensures forall g :: Carries(plugin, g) ==> PeakFieldOf(g) in Filled(plugin)
    ensures forall c :: CarriesCounter(plugin, c) ==> CounterPeakFieldOf(c) in Filled(plugin)
  {
  }

  /** What a payload fills: its own fields and nothing else. */
  function Project(plugin: Plugin, s: Stats): (r: Stats)
    ensures forall g :: Carries(plugin, g) ==> Real(r.gauges, g) == Real(s.gauges, g)
    ensures forall g :: Carries(plugin, g) ==> Real(r.peaks, g) == Real(s.peaks, g)
    ensures forall c :: CarriesCounter(plugin, c) ==> Count(r.counters, c) == Count(s.counters, c)
    ensures forall c :: CarriesCounter(plugin, c) ==> Count(r.counterPeaks, c) == Count(s.counterPeaks, c)
  {
    PeaksAreFilled(plugin);
    Restrict(Filled(plugin), s)
  }

  /** What a payload takes back from the averaged record. */
  function Extract(plugin: Plugin, s: Stats): Stats {
    Restrict(Extracted(plugin), s)
  }

  /** A plugin takes back exactly the fields it fills. */
  lemma ExtractsWhatItFills(plugin: Plugin)
    ensures Extracted(plugin) == Filled(plugin)
    ensures forall s :: Extract(plugin, s) == Project(plugin, s)
  {
  }

  function Projected(plugin: Plugin, items: seq<Payload>): (r: seq<Stats>)
    ensures |r| == |items|
  {
    seq(|items|, i requires 0 <= i < |items| => Project(plugin, items[i].stats))
  }

  function Aggregate(plugin: Plugin, items: seq<Payload>): Payload {
    if items == [] then Payload(NoStats, "")
    else if IsNumeric(plugin) then Payload(Extract(plugin, Average(Projected(plugin, items))), "")
    else items[|items| - 1]
  }

  function AggregationOf(plugin: Plugin): Aggregator<Payload> {
    (res, at, items) => Aggregate(plugin, items)
  }

  method AggregatePluginHistory(plugin: Plugin, items: seq<Payload>) returns (r: Result<Payload>)
    ensures items == [] ==> r.Err?
    ensures items != [] ==> r == Ok(Aggregate(plugin, items))
  {
    if |items| == 0 {
      return Err("no history items to aggregate");
    }
    if IsNumeric(plugin) {
      var stats: seq<Stats> := [];
      for k := 0 to |items|
        invariant |stats| == k && forall j :: 0 <= j < k ==> stats[j] == Project(plugin, items[j].stats)
      {
        stats := stats + [Project(plugin, items[k].stats)];
      }
      assert stats == Projected(plugin, items);
      var averaged := AverageSystemStats(stats);
      r := Ok(Payload(Extract(plugin, averaged), ""));
    } else {
      r := Ok(items[|items| - 1]);
    }
  }
}
