/** GPU readings averaged per cache key. Collectors only ever add to the accumulators; each
    query key remembers where it last stood and publishes the average of what came since.
    The model covers GPUs that report usage directly; engine based usage is not part of it. */
module GpuAverages {
  import opened Basics
  import opened Rounding

  const U32 := 0x1_0000_0000

  /** Usage and power are running sums over `count` samples, the rest is the latest sample. */
  datatype Gpu = Gpu(name: string, temperature: real, memoryUsed: real, memoryTotal: real,
                     usage: real, power: real, count: nat)

  datatype Snapshot = Snapshot(count: nat, usage: real, power: real)

  const NO_READING := Gpu("", 0.0, 0.0, 0.0, 0.0, 0.0, 0)

  /** What one collector call reports about one GPU. */
  datatype Sample = Sample(name: string, temperature: real, memoryUsed: real, memoryTotal: real,
                           usage: real, power: real)

  datatype State = State(gpus: map<string, Gpu>, snapshots: map<int, map<string, Snapshot>>, lastAvg: map<string, Gpu>)

  const INITIAL := State(map[], map[], map[])

  function Accumulate(g: Option<Gpu>, s: Sample): Gpu {
    var before := if g.Some? then g.value else NO_READING;
    Gpu(s.name, s.temperature, s.memoryUsed, s.memoryTotal,
        before.usage + s.usage, before.power + s.power, before.count + 1)
  }

  function AddSample(st: State, id: string, s: Sample): State {
    st.(gpus := st.gpus[id := Accumulate(Lookup(st.gpus, id), s)])
  }

  // ----- one GPU in one query -----

  function DeltaCount(count: nat, last: Option<Snapshot>): nat {
    if last.Some? then (count - last.value.count) % U32 else count % U32
  }

  function DeltaUsage(g: Gpu, last: Option<Snapshot>): real {
    if last.Some? then g.usage - last.value.usage else g.usage
  }

  function DeltaPower(g: Gpu, last: Option<Snapshot>): real {
    if last.Some? then g.power - last.value.power else g.power
  }

  /** No temperature and no memory in use: the GPU is taken to be suspended. */
  predicate Suspended(g: Gpu) {
    g.temperature == 0.0 && g.memoryUsed == 0.0
  }

  function NewAverage(g: Gpu, last: Option<Snapshot>): Gpu
    requires DeltaCount(g.count, last) != 0
  {
    var n := DeltaCount(g.count, last) as real;
    g.(usage := TwoDecimals(DeltaUsage(g, last) / n), power := TwoDecimals(DeltaPower(g, last) / n))
  }

  function AverageOf(g: Gpu, last: Option<Snapshot>, lastAvg: Option<Gpu>): Gpu {
    if DeltaCount(g.count, last) != 0 then NewAverage(g, last)
    else if Suspended(g) then NO_READING.(name := g.name)
    else if lastAvg.Some? then lastAvg.value
    else NO_READING
  }

  function NameCount(gpus: map<string, Gpu>, n: string): nat {
    |set id | id in gpus && gpus[id].name == n|
  }

  function Published(st: State, id: string, key: int): Gpu
    requires id in st.gpus
  {
    var g := st.gpus[id];
    var avg := AverageOf(g, LastSnapshot(st, key, id), Lookup(st.lastAvg, id));
    var shown := avg.(temperature := TwoDecimals(g.temperature), memoryUsed := TwoDecimals(g.memoryUsed),
                      memoryTotal := TwoDecimals(g.memoryTotal));
    if NameCount(st.gpus, g.name) > 1 then shown.(name := g.name + " " + id) else shown
  }

  function SnapshotsFor(st: State, key: int): map<string, Snapshot> {
    if key in st.snapshots then st.snapshots[key] else map[]
  }

  function LastSnapshot(st: State, key: int, id: string): Option<Snapshot> {
    Lookup(SnapshotsFor(st, key), id)
  }

  function SnapshotOf(g: Gpu): Snapshot {
    Snapshot(g.count, g.usage, g.power)
  }

  function Reading(st: State, key: int): map<string, Gpu> {
    map id | id in st.gpus :: Published(st, id, key)
  }

  /** Every GPU is snapshotted under the key; new averages also replace the shared last ones. */
  function Queried(st: State, key: int): State {
    State(st.gpus,
          st.snapshots[key := SnapshotsFor(st, key) + map id | id in st.gpus :: SnapshotOf(st.gpus[id])],
          st.lastAvg + map id | id in st.gpus && DeltaCount(st.gpus[id].count, LastSnapshot(st, key, id)) != 0 ::
            NewAverage(st.gpus[id], LastSnapshot(st, key, id)))
  }

  // ----- the manager -----

  class GPUManager {
    var gpuData: map<string, Gpu>
    var lastAvgData: map<string, Gpu>
    var lastSnapshots: map<int, map<string, Snapshot>>

    ghost function Abstract(): State
      reads this
    {
      State(gpuData, lastSnapshots, lastAvgData)
    }

    constructor ()
      ensures Abstract() == INITIAL
    {
      gpuData, lastAvgData, lastSnapshots := map[], map[], map[];
    }

    /** What every collector does with one sample. */
    method Record(id: string, s: Sample)
      modifies this`gpuData
      ensures Abstract() == AddSample(old(Abstract()), id, s)
    {
      var before := if id in gpuData then gpuData[id] else NO_READING;
      gpuData := gpuData[id := Gpu(s.name, s.temperature, s.memoryUsed, s.memoryTotal,
                                   before.usage + s.usage, before.power + s.power, before.count + 1)];
    }

    method CalculateGPUAverage(id: string, gpu: Gpu, cacheKey: int) returns (avg: Gpu)
      requires cacheKey in lastSnapshots
      modifies this`lastAvgData
      ensures avg == AverageOf(gpu, Lookup(lastSnapshots[cacheKey], id), Lookup(old(lastAvgData), id))
      ensures lastAvgData == if DeltaCount(gpu.count, Lookup(lastSnapshots[cacheKey], id)) != 0
                             then old(lastAvgData)[id := avg] else old(lastAvgData)
      ensures DeltaCount(gpu.count, Lookup(lastSnapshots[cacheKey], id)) != 0 ==>
                avg == NewAverage(gpu, Lookup(lastSnapshots[cacheKey], id))
    {
      var last := Lookup(lastSnapshots[cacheKey], id);
      var deltaCount := DeltaCount(gpu.count, last);
      if deltaCount == 0 {
        if gpu.temperature == 0.0 && gpu.memoryUsed == 0.0 {
          return NO_READING.(name := gpu.name);
        }
        return if id in lastAvgData then lastAvgData[id] else NO_READING;
      }
      avg := gpu.(power := TwoDecimals(DeltaPower(gpu, last) / (deltaCount as real)));
      avg := avg.(usage := TwoDecimals(DeltaUsage(gpu, last) / (deltaCount as real)));
      lastAvgData := lastAvgData[id := avg];
    }

    /** Averages since the last call with this key, GPU by GPU in any order. */
    method GetCurrentData(cacheKey: int) returns (data: map<string, Gpu>)
      modifies this`lastAvgData, this`lastSnapshots
      ensures data == Reading(old(Abstract()), cacheKey)
      ensures Abstract() == Queried(old(Abstract()), cacheKey)
    {
      hide AverageOf, DeltaCount, TwoDecimals, NewAverage, NameCount, DataWithout, SnapshotsWithout, AveragesWithout;
      ghost var st := Abstract();
      if cacheKey !in lastSnapshots {
        lastSnapshots := lastSnapshots[cacheKey := map[]];
      }
      data := map[];
      var todo := gpuData.Keys;
      FirstGpu(st, cacheKey);
      while todo != {}
        invariant todo <= st.gpus.Keys && gpuData == st.gpus
        invariant data == DataWithout(st, cacheKey, todo)
        invariant cacheKey in lastSnapshots
        invariant lastSnapshots == st.snapshots[cacheKey := SnapshotsWithout(st, cacheKey, todo)]
        invariant lastAvgData == AveragesWithout(st, cacheKey, todo)
        decreases todo
      {
        var id :| id in todo;
        var gpu := gpuData[id];
        NextData(st, cacheKey, todo, id);
        NextSnapshot(st, cacheKey, todo, id);
        NextAverage(st, cacheKey, todo, id);
        var avg := CalculateGPUAverage(id, gpu, cacheKey);
        avg := avg.(temperature := TwoDecimals(gpu.temperature), memoryUsed := TwoDecimals(gpu.memoryUsed),
                    memoryTotal := TwoDecimals(gpu.memoryTotal));
        lastSnapshots := lastSnapshots[cacheKey := lastSnapshots[cacheKey][id := SnapshotOf(gpu)]];
        if NameCount(gpuData, gpu.name) > 1 {
          avg := avg.(name := gpu.name + " " + id);
        }
        data := data[id := avg];
        todo := todo - {id};
      }
      LastGpu(st, cacheKey);
    }
  }

  /** The three results of a query once the GPUs outside `todo` have been visited. */
  function DataWithout(st: State, key: int, todo: set<string>): map<string, Gpu> {
    map id | id in st.gpus && id !in todo :: Published(st, id, key)
  }

  function SnapshotsWithout(st: State, key: int, todo: set<string>): map<string, Snapshot> {
    SnapshotsFor(st, key) + map id | id in st.gpus && id !in todo :: SnapshotOf(st.gpus[id])
  }

  function AveragesWithout(st: State, key: int, todo: set<string>): map<string, Gpu> {
    st.lastAvg + map id |
      id in st.gpus && id !in todo && DeltaCount(st.gpus[id].count, LastSnapshot(st, key, id)) != 0 ::
      NewAverage(st.gpus[id], LastSnapshot(st, key, id))
  }

  lemma FirstGpu(st: State, key: int)
    ensures DataWithout(st, key, st.gpus.Keys) == map[]
    ensures SnapshotsWithout(st, key, st.gpus.Keys) == SnapshotsFor(st, key)
    ensures AveragesWithout(st, key, st.gpus.Keys) == st.lastAvg
  {
    hide Published, NewAverage, DeltaCount, SnapshotOf;
    assert forall id :: id in st.gpus ==> id in st.gpus.Keys;
    assert SnapshotsFor(st, key) + map[] == SnapshotsFor(st, key);
    assert st.lastAvg + map[] == st.lastAvg;
  }

  lemma NextData(st: State, key: int, todo: set<string>, id: string)
    requires id in todo && todo <= st.gpus.Keys
    ensures DataWithout(st, key, todo - {id}) == DataWithout(st, key, todo)[id := Published(st, id, key)]
  {
    hide Published;
  }

  lemma NextSnapshot(st: State, key: int, todo: set<string>, id: string)
    requires id in todo && todo <= st.gpus.Keys
    ensures Lookup(SnapshotsWithout(st, key, todo), id) == LastSnapshot(st, key, id)
    ensures SnapshotsWithout(st, key, todo - {id}) == SnapshotsWithout(st, key, todo)[id := SnapshotOf(st.gpus[id])]
  {
    hide SnapshotOf, SnapshotsFor;
    var visited := map i | i in st.gpus && i !in todo :: SnapshotOf(st.gpus[i]);
    var visited' := map i | i in st.gpus && i !in todo - {id} :: SnapshotOf(st.gpus[i]);
    assert visited' == visited[id := SnapshotOf(st.gpus[id])];
  }

  lemma NextAverage(st: State, key: int, todo: set<string>, id: string)
    requires id in todo && todo <= st.gpus.Keys
    ensures Lookup(AveragesWithout(st, key, todo), id) == Lookup(st.lastAvg, id)
    ensures AveragesWithout(st, key, todo - {id})
         == if DeltaCount(st.gpus[id].count, LastSnapshot(st, key, id)) != 0
            then AveragesWithout(st, key, todo)[id := NewAverage(st.gpus[id], LastSnapshot(st, key, id))]
            else AveragesWithout(st, key, todo)
  {
    hide NewAverage, DeltaCount, LastSnapshot;
  }

  lemma LastGpu(st: State, key: int)
    ensures DataWithout(st, key, {}) == Reading(st, key)
    ensures State(st.gpus, st.snapshots[key := SnapshotsWithout(st, key, {})], AveragesWithout(st, key, {}))
         == Queried(st, key)
  {
    hide Published, NewAverage, DeltaCount, SnapshotOf, LastSnapshot, SnapshotsWithout, AveragesWithout;
    AllSnapshots(st, key);
    AllAverages(st, key);
  }

  lemma AllSnapshots(st: State, key: int)
    ensures SnapshotsWithout(st, key, {}) == SnapshotsFor(st, key) + map id | id in st.gpus :: SnapshotOf(st.gpus[id])
  {
    hide SnapshotOf;
    assert st.gpus.Keys - {} == st.gpus.Keys;
  }

  lemma AllAverages(st: State, key: int)
    ensures AveragesWithout(st, key, {})
         == st.lastAvg + map id | id in st.gpus && DeltaCount(st.gpus[id].count, LastSnapshot(st, key, id)) != 0 ::
              NewAverage(st.gpus[id], LastSnapshot(st, key, id))
  {
    hide NewAverage, DeltaCount, LastSnapshot;
    assert st.gpus.Keys - {} == st.gpus.Keys;
  }

  // ----- runs -----

  datatype Event = Collected(id: string, sample: Sample) | Query(key: int)

  function Next(st: State, e: Event): State {
    match e
    case Collected(id, s) => AddSample(st, id, s)
    case Query(key) => Queried(st, key)
  }

  function Run(es: seq<Event>): State {
    if es == [] then INITIAL else Next(Run(es[..|es| - 1]), es[|es| - 1])
  }

  /** What a GPU's readings under one key add up to: the samples its averages stand for and
      the averages weighted by them. */
  datatype Tally = Tally(count: nat, usage: real, power: real)

  function Weigh(t: Tally, st: State, key: int, id: string): Tally {
    if id !in st.gpus then t
    else
      var n := DeltaCount(st.gpus[id].count, LastSnapshot(st, key, id));
      if n == 0 then t
      else
        var p := Published(st, id, key);
        Tally(t.count + n, t.usage + (n as real) * p.usage, t.power + (n as real) * p.power)
  }

  function Weighted(es: seq<Event>, key: int, id: string): Tally {
    if es == [] then Tally(0, 0.0, 0.0)
    else
      var before := Weighted(es[..|es| - 1], key, id);
      match es[|es| - 1]
      case Collected(_, _) => before
      case Query(k) => if k == key then Weigh(before, Run(es[..|es| - 1]), key, id) else before
  }

  predicate Close(x: real, y: real, n: nat) {
    -0.005 * (n as real) <= x - y <= 0.005 * (n as real)
  }

  /** How a key's last snapshot of a GPU relates to its accumulator and to what the key has
      published about it. */
  predicate Accounted(st: State, key: int, id: string, t: Tally) {
    (id in st.gpus ==> st.gpus[id].count > 0) &&
    match LastSnapshot(st, key, id)
    case None => t == Tally(0, 0.0, 0.0)
    case Some(last) =>
      && id in st.gpus
      && last.count <= st.gpus[id].count
      && (last.count == st.gpus[id].count ==> last == SnapshotOf(st.gpus[id]))
      && t.count <= last.count
      && Close(t.usage, last.usage, t.count) && Close(t.power, last.power, t.count)
  }

  /** Samples of a GPU since a key last looked at it. */
  function Gap(st: State, key: int, id: string): int
    requires id in st.gpus
  {
    st.gpus[id].count - SeenCount(st, key, id)
  }

  function SeenCount(st: State, key: int, id: string): nat {
    var last := LastSnapshot(st, key, id);
    if last.Some? then last.value.count else 0
  }

  /** The key looks at the GPU before a 32-bit counter of the samples in between wraps around. */
  predicate Frequent(es: seq<Event>, key: int, id: string) {
    es == [] ||
    var before := es[..|es| - 1];
    && Frequent(before, key, id)
    && (es[|es| - 1] == Query(key) && id in Run(before).gpus ==> Gap(Run(before), key, id) < U32)
  }

  /** Whenever samples arrived since the key's last look, their 32-bit count is not zero. */
  predicate NeverStalls(es: seq<Event>, key: int, id: string) {
    es == [] ||
    var before := es[..|es| - 1];
    && NeverStalls(before, key, id)
    && (es[|es| - 1] == Query(key) && id in Run(before).gpus && Gap(Run(before), key, id) > 0 ==>
          Gap(Run(before), key, id) % U32 != 0)
  }

  lemma {:induction false} FrequentNeverStalls(es: seq<Event>, key: int, id: string)
    requires Frequent(es, key, id)
    ensures NeverStalls(es, key, id)
  {
    if es != [] {
      FrequentNeverStalls(es[..|es| - 1], key, id);
    }
  }

  /** Nothing is lost: weighted by their sample counts, the averages published under a key add up
      to the accumulated usage and power within half a hundredth per counted sample, whatever
      other keys did in between; if the key looks often enough, they count every sample. */
  lemma {:induction false} AveragesLoseNothing(es: seq<Event>, key: int, id: string)
    requires NeverStalls(es, key, id)
    ensures Accounted(Run(es), key, id, Weighted(es, key, id))
    ensures es != [] && es[|es| - 1] == Query(key) && id in Run(es).gpus ==>
              var g, t := Run(es).gpus[id], Weighted(es, key, id);
              && t.count <= g.count && Close(t.usage, g.usage, t.count) && Close(t.power, g.power, t.count)
              && (t.count == g.count <==> Frequent(es, key, id))
  {
    hide Accounted, Published, SeenCount, Gap, Frequent;
    if es == [] {
      NothingAccounted(key, id);
    } else {
      var prefix := es[..|es| - 1];
      var st := Run(prefix);
      AveragesLoseNothing(prefix, key, id);
      match es[|es| - 1]
      case Collected(other, s) =>
        SampleAccounted(st, key, id, Weighted(prefix, key, id), other, s);
      case Query(k) =>
        if k == key {
          QueryAccounted(st, key, id, Weighted(prefix, key, id));
          if id in Run(es).gpus {
            SamplesAddUpExactlyWhen(es, key, id);
          }
        } else {
          OtherQueryAccounted(st, key, id, Weighted(prefix, key, id), k);
        }
    }
  }

  /** A key has seen no more samples than there were, and has accounted for no more than it has
      seen: for all of them exactly if it looked often enough. */
  predicate Tallied(st: State, key: int, id: string, count: nat, frequent: bool) {
    && (if id in st.gpus then SeenCount(st, key, id) <= st.gpus[id].count else LastSnapshot(st, key, id).None?)
    && count <= SeenCount(st, key, id)
    && (count == SeenCount(st, key, id) <==> frequent)
  }

  lemma {:induction false} RunsAreTallied(es: seq<Event>, key: int, id: string)
    ensures Tallied(Run(es), key, id, Weighted(es, key, id).count, Frequent(es, key, id))
  {
    hide Tallied, Weigh, AddSample, Queried, Gap;
    if es == [] {
      NothingTallied(key, id);
    } else {
      var prefix := es[..|es| - 1];
      var st, t, frequent := Run(prefix), Weighted(prefix, key, id), Frequent(prefix, key, id);
      RunsAreTallied(prefix, key, id);
      match es[|es| - 1]
      case Collected(other, s) => SampleTallied(st, key, id, t.count, frequent, other, s);
      case Query(k) => QueryTallied(st, key, id, t, frequent, k);
    }
  }

  lemma NothingTallied(key: int, id: string)
    ensures Tallied(INITIAL, key, id, 0, true)
  {
  }

  lemma SampleTallied(st: State, key: int, id: string, count: nat, frequent: bool, other: string, s: Sample)
    requires Tallied(st, key, id, count, frequent)
    ensures Tallied(AddSample(st, other, s), key, id, count, frequent)
  {
  }

  lemma QueryTallied(st: State, key: int, id: string, t: Tally, frequent: bool, k: int)
    requires Tallied(st, key, id, t.count, frequent)
    ensures Tallied(Queried(st, k), key, id, (if k == key then Weigh(t, st, key, id) else t).count,
                    frequent && (k == key && id in st.gpus ==> Gap(st, key, id) < U32))
  {
    hide Weigh, Queried;
    SeenAfter(st, k, key, id);
    if id in st.gpus {
      GapCounts(st.gpus[id].count, SeenCount(st, key, id));
      WeighedCount(t, st, key, id);
    } else {
      NothingWeighed(t, st, key, id);
    }
  }

  lemma NothingWeighed(t: Tally, st: State, key: int, id: string)
    requires id !in st.gpus
    ensures Weigh(t, st, key, id) == t
  {
  }

  /** The exact condition for the sample counts of the averages to add up. */
  lemma SamplesAddUpExactlyWhen(es: seq<Event>, key: int, id: string)
    requires es != [] && es[|es| - 1] == Query(key) && id in Run(es).gpus
    ensures Weighted(es, key, id).count <= Run(es).gpus[id].count
    ensures Weighted(es, key, id).count == Run(es).gpus[id].count <==> Frequent(es, key, id)
  {
    hide Queried, Weighted, Frequent;
    RunsAreTallied(es, key, id);
    SeenAfter(Run(es[..|es| - 1]), key, key, id);
  }

  lemma SeenAfter(st: State, k: int, key: int, id: string)
    ensures Queried(st, k).gpus == st.gpus
    ensures LastSnapshot(Queried(st, k), key, id)
         == if k == key && id in st.gpus then Some(SnapshotOf(st.gpus[id])) else LastSnapshot(st, key, id)
  {
    hide DeltaCount, NewAverage;
  }

  lemma WeighedCount(t: Tally, st: State, key: int, id: string)
    requires id in st.gpus
    ensures Weigh(t, st, key, id).count == t.count + (st.gpus[id].count - SeenCount(st, key, id)) % U32
  {
    hide Published;
  }

  lemma GapCounts(count: nat, seen: nat)
    requires seen <= count
    ensures (count - seen) % U32 <= count - seen
    ensures (count - seen) % U32 == count - seen <==> count - seen < U32
  {
  }

  lemma NothingAccounted(key: int, id: string)
    ensures Accounted(INITIAL, key, id, Tally(0, 0.0, 0.0))
  {
  }

  lemma SampleAccounted(st: State, key: int, id: string, t: Tally, other: string, s: Sample)
    requires Accounted(st, key, id, t)
    ensures Accounted(AddSample(st, other, s), key, id, t)
  {
    hide Close;
  }

  lemma OtherQueryAccounted(st: State, key: int, id: string, t: Tally, other: int)
    requires other != key && Accounted(st, key, id, t)
    ensures Accounted(Queried(st, other), key, id, t)
  {
    hide Close, DeltaCount, NewAverage;
  }

  lemma QueryAccounted(st: State, key: int, id: string, t: Tally)
    requires Accounted(st, key, id, t)
    requires id in st.gpus && Gap(st, key, id) > 0 ==> Gap(st, key, id) % U32 != 0
    ensures Accounted(Queried(st, key), key, id, Weigh(t, st, key, id))
    ensures id in st.gpus ==>
              var g, t' := st.gpus[id], Weigh(t, st, key, id);
              t'.count <= g.count && Close(t'.usage, g.usage, t'.count) && Close(t'.power, g.power, t'.count)
  {
    hide TwoDecimals, Queried, Close, Published;
    SeenAfter(st, key, key, id);
    if id in st.gpus {
      var g := st.gpus[id];
      var last := LastSnapshot(st, key, id);
      var from := if last.Some? then last.value else Snapshot(0, 0.0, 0.0);
      var n := DeltaCount(g.count, last);
      GapCounts(g.count, from.count);
      NothingIsClose(t, from);
      if n != 0 {
        PublishedNew(st, key, id);
        var p := Published(st, id, key);
        var usage, power := (n as real) * p.usage, (n as real) * p.power;
        WeightedError(usage, p.usage, DeltaUsage(g, last), n);
        WeightedError(power, p.power, DeltaPower(g, last), n);
        var t' := Weigh(t, st, key, id);
        CloseAdds(t.usage, from.usage, t.count, usage, DeltaUsage(g, last), n, t'.usage, g.usage, t'.count);
        CloseAdds(t.power, from.power, t.count, power, DeltaPower(g, last), n, t'.power, g.power, t'.count);
      }
    }
  }

  lemma PublishedNew(st: State, key: int, id: string)
    requires id in st.gpus && DeltaCount(st.gpus[id].count, LastSnapshot(st, key, id)) != 0
    ensures Published(st, id, key).usage == NewAverage(st.gpus[id], LastSnapshot(st, key, id)).usage
    ensures Published(st, id, key).power == NewAverage(st.gpus[id], LastSnapshot(st, key, id)).power
  {
    hide TwoDecimals, NameCount;
  }

  lemma NothingIsClose(t: Tally, from: Snapshot)
    ensures t == Tally(0, 0.0, 0.0) && from == Snapshot(0, 0.0, 0.0) ==>
              Close(t.usage, from.usage, 0) && Close(t.power, from.power, 0)
  {
  }

  lemma CloseAdds(a: real, x: real, m: nat, b: real, y: real, n: nat, sum: real, total: real, count: nat)
    requires Close(a, x, m) && Close(b, y, n)
    requires sum == a + b && total == x + y && count == m + n
    ensures Close(sum, total, count)
  {
    assert count as real == m as real + n as real;
  }

  /** Rounding an average of n samples moves their weighted sum by at most n half hundredths. */
  lemma WeightedError(weighted: real, average: real, sum: real, n: nat)
    requires n > 0 && average == TwoDecimals(sum / (n as real)) && weighted == (n as real) * average
    ensures Close(weighted, sum, n)
  {
    hide TwoDecimals;
    var m := n as real;
    RoundingError(sum / m);
    var e := average - sum / m;
    assert m * (sum / m) == sum;
    assert weighted - sum == m * e;
    assert m * e <= m * 0.005 && m * e >= m * -0.005;
  }

  // ----- keys do not interfere -----

  /** The run without the queries of other keys. */
  function OnlyKey(es: seq<Event>, key: int): seq<Event> {
    if es == [] then []
    else
      var before := OnlyKey(es[..|es| - 1], key);
      var last := es[|es| - 1];
      if last.Query? && last.key != key then before else before + [last]
  }

  lemma {:induction false} SameForKey(es: seq<Event>, key: int)
    ensures Run(es).gpus == Run(OnlyKey(es, key)).gpus
    ensures SnapshotsFor(Run(es), key) == SnapshotsFor(Run(OnlyKey(es, key)), key)
  {
    hide Next;
    if es != [] {
      SameForKey(es[..|es| - 1], key);
      var before, last := OnlyKey(es[..|es| - 1], key), es[|es| - 1];
      RunNext(before, last);
      NextForKey(Run(es[..|es| - 1]), Run(before), last, key);
    }
  }

  /** A key's view of a step depends on its own view only, and other queries leave it alone. */
  lemma NextForKey(a: State, b: State, e: Event, key: int)
    requires a.gpus == b.gpus && SnapshotsFor(a, key) == SnapshotsFor(b, key)
    ensures Next(a, e).gpus == Next(b, e).gpus
    ensures SnapshotsFor(Next(a, e), key) == SnapshotsFor(Next(b, e), key)
    ensures e.Query? && e.key != key ==>
              Next(a, e).gpus == b.gpus && SnapshotsFor(Next(a, e), key) == SnapshotsFor(b, key)
  {
    hide DeltaCount, NewAverage, LastSnapshot;
  }

  /** The average that any key last took of a GPU over new samples, from the history alone. */
  function LastFresh(es: seq<Event>, id: string): Option<Gpu> {
    if es == [] then None
    else
      var before, e := es[..|es| - 1], es[|es| - 1];
      if e.Query? && TakesNew(Run(before), e.key, id)
      then Some(NewAverage(Run(before).gpus[id], LastSnapshot(Run(before), e.key, id)))
      else LastFresh(before, id)
  }

  predicate TakesNew(st: State, key: int, id: string) {
    id in st.gpus && DeltaCount(st.gpus[id].count, LastSnapshot(st, key, id)) != 0
  }

  /** The shared last averages hold exactly what was last taken, by whichever key. */
  lemma {:induction false} SharedIsLastFresh(es: seq<Event>, id: string)
    ensures Lookup(Run(es).lastAvg, id) == LastFresh(es, id)
  {
    hide DeltaCount, NewAverage, LastSnapshot;
    if es != [] {
      SharedIsLastFresh(es[..|es| - 1], id);
    }
  }

  /** Usage and power of an average; both are zero where there is none. */
  function UsageAndPower(average: Option<Gpu>): (real, real) {
    if average.Some? then (average.value.usage, average.value.power) else (0.0, 0.0)
  }

  predicate IdleAndActive(st: State, key: int, id: string)
    requires id in st.gpus
  {
    !TakesNew(st, key, id) && !Suspended(st.gpus[id])
  }

  /** Without new samples and with the GPU active, a reading is the last average any key took. */
  lemma IdleReadingIsShared(es: seq<Event>, key: int, id: string)
    requires id in Run(es).gpus && IdleAndActive(Run(es), key, id)
    ensures UsageAndPower(Some(Published(Run(es), id, key))) == UsageAndPower(LastFresh(es, id))
  {
    hide Run, LastFresh, NewAverage, DeltaCount, TwoDecimals, NameCount, LastSnapshot;
    SharedIsLastFresh(es, id);
  }

  /** The whole reading does not depend on queries under other keys if new samples arrived
      since the key's last query, or if the GPU looks suspended. */
  lemma KeysDoNotInterfere(es: seq<Event>, key: int, id: string)
    requires id in Run(es).gpus && !IdleAndActive(Run(es), key, id)
    ensures id in Run(OnlyKey(es, key)).gpus
    ensures Published(Run(es), id, key) == Published(Run(OnlyKey(es, key)), id, key)
  {
    hide Run, NewAverage, DeltaCount, TwoDecimals;
    SameForKey(es, key);
  }

  /** Exactly when other keys leave a key's published averages alone: the key takes new samples,
      the GPU looks suspended, or the last average taken by any key is worth the same as the
      last one the key took itself. */
  lemma KeysInterfereExactlyWhen(es: seq<Event>, key: int, id: string)
    requires id in Run(es).gpus
    ensures id in Run(OnlyKey(es, key)).gpus
    ensures
      UsageAndPower(Some(Published(Run(es), id, key))) == UsageAndPower(Some(Published(Run(OnlyKey(es, key)), id, key)))
      <==> !IdleAndActive(Run(es), key, id)
           || UsageAndPower(LastFresh(es, id)) == UsageAndPower(LastFresh(OnlyKey(es, key), id))
  {
    hide Run, OnlyKey, LastFresh, Published, DeltaCount, Suspended;
    SameForKey(es, key);
    if IdleAndActive(Run(es), key, id) {
      IdleReadingIsShared(es, key, id);
      IdleReadingIsShared(OnlyKey(es, key), key, id);
    } else {
      KeysDoNotInterfere(es, key, id);
    }
  }

  /** The key that last took new samples of a GPU. */
  function LastTaker(es: seq<Event>, id: string): Option<int> {
    if es == [] then None
    else
      var before, e := es[..|es| - 1], es[|es| - 1];
      if e.Query? && TakesNew(Run(before), e.key, id) then Some(e.key) else LastTaker(before, id)
  }

  /** In particular no key interferes with the one that took new samples of the GPU last. */
  lemma LastTakerIsAlone(es: seq<Event>, key: int, id: string)
    requires LastTaker(es, id) == Some(key)
    ensures LastFresh(OnlyKey(es, key), id) == LastFresh(es, id)
    ensures id in Run(es).gpus ==>
              && id in Run(OnlyKey(es, key)).gpus
              && UsageAndPower(Some(Published(Run(es), id, key)))
                 == UsageAndPower(Some(Published(Run(OnlyKey(es, key)), id, key)))
  {
    LastTakerTook(es, key, id);
    if id in Run(es).gpus {
      KeysInterfereExactlyWhen(es, key, id);
    }
  }

  lemma {:induction false} LastTakerTook(es: seq<Event>, key: int, id: string)
    requires LastTaker(es, id) == Some(key)
    ensures LastFresh(OnlyKey(es, key), id) == LastFresh(es, id)
  {
    hide Run, NewAverage, DeltaCount, Queried;
    var before, e := es[..|es| - 1], es[|es| - 1];
    SameForKey(before, key);
    var only := OnlyKey(before, key);
    if e.Query? && TakesNew(Run(before), e.key, id) {
      assert OnlyKey(es, key) == only + [e];
      assert (only + [e])[..|only|] == only;
    } else {
      LastTakerTook(before, key, id);
      if !(e.Query? && e.key != key) {
        assert OnlyKey(es, key) == only + [e];
        assert (only + [e])[..|only|] == only;
      }
    }
  }

  /** A run on which keys do interfere: a query under key 2 changes what key 1 publishes. */
  lemma IdleKeysDoInterfere()
    ensures
      var hot := Sample("gpu", 50.0, 1.0, 2.0, 100.0, 10.0);
      var cold := Sample("gpu", 50.0, 1.0, 2.0, 0.0, 10.0);
      var es := [Collected("0", hot), Query(2), Collected("0", cold), Query(1), Query(2)];
      && "0" in Run(es).gpus && "0" in Run(OnlyKey(es, 1)).gpus
      && Published(Run(es), "0", 1).usage != Published(Run(OnlyKey(es, 1)), "0", 1).usage
  {
    hide TwoDecimals, Run, OnlyKey, Queried, DeltaCount, NewAverage;
    var hot := Sample("gpu", 50.0, 1.0, 2.0, 100.0, 10.0);
    var cold := Sample("gpu", 50.0, 1.0, 2.0, 0.0, 10.0);
    var g1 := Gpu("gpu", 50.0, 1.0, 2.0, 100.0, 10.0, 1);
    var g2 := Gpu("gpu", 50.0, 1.0, 2.0, 100.0, 20.0, 2);
    var s1, s2 := Snapshot(1, 100.0, 10.0), Snapshot(2, 100.0, 20.0);
    var e1 := [Collected("0", hot)];
    var e2 := e1 + [Query(2)];
    var e3 := e2 + [Collected("0", cold)];
    var e4 := e3 + [Query(1)];
    var e5 := e4 + [Query(2)];
    var f2 := e1 + [Collected("0", cold)];
    var f3 := f2 + [Query(1)];
    Averages(g1, g2, s1);
    EmptyRun();
    // with the queries under key 2
    RunNext([], Collected("0", hot));
    assert [] + e1 == e1;
    assert Run(e1) == State(map["0" := g1], map[], map[]);
    RunNext(e1, Query(2));
    OneGpuQueried(g1, map[], map[], 2);
    RunNext(e2, Collected("0", cold));
    assert Run(e3).gpus == map["0" := g2];
    RunNext(e3, Query(1));
    OneGpuQueried(g2, Run(e3).snapshots, Run(e3).lastAvg, 1);
    RunNext(e4, Query(2));
    OneGpuQueried(g2, Run(e4).snapshots, Run(e4).lastAvg, 2);
    // without them
    RunNext(e1, Collected("0", cold));
    assert Run(f2) == State(map["0" := g2], map[], map[]);
    RunNext(f2, Query(1));
    OneGpuQueried(g2, map[], map[], 1);
    OnlyNext([], Collected("0", hot), 1);
    OnlyNext(e1, Query(2), 1);
    OnlyNext(e2, Collected("0", cold), 1);
    OnlyNext(e3, Query(1), 1);
    OnlyNext(e4, Query(2), 1);
    assert OnlyKey(e5, 1) == f3;
    IdleReading(Run(e5), g2, 1);
    IdleReading(Run(f3), g2, 1);
    assert e5 == [Collected("0", hot), Query(2), Collected("0", cold), Query(1), Query(2)];
  }

  lemma EmptyRun()
    ensures Run([]) == INITIAL && forall key :: OnlyKey([], key) == []
  {
  }

  lemma Averages(g1: Gpu, g2: Gpu, s1: Snapshot)
    requires g1 == Gpu("gpu", 50.0, 1.0, 2.0, 100.0, 10.0, 1) && g2 == Gpu("gpu", 50.0, 1.0, 2.0, 100.0, 20.0, 2)
    requires s1 == SnapshotOf(g1)
    ensures DeltaCount(1, None) == 1 && DeltaCount(2, None) == 2 && DeltaCount(2, Some(s1)) == 1
    ensures DeltaCount(2, Some(SnapshotOf(g2))) == 0
    ensures NewAverage(g2, None).usage == 50.0 && NewAverage(g2, Some(s1)).usage == 0.0
  {
    assert TwoDecimals(50.0) == 50.0;
    assert TwoDecimals(0.0) == 0.0;
  }

  lemma OneGpuQueried(g: Gpu, snapshots: map<int, map<string, Snapshot>>, lastAvg: map<string, Gpu>, key: int)
    requires key in snapshots ==> snapshots[key].Keys <= {"0"}
    requires lastAvg.Keys <= {"0"}
    ensures
      var st := State(map["0" := g], snapshots, lastAvg);
      var last := LastSnapshot(st, key, "0");
      Queried(st, key) == State(map["0" := g], snapshots[key := map["0" := SnapshotOf(g)]],
                                if DeltaCount(g.count, last) != 0 then map["0" := NewAverage(g, last)] else lastAvg)
  {
    hide NewAverage, DeltaCount;
    var st := State(map["0" := g], snapshots, lastAvg);
    var last := LastSnapshot(st, key, "0");
    assert st.gpus.Keys == {"0"};
    assert SnapshotsFor(st, key) + (map id | id in st.gpus :: SnapshotOf(st.gpus[id])) == map["0" := SnapshotOf(g)];
    var new' := map id | id in st.gpus && DeltaCount(st.gpus[id].count, LastSnapshot(st, key, id)) != 0 ::
      NewAverage(st.gpus[id], LastSnapshot(st, key, id));
    if DeltaCount(g.count, last) != 0 {
      assert new' == map["0" := NewAverage(g, last)];
      assert lastAvg + new' == new';
    } else {
      assert new' == map[];
      assert lastAvg + new' == lastAvg;
    }
  }

  lemma IdleReading(st: State, g: Gpu, key: int)
    requires st.gpus == map["0" := g] && !Suspended(g)
    requires DeltaCount(g.count, LastSnapshot(st, key, "0")) == 0 && "0" in st.lastAvg
    ensures Published(st, "0", key).usage == st.lastAvg["0"].usage
  {
    hide TwoDecimals, NameCount, DeltaCount, NewAverage;
  }

  lemma RunNext(es: seq<Event>, e: Event)
    ensures Run(es + [e]) == Next(Run(es), e)
  {
    assert (es + [e])[..|es|] == es;
  }

  lemma OnlyNext(es: seq<Event>, e: Event, key: int)
    ensures OnlyKey(es + [e], key) == if e.Query? && e.key != key then OnlyKey(es, key) else OnlyKey(es, key) + [e]
  {
    assert (es + [e])[..|es|] == es;
  }

  // ----- cache keys -----

  const COLLECTOR_KEY := 60_000

  /** The cache key of a live request with a time to live in milliseconds. */
  function LiveCacheTimeKey(ttlMs: int): int {
    var atLeast := if ttlMs < 1000 then 1000 else ttlMs;
    var ms := if atLeast < 65_000 then atLeast else 65_000;
    if ms == COLLECTOR_KEY then ms - 1 else ms
  }

  /** A live request never shares the collector's key, so by KeysDoNotInterfere it never takes
      samples away from the stored history; larger times to live never get smaller keys. */
  lemma LiveKeysAvoidCollector(ttlMs: int)
    ensures 1000 <= LiveCacheTimeKey(ttlMs) <= 65_000 && LiveCacheTimeKey(ttlMs) != COLLECTOR_KEY
    ensures LiveCacheTimeKey(LiveCacheTimeKey(ttlMs)) == LiveCacheTimeKey(ttlMs)
    ensures forall longer :: ttlMs <= longer ==> LiveCacheTimeKey(ttlMs) <= LiveCacheTimeKey(longer)
  {
  }
}
