/** What GPU readings mean over a run, in terms of the samples that were collected: the
    accumulators hold their sums, and a reading shows the latest sample beside the averages. */
module GpuReadings {
  import opened Basics
  import opened Rounding
  import opened GpuAverages

  // ----- the accumulators -----

  function SamplesOf(es: seq<Event>, id: string): seq<Sample> {
    if es == [] then []
    else
      var before := SamplesOf(es[..|es| - 1], id);
      match es[|es| - 1]
      case Collected(other, s) => if other == id then before + [s] else before
      case Query(_) => before
  }

  function TotalUsage(samples: seq<Sample>): real {
    if samples == [] then 0.0 else TotalUsage(samples[..|samples| - 1]) + samples[|samples| - 1].usage
  }

  function TotalPower(samples: seq<Sample>): real {
    if samples == [] then 0.0 else TotalPower(samples[..|samples| - 1]) + samples[|samples| - 1].power
  }

  /** An accumulator counts the GPU's samples, sums their usage and power, and otherwise shows the
      latest of them; queries change nothing about it. */
  lemma {:induction false} AccumulatorsHoldSamples(es: seq<Event>, id: string)
    ensures id in Run(es).gpus <==> SamplesOf(es, id) != []
    ensures id in Run(es).gpus ==>
              var g, samples := Run(es).gpus[id], SamplesOf(es, id);
              var last := samples[|samples| - 1];
              && g.count == |samples| && g.usage == TotalUsage(samples) && g.power == TotalPower(samples)
              && g.name == last.name && g.temperature == last.temperature
              && g.memoryUsed == last.memoryUsed && g.memoryTotal == last.memoryTotal
  {
    hide Queried;
    if es != [] {
      var before, e := es[..|es| - 1], es[|es| - 1];
      AccumulatorsHoldSamples(before, id);
      match e
      case Collected(other, s) =>
        SampleAdded(Run(before), other, s, id);
        assert (SamplesOf(before, id) + [s])[..|SamplesOf(before, id)|] == SamplesOf(before, id);
      case Query(key) =>
        SeenAfter(Run(before), key, key, id);
    }
  }

  lemma SampleAdded(st: State, other: string, s: Sample, id: string)
    ensures
      var after := AddSample(st, other, s).gpus;
      if other != id then after.Keys == st.gpus.Keys + {other} && (id in st.gpus ==> after[id] == st.gpus[id])
      else
        && id in after
        && after[id].name == s.name && after[id].temperature == s.temperature
        && after[id].memoryUsed == s.memoryUsed && after[id].memoryTotal == s.memoryTotal
        && (if id in st.gpus
            then && after[id].count == st.gpus[id].count + 1 && after[id].usage == st.gpus[id].usage + s.usage
                 && after[id].power == st.gpus[id].power + s.power
            else after[id].count == 1 && after[id].usage == s.usage && after[id].power == s.power)
  {
  }

  // ----- readings -----

  /** A query reads every GPU that was ever sampled, and shows its latest temperature and memory
      to two decimals, whether new samples arrived or not. */
  lemma ReadingShowsLatest(es: seq<Event>, key: int, id: string)
    ensures id in Reading(Run(es), key) <==> SamplesOf(es, id) != []
    ensures id in Reading(Run(es), key) ==>
              var shown, samples := Reading(Run(es), key)[id], SamplesOf(es, id);
              var last := samples[|samples| - 1];
              && shown.temperature == TwoDecimals(last.temperature)
              && shown.memoryUsed == TwoDecimals(last.memoryUsed)
              && shown.memoryTotal == TwoDecimals(last.memoryTotal)
  {
    hide Run, TwoDecimals, NameCount, AverageOf, LastSnapshot;
    AccumulatorsHoldSamples(es, id);
  }

  /** GPUs of one name are told apart by their ids. */
  lemma SharedNamesShowIds(st: State, key: int, id: string)
    requires id in st.gpus
    ensures (exists other :: other in st.gpus && other != id && st.gpus[other].name == st.gpus[id].name) ==>
              Published(st, id, key).name == st.gpus[id].name + " " + id
    ensures (forall other :: other in st.gpus && other != id ==> st.gpus[other].name != st.gpus[id].name) ==>
              Published(st, id, key).name ==
              AverageOf(st.gpus[id], LastSnapshot(st, key, id), Lookup(st.lastAvg, id)).name
    ensures TakesNew(st, key, id) ==>
              AverageOf(st.gpus[id], LastSnapshot(st, key, id), Lookup(st.lastAvg, id)).name == st.gpus[id].name
  {
    hide TwoDecimals, LastSnapshot;
    var same := set other | other in st.gpus && st.gpus[other].name == st.gpus[id].name;
    assert id in same;
    if exists other :: other in st.gpus && other != id && st.gpus[other].name == st.gpus[id].name {
      var other :| other in st.gpus && other != id && st.gpus[other].name == st.gpus[id].name;
      assert {id, other} <= same;
      SubsetIsNoLarger({id, other}, same);
    } else {
      assert same == {id};
    }
  }

  lemma SubsetIsNoLarger(a: set<string>, b: set<string>)
    requires a <= b
    ensures |a| <= |b|
  {
    assert b == a + (b - a);
  }

  /** New samples are those whose number since the key's last look is not a multiple of 2^32. */
  lemma NewSamplesInNumbers(st: State, key: int, id: string)
    requires id in st.gpus
    ensures
      var last := LastSnapshot(st, key, id);
      var seen := if last.Some? then last.value.count else 0;
      TakesNew(st, key, id) <==> (st.gpus[id].count - seen) % 4_294_967_296 != 0
  {
    hide LastSnapshot;
  }

  /** With new samples, usage and power are two-decimal numbers. Without them, a GPU that reports
      neither temperature nor memory in use reads zero, and any other one the last average that
      any key took. */
  lemma UsageAndPowerAre(es: seq<Event>, key: int, id: string)
    requires id in Run(es).gpus
    ensures
      var g, shown := Run(es).gpus[id], Published(Run(es), id, key);
      if TakesNew(Run(es), key, id) then OnGrid(shown.usage) && OnGrid(shown.power)
      else if g.temperature == 0.0 && g.memoryUsed == 0.0 then shown.usage == 0.0 && shown.power == 0.0
      else UsageAndPower(Some(shown)) == UsageAndPower(LastFresh(es, id))
  {
    hide Run, LastFresh, TwoDecimals, OnGrid, NameCount, LastSnapshot, DeltaCount;
    var st := Run(es);
    var g, last := st.gpus[id], LastSnapshot(st, key, id);
    if TakesNew(st, key, id) {
      var n := DeltaCount(g.count, last) as real;
      GridIsFixed(DeltaUsage(g, last) / n);
      GridIsFixed(DeltaPower(g, last) / n);
    } else if !(g.temperature == 0.0 && g.memoryUsed == 0.0) {
      IdleReadingIsShared(es, key, id);
    }
  }

  /** The time to live itself, kept between one second and sixty-five, except that the collector's
      own sixty seconds give way by one millisecond. */
  lemma LiveKeyInNumbers(ttlMs: int)
    ensures ttlMs <= 1000 ==> LiveCacheTimeKey(ttlMs) == 1000
    ensures 1000 <= ttlMs <= 65_000 && ttlMs != 60_000 ==> LiveCacheTimeKey(ttlMs) == ttlMs
    ensures ttlMs == 60_000 ==> LiveCacheTimeKey(ttlMs) == 59_999
    ensures ttlMs >= 65_000 ==> LiveCacheTimeKey(ttlMs) == 65_000
  {
  }
}
