/** Network rates per cache key, in 64-bit unsigned arithmetic: totals against a baseline with
    a plausibility threshold, and per-NIC deltas against the previous interval. */
module Network {
  import opened Basics
  import opened Congruence
  import opened DeltaTracking

  /** The byte counters of one network interface. */
  datatype Counters = Counters(name: string, sent: nat, recv: nat)

  /** Up and down rate in bytes per second, and the counters themselves. */
  datatype NicRates = NicRates(up: nat, down: nat, sent: nat, recv: nat)

  datatype Baseline = Baseline(sent: nat, recv: nat, time: int)

  const THRESHOLD := 10_000_000_000

  // ----- per-NIC deltas -----

  function UpKey(name: string): string {
    name + "up"
  }

  function DownKey(name: string): string {
    name + "down"
  }

  /** Tracker keys never collide between interfaces or directions. */
  lemma KeysNeverCollide(a: string, b: string)
    ensures UpKey(a) != DownKey(b)
    ensures UpKey(a) == UpKey(b) <==> a == b
    ensures DownKey(a) == DownKey(b) <==> a == b
  {
    assert UpKey(a)[|UpKey(a)| - 1] == 'p' && DownKey(b)[|DownKey(b)| - 1] == 'n';
    assert UpKey(a)[..|UpKey(a)| - 2] == a && UpKey(b)[..|UpKey(b)| - 2] == b;
    assert DownKey(a)[..|DownKey(a)| - 4] == a && DownKey(b)[..|DownKey(b)| - 4] == b;
  }

  /** The values a tracker holds after an interval's readings; a later reading of the same
      interface replaces an earlier one. */
  function Tracked(netIO: seq<Counters>, nics: set<string>): map<string, nat> {
    if netIO == [] then map[]
    else
      var v := netIO[|netIO| - 1];
      var before := Tracked(netIO[..|netIO| - 1], nics);
      if v.name in nics then before[UpKey(v.name) := v.sent][DownKey(v.name) := v.recv] else before
  }

  /** Bytes since the previous reading; a counter that went backwards was reset to zero. */
  function DeltaBytes(value: nat, previous: nat): nat {
    if value >= previous then value - previous else value
  }

  function Rate(value: nat, previous: Option<nat>, ms: nat): nat {
    if ms > 0 && previous.Some? then DeltaBytes(value, previous.value) * 1000 % U64 / ms else 0
  }

  function RatesOf(v: Counters, previous: map<string, nat>, ms: nat): NicRates {
    NicRates(Rate(v.sent, Lookup(previous, UpKey(v.name)), ms), Rate(v.recv, Lookup(previous, DownKey(v.name)), ms),
             v.sent, v.recv)
  }

  function Rates(netIO: seq<Counters>, nics: set<string>, previous: map<string, nat>, ms: nat): map<string, NicRates> {
    if netIO == [] then map[]
    else
      var v := netIO[|netIO| - 1];
      var before := Rates(netIO[..|netIO| - 1], nics, previous, ms);
      if v.name in nics then before[v.name := RatesOf(v, previous, ms)] else before
  }

  function TotalSent(netIO: seq<Counters>, nics: set<string>): nat {
    if netIO == [] then 0
    else
      var v := netIO[|netIO| - 1];
      var before := TotalSent(netIO[..|netIO| - 1], nics);
      if v.name in nics then (before + v.sent) % U64 else before
  }

  function TotalRecv(netIO: seq<Counters>, nics: set<string>): nat {
    if netIO == [] then 0
    else
      var v := netIO[|netIO| - 1];
      var before := TotalRecv(netIO[..|netIO| - 1], nics);
      if v.name in nics then (before + v.recv) % U64 else before
  }

  // ----- totals -----

  function PerSecond(total: nat, base: nat, ms: nat): nat {
    if ms > 0 then (total - base) % U64 * 1000 % U64 / ms else 0
  }

  // ----- one update -----

  /** Per cache key, the baseline of the totals and the values of the last interval. */
  datatype NetState = NetState(baselines: map<int, Baseline>, tracked: map<int, map<string, nat>>)

  const INITIAL := NetState(map[], map[])

  /** One update: the cache key, the time, the counters read and the names not filtered out. */
  datatype Update = Update(key: int, now: int, netIO: seq<Counters>, usable: set<string>)

  function NicsOf(netIO: seq<Counters>, usable: set<string>): set<string> {
    set i | 0 <= i < |netIO| && netIO[i].name in usable :: netIO[i].name
  }

  function BaselineOf(st: NetState, e: Update): Baseline {
    if e.key in st.baselines then st.baselines[e.key] else Baseline(0, 0, e.now)
  }

  function ElapsedOf(st: NetState, e: Update): nat {
    (e.now - BaselineOf(st, e).time) % U64
  }

  function PreviousOf(st: NetState, key: int): map<string, nat> {
    if key in st.tracked then st.tracked[key] else map[]
  }

  function UpBandwidth(st: NetState, e: Update): nat {
    PerSecond(TotalSent(e.netIO, NicsOf(e.netIO, e.usable)), BaselineOf(st, e).sent, ElapsedOf(st, e))
  }

  function DownBandwidth(st: NetState, e: Update): nat {
    PerSecond(TotalRecv(e.netIO, NicsOf(e.netIO, e.usable)), BaselineOf(st, e).recv, ElapsedOf(st, e))
  }

  predicate Plausible(st: NetState, e: Update) {
    UpBandwidth(st, e) <= THRESHOLD && DownBandwidth(st, e) <= THRESHOLD
  }

  function PublishedRates(st: NetState, e: Update): map<string, NicRates> {
    Rates(e.netIO, NicsOf(e.netIO, e.usable), PreviousOf(st, e.key), ElapsedOf(st, e))
  }

  /** A plausible update moves its own key's baseline and values; an implausible one clears
      those of every key. */
  function Next(st: NetState, e: Update): NetState {
    var nics := NicsOf(e.netIO, e.usable);
    if Plausible(st, e)
    then NetState(st.baselines[e.key := Baseline(TotalSent(e.netIO, nics), TotalRecv(e.netIO, nics), e.now)],
                  st.tracked[e.key := Tracked(e.netIO, nics)])
    else INITIAL
  }

  // ----- the manager -----

  class NetworkManager {
    var netInterfaces: set<string>
    var netIoStats: map<int, Baseline>
    var trackers: map<int, DeltaTracker>

    /** Every cache key has a tracker of its own. */
    ghost predicate Valid()
      reads this
    {
      forall a, b :: a in trackers && b in trackers && a != b ==> trackers[a] != trackers[b]
    }

    ghost function Abstract(): NetState
      reads this, trackers.Values
    {
      NetState(netIoStats, map k | k in trackers :: trackers[k].current)
    }

    constructor ()
      ensures Valid() && Abstract() == INITIAL && netInterfaces == {}
    {
      netInterfaces, netIoStats, trackers := {}, map[], map[];
    }

    /** The interfaces of the last reading that are not filtered out. */
    method RefreshNetInterfaces(netIO: seq<Counters>, usable: set<string>)
      modifies this`netInterfaces
      ensures netInterfaces == NicsOf(netIO, usable)
      ensures netInterfaces == set i | 0 <= i < |netIO| && netIO[i].name in usable :: netIO[i].name
      ensures Abstract() == old(Abstract())
    {
      var seen: set<string> := {};
      for i := 0 to |netIO|
        invariant seen == set j | 0 <= j < i && netIO[j].name in usable :: netIO[j].name
        invariant netInterfaces == old(netInterfaces) + seen
      {
        if netIO[i].name in usable {
          seen := seen + {netIO[i].name};
          netInterfaces := netInterfaces + {netIO[i].name};
        }
      }
      netInterfaces := netInterfaces - (netInterfaces - seen);
    }

    /** The baseline of a key and the milliseconds since it was taken. */
    method LoadAndTickNetBaseline(key: int, now: int) returns (nis: Baseline, msElapsed: nat)
      ensures nis == if key in netIoStats then netIoStats[key].(time := now) else Baseline(0, 0, now)
      ensures msElapsed == if key in netIoStats then (now - netIoStats[key].time) % U64 else 0
    {
      if key !in netIoStats {
        return Baseline(0, 0, now), 0;
      }
      nis := netIoStats[key].(time := now);
      msElapsed := (now - netIoStats[key].time) % U64;
    }

    /** The tracker of a key, a new one if need be, at the start of an interval. */
    method CycledTracker(key: int) returns (tracker: DeltaTracker)
      requires Valid()
      modifies this`trackers, trackers.Values
      ensures Valid() && key in trackers && trackers[key] == tracker && trackers.Keys == old(trackers).Keys + {key}
      ensures tracker.previous == PreviousOf(old(Abstract()), key) && tracker.current == map[]
      ensures forall k :: k in old(trackers) && k != key ==> trackers[k] == old(trackers[k]) && unchanged(trackers[k])
      ensures if key in old(trackers) then trackers == old(trackers) else fresh(tracker)
    {
      if key !in trackers {
        tracker := new DeltaTracker();
        trackers := trackers[key := tracker];
      }
      tracker := trackers[key];
      tracker.Cycle();
    }

    /** Adds up the totals and records every interface in the tracker. */
    method TrackNics(tracker: DeltaTracker, msElapsed: nat, netIO: seq<Counters>)
      returns (sent: nat, recv: nat, rates: map<string, NicRates>)
      requires tracker.current == map[]
      modifies tracker`current
      ensures tracker.current == Tracked(netIO, netInterfaces)
      ensures sent == TotalSent(netIO, netInterfaces) && recv == TotalRecv(netIO, netInterfaces)
      ensures rates == Rates(netIO, netInterfaces, tracker.previous, msElapsed)
    {
      hide RatesOf, Tracked, Rates, TotalSent, TotalRecv;
      sent, recv, rates := 0, 0, map[];
      NothingRead(netInterfaces, tracker.previous, msElapsed);
      for i := 0 to |netIO|
        invariant tracker.current == Tracked(netIO[..i], netInterfaces)
        invariant sent == TotalSent(netIO[..i], netInterfaces) && recv == TotalRecv(netIO[..i], netInterfaces)
        invariant rates == Rates(netIO[..i], netInterfaces, tracker.previous, msElapsed)
      {
        var v := netIO[i];
        ReadNext(netIO, i, netInterfaces, tracker.previous, msElapsed);
        if v.name !in netInterfaces {
          continue;
        }
        sent := (sent + v.sent) % U64;
        recv := (recv + v.recv) % U64;
        var nic := TrackNic(tracker, v, msElapsed);
        rates := rates[v.name := nic];
      }
      assert netIO[..|netIO|] == netIO;
    }

    method SumAndTrackPerNicDeltas(key: int, msElapsed: nat, netIO: seq<Counters>)
      returns (sent: nat, recv: nat, rates: map<string, NicRates>)
      requires Valid()
      modifies this`trackers, trackers.Values
      ensures Valid() && key in trackers
      ensures forall k :: k in old(trackers) && k != key ==>
                k in trackers && trackers[k] == old(trackers[k]) && unchanged(trackers[k])
      ensures key in old(trackers) ==> trackers == old(trackers)
      ensures Abstract() == old(Abstract()).(tracked := old(Abstract()).tracked[key := Tracked(netIO, netInterfaces)])
      ensures sent == TotalSent(netIO, netInterfaces) && recv == TotalRecv(netIO, netInterfaces)
      ensures rates == Rates(netIO, netInterfaces, PreviousOf(old(Abstract()), key), msElapsed)
    {
      hide Tracked, Rates, TotalSent, TotalRecv, PreviousOf;
      var tracker := CycledTracker(key);
      sent, recv, rates := TrackNics(tracker, msElapsed, netIO);
      OneTrackerMoved(key);
    }

    /** Records one interface and computes its rates against the previous interval. */
    static method TrackNic(tracker: DeltaTracker, v: Counters, msElapsed: nat) returns (nic: NicRates)
      modifies tracker`current
      ensures tracker.current == old(tracker.current)[UpKey(v.name) := v.sent][DownKey(v.name) := v.recv]
      ensures nic == RatesOf(v, tracker.previous, msElapsed)
    {
      hide Rate;
      var upKey, downKey := UpKey(v.name), DownKey(v.name);
      tracker.Set(upKey, v.sent);
      tracker.Set(downKey, v.recv);
      var upDelta := RateSince(tracker, upKey, v.sent, msElapsed);
      var downDelta := RateSince(tracker, downKey, v.recv, msElapsed);
      nic := NicRates(upDelta, downDelta, v.sent, v.recv);
    }

    static method RateSince(tracker: DeltaTracker, id: string, value: nat, msElapsed: nat) returns (rate: nat)
      ensures rate == Rate(value, Lookup(tracker.previous, id), msElapsed)
    {
      rate := 0;
      if msElapsed > 0 {
        var prev := tracker.Previous(id);
        if prev.Some? {
          var deltaBytes := if value >= prev.value then value - prev.value else value;
          rate := deltaBytes * 1000 % U64 / msElapsed;
        }
      }
    }

    /** Publishes a plausible bandwidth and moves the baseline; an implausible one is published
        as zero and clears every baseline and tracker. */
    method ApplyNetworkTotals(key: int, nis: Baseline, sent: nat, recv: nat, sentPerSecond: nat, recvPerSecond: nat,
                              reread: seq<Counters>, usable: set<string>)
      returns (up: nat, down: nat)
      requires Valid()
      modifies this
      ensures Valid()
      ensures up <= THRESHOLD && down <= THRESHOLD
      ensures sentPerSecond <= THRESHOLD && recvPerSecond <= THRESHOLD ==>
                && up == sentPerSecond && down == recvPerSecond
                && trackers == old(trackers) && netInterfaces == old(netInterfaces)
                && Abstract() == old(Abstract()).(baselines :=
                     old(Abstract()).baselines[key := Baseline(sent, recv, nis.time)])
      ensures sentPerSecond > THRESHOLD || recvPerSecond > THRESHOLD ==>
                up == 0 && down == 0 && Abstract() == INITIAL
    {
      if sentPerSecond > THRESHOLD || recvPerSecond > THRESHOLD {
        netInterfaces := {};
        RefreshNetInterfaces(reread, usable);
        trackers := map[];
        netIoStats := map[];
        return 0, 0;
      }
      up, down := sentPerSecond, recvPerSecond;
      netIoStats := netIoStats[key := nis.(sent := sent, recv := recv)];
    }

    /** One update under one cache key, as a step of the abstract state. While the bandwidth is
        plausible the trackers of all other keys stay as they are. */
    method UpdateNetworkStats(e: Update, reread: seq<Counters>)
      returns (up: nat, down: nat, rates: map<string, NicRates>)
      requires Valid()
      modifies this, trackers.Values
      ensures Valid()
      ensures Abstract() == Next(old(Abstract()), e)
      ensures rates == PublishedRates(old(Abstract()), e)
      ensures up <= THRESHOLD && down <= THRESHOLD
      ensures up == if Plausible(old(Abstract()), e) then UpBandwidth(old(Abstract()), e) else 0
      ensures down == if Plausible(old(Abstract()), e) then DownBandwidth(old(Abstract()), e) else 0
      ensures Plausible(old(Abstract()), e) ==>
                forall k :: k in old(trackers) && k != e.key ==>
                  k in trackers && trackers[k] == old(trackers[k]) && unchanged(old(trackers[k]))
    {
      hide Rates, Tracked, TotalSent, TotalRecv, PerSecond, NicsOf, NetworkManager.Abstract;
      AbstractBaselines();
      RefreshNetInterfaces(e.netIO, e.usable);
      var nis, msElapsed := LoadAndTickNetBaseline(e.key, e.now);
      var sent, recv;
      sent, recv, rates := SumAndTrackPerNicDeltas(e.key, msElapsed, e.netIO);
      var s, r := PerSecond(sent, nis.sent, msElapsed), PerSecond(recv, nis.recv, msElapsed);
      up, down := ApplyNetworkTotals(e.key, nis, sent, recv, s, r, reread, e.usable);
    }

    /** If only one key's tracker changed, so did only that key's values. */
    twostate lemma OneTrackerMoved(key: int)
      requires key in trackers && trackers.Keys == old(trackers).Keys + {key} && netIoStats == old(netIoStats)
      requires forall k :: k in old(trackers) && k != key ==>
                 trackers[k] == old(trackers[k]) && trackers[k].current == old(trackers[k].current)
      ensures Abstract() == old(Abstract()).(tracked := old(Abstract()).tracked[key := trackers[key].current])
    {
      var before, after := old(Abstract()).tracked, Abstract().tracked;
      assert after.Keys == before.Keys + {key};
      assert forall k :: k in before && k != key ==> after[k] == before[k];
      assert after == before[key := trackers[key].current];
    }

    lemma AbstractBaselines()
      ensures Abstract().baselines == netIoStats
    {
    }
  }

  lemma NothingRead(nics: set<string>, previous: map<string, nat>, ms: nat)
    ensures Tracked([], nics) == map[] && Rates([], nics, previous, ms) == map[]
    ensures TotalSent([], nics) == 0 && TotalRecv([], nics) == 0
  {
  }

  lemma ReadNext(netIO: seq<Counters>, i: nat, nics: set<string>, previous: map<string, nat>, ms: nat)
    requires i < |netIO|
    ensures
      var a, b, v := netIO[..i], netIO[..i + 1], netIO[i];
      if v.name in nics then
        && Tracked(b, nics) == Tracked(a, nics)[UpKey(v.name) := v.sent][DownKey(v.name) := v.recv]
        && Rates(b, nics, previous, ms) == Rates(a, nics, previous, ms)[v.name := RatesOf(v, previous, ms)]
        && TotalSent(b, nics) == (TotalSent(a, nics) + v.sent) % U64
        && TotalRecv(b, nics) == (TotalRecv(a, nics) + v.recv) % U64
      else
        && Tracked(b, nics) == Tracked(a, nics) && Rates(b, nics, previous, ms) == Rates(a, nics, previous, ms)
        && TotalSent(b, nics) == TotalSent(a, nics) && TotalRecv(b, nics) == TotalRecv(a, nics)
  {
    hide RatesOf;
    assert netIO[..i + 1][..i] == netIO[..i];
  }

  // ----- a drop of the totals -----

  /** Totals that drop by d wrap around, and the guard catches the wrapped rate exactly when
      -1000 d modulo 2^64 is at least ten billion and one per millisecond. */
  lemma DropIsCaughtExactlyWhen(total: nat, base: nat, d: nat, ms: nat)
    requires base < U64 && 0 < d && total + d == base && ms > 0
    ensures PerSecond(total, base, ms) > THRESHOLD <==> (-1000 * d) % U64 >= (THRESHOLD + 1) * ms
  {
    assert total - base == -(d as int);
    WrappedDrop(d);
    Quotient((-1000 * d) % U64, ms);
  }

  lemma WrappedDrop(d: int)
    requires 0 < d < U64
    ensures -d % U64 * 1000 % U64 == -1000 * d % U64
  {
    assert -d % U64 == U64 - d;
    assert (U64 - d) * 1000 == -1000 * d + 1000 * U64;
    ModPlus(-1000 * d, 1000);
  }

  lemma ModPlus(x: int, k: nat)
    ensures (x + k * U64) % U64 == x % U64
  {
    if k > 0 {
      ModPlus(x, k - 1);
      assert x + k * U64 == (x + (k - 1) * U64) + U64;
    }
  }

  lemma Quotient(x: nat, ms: nat)
    requires ms > 0
    ensures x / ms > THRESHOLD <==> x >= (THRESHOLD + 1) * ms
  {
    var q := x / ms;
    DivMod(x, ms);
    Commutes(ms, q);
    if q > THRESHOLD + 1 {
      MulOrder(THRESHOLD + 1, q, ms);
    } else if q <= THRESHOLD {
      MulOrder(q, THRESHOLD + 1, ms);
    }
  }

  lemma Commutes(a: int, b: int)
    ensures a * b == b * a
  {
  }

  /** For drops below a thousandth of the counter range: caught exactly when drop and elapsed
      time stay within the range. */
  lemma SmallDropIsCaught(total: nat, base: nat, d: nat, ms: nat)
    requires base < U64 && 0 < d && total + d == base && ms > 0
    requires 1000 * d <= U64
    ensures PerSecond(total, base, ms) > THRESHOLD <==> 1000 * d + (THRESHOLD + 1) * ms <= U64
  {
    DropIsCaughtExactlyWhen(total, base, d, ms);
    assert (-1000 * d) % U64 == if 1000 * d == U64 then 0 else U64 - 1000 * d;
    assert (THRESHOLD + 1) * ms >= THRESHOLD + 1;
  }

  /** A small drop over too long a time slips through: for this one only the elapsed time breaks
      the condition, and it is published as no traffic at all. */
  lemma LargeDropSlipsThrough()
    ensures
      var d := 18_446_744_073_709_551;
      1000 * d <= U64 && PerSecond(0, d, 1000) == 0
  {
  }

  // ----- conservation -----

  /** One interface's counter over successive intervals, with the time since the last one. */
  datatype Interval = Interval(value: nat, ms: nat)

  /** What successive intervals add up to: published bytes, bytes that passed in
      intervals without measurable time, and values lost to counter resets. */
  datatype Traffic = Traffic(counted: nat, untimed: nat, resets: nat)

  function AddInterval(t: Traffic, previous: nat, next: Interval): Traffic {
    var d := DeltaBytes(next.value, previous);
    Traffic(if next.ms > 0 then t.counted + d else t.counted,
            if next.ms > 0 then t.untimed else t.untimed + d,
            if next.value < previous then t.resets + previous else t.resets)
  }

  predicate Distinct(netIO: seq<Counters>) {
    forall i, j :: 0 <= i < j < |netIO| ==> netIO[i].name != netIO[j].name
  }

  /** With distinct names the tracker holds exactly each usable interface's own counters. */
  lemma {:induction false} TracksItself(netIO: seq<Counters>, nics: set<string>, i: nat)
    requires Distinct(netIO) && i < |netIO| && netIO[i].name in nics
    ensures Lookup(Tracked(netIO, nics), UpKey(netIO[i].name)) == Some(netIO[i].sent)
    ensures Lookup(Tracked(netIO, nics), DownKey(netIO[i].name)) == Some(netIO[i].recv)
  {
    var init, last := netIO[..|netIO| - 1], netIO[|netIO| - 1];
    KeysNeverCollide(netIO[i].name, last.name);
    KeysNeverCollide(last.name, netIO[i].name);
    if i < |init| {
      assert init[i] == netIO[i];
      TracksItself(init, nics, i);
    }
  }

  lemma {:induction false} RatesItself(netIO: seq<Counters>, nics: set<string>, previous: map<string, nat>,
                                       ms: nat, i: nat)
    requires Distinct(netIO) && i < |netIO| && netIO[i].name in nics
    ensures netIO[i].name in Rates(netIO, nics, previous, ms)
    ensures Rates(netIO, nics, previous, ms)[netIO[i].name] == RatesOf(netIO[i], previous, ms)
  {
    hide RatesOf;
    var init := netIO[..|netIO| - 1];
    if i < |init| {
      assert init[i] == netIO[i];
      RatesItself(init, nics, previous, ms, i);
    }
  }
}
