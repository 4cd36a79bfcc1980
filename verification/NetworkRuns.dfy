/** Runs of the network manager: updates under any cache keys in any order, from an empty state.
    Along every run each key's traffic of each interface is conserved from one clearing of the
    trackers to the next, whatever other keys do in between. */
module NetworkRuns {
  import opened Basics
  import opened Network

  function Run(es: seq<Update>): NetState {
    if es == [] then INITIAL else Next(Run(es[..|es| - 1]), es[|es| - 1])
  }

  // ----- conservation -----

  datatype Direction = Up | Down

  function KeyFor(name: string, dir: Direction): string {
    if dir.Up? then UpKey(name) else DownKey(name)
  }

  function CounterOf(v: Counters, dir: Direction): nat {
    if dir.Up? then v.sent else v.recv
  }

  /** The interface's counter in a reading that holds it. */
  function ValueOf(netIO: seq<Counters>, name: string, dir: Direction): nat {
    if netIO == [] then 0
    else if netIO[|netIO| - 1].name == name then CounterOf(netIO[|netIO| - 1], dir)
    else ValueOf(netIO[..|netIO| - 1], name, dir)
  }

  /** What a key holds of a counter from its last update. */
  function Held(st: NetState, key: int, name: string, dir: Direction): Option<nat> {
    Lookup(PreviousOf(st, key), KeyFor(name, dir))
  }

  /** A key's account of one counter: the value when its tracking began, and the traffic since. */
  datatype Account = Account(start: nat, traffic: Traffic)

  /** The account along a run. Tracking begins with the first update of the key that reads the
      interface, and again after every clearing and every update of the key without it. */
  function AccountOf(es: seq<Update>, key: int, name: string, dir: Direction): Option<Account> {
    if es == [] then None
    else
      var before, e := es[..|es| - 1], es[|es| - 1];
      var st := Run(before);
      if !Plausible(st, e) then None
      else if e.key != key then AccountOf(before, key, name, dir)
      else if name !in NicsOf(e.netIO, e.usable) then None
      else
        var value, previous := ValueOf(e.netIO, name, dir), Held(st, key, name, dir);
        var account := AccountOf(before, key, name, dir);
        if previous.Some? && account.Some?
        then Some(account.value.(traffic :=
                    AddInterval(account.value.traffic, previous.value, Interval(value, ElapsedOf(st, e)))))
        else Some(Account(value, Traffic(0, 0, 0)))
  }

  /** Every reading lists an interface once. */
  predicate AllDistinct(es: seq<Update>) {
    forall i :: 0 <= i < |es| ==> Distinct(es[i].netIO)
  }

  /** Every update of the key, once it has a baseline, comes after measurable time. */
  predicate Timed(es: seq<Update>, key: int) {
    es == [] ||
    var before, e := es[..|es| - 1], es[|es| - 1];
    Timed(before, key) && (e.key == key && key in Run(before).baselines ==> ElapsedOf(Run(before), e) > 0)
  }

  /** What is held is the start plus the traffic, minus what counter resets took away. */
  predicate Balanced(held: Option<nat>, account: Option<Account>) {
    && (held.Some? <==> account.Some?)
    && (account.Some? ==>
          var t := account.value.traffic;
          held.value == account.value.start + t.counted + t.untimed - t.resets)
  }

  /** Traffic is conserved over every run: what a key has counted of an interface, in either
      direction, is the rise of its counter since tracking began plus what its resets took away,
      whatever other keys do in between. */
  lemma {:induction false} NothingIsLostOverARun(es: seq<Update>, key: int, name: string, dir: Direction)
    requires AllDistinct(es)
    ensures Balanced(Held(Run(es), key, name, dir), AccountOf(es, key, name, dir))
    ensures Timed(es, key) && AccountOf(es, key, name, dir).Some? ==>
              AccountOf(es, key, name, dir).value.traffic.untimed == 0
  {
    hide Held, Next, Plausible, ElapsedOf, NicsOf, ValueOf, Balanced, AddInterval;
    if es == [] {
      NothingHeld(key, name, dir);
    } else {
      var before, e := es[..|es| - 1], es[|es| - 1];
      NothingIsLostOverARun(before, key, name, dir);
      UpdateHolds(Run(before), e, key, name, dir);
      HeldMeansBaseline(before, key, name, dir);
      Bookkeeping(Held(Run(before), key, name, dir), AccountOf(before, key, name, dir),
                  Interval(ValueOf(e.netIO, name, dir), ElapsedOf(Run(before), e)));
    }
  }

  lemma NothingHeld(key: int, name: string, dir: Direction)
    ensures Balanced(Held(INITIAL, key, name, dir), None)
  {
  }

  /** What one update leaves of a key's counter. */
  lemma UpdateHolds(st: NetState, e: Update, key: int, name: string, dir: Direction)
    requires Distinct(e.netIO)
    ensures Held(Next(st, e), key, name, dir)
         == if !Plausible(st, e) then None
            else if e.key != key then Held(st, key, name, dir)
            else if name !in NicsOf(e.netIO, e.usable) then None
            else Some(ValueOf(e.netIO, name, dir))
  {
    hide Plausible, Tracked, TotalSent, TotalRecv, ValueOf;
    TrackedValue(e.netIO, e.usable, name, dir);
  }

  lemma TrackedValue(netIO: seq<Counters>, usable: set<string>, name: string, dir: Direction)
    requires Distinct(netIO)
    ensures Lookup(Tracked(netIO, NicsOf(netIO, usable)), KeyFor(name, dir))
         == if name in NicsOf(netIO, usable) then Some(ValueOf(netIO, name, dir)) else None
  {
    hide Tracked, ValueOf;
    var nics := NicsOf(netIO, usable);
    if name in nics {
      var i :| 0 <= i < |netIO| && netIO[i].name in usable && netIO[i].name == name;
      TracksItself(netIO, nics, i);
      ValueAt(netIO, name, dir, i);
    } else {
      TracksOnlyUsable(netIO, nics, name, dir);
    }
  }

  lemma {:induction false} TracksOnlyUsable(netIO: seq<Counters>, nics: set<string>, name: string, dir: Direction)
    requires name !in nics
    ensures KeyFor(name, dir) !in Tracked(netIO, nics)
  {
    if netIO != [] {
      TracksOnlyUsable(netIO[..|netIO| - 1], nics, name, dir);
      KeysNeverCollide(name, netIO[|netIO| - 1].name);
      KeysNeverCollide(netIO[|netIO| - 1].name, name);
    }
  }

  lemma {:induction false} ValueAt(netIO: seq<Counters>, name: string, dir: Direction, i: int)
    requires Distinct(netIO) && 0 <= i < |netIO| && netIO[i].name == name
    ensures ValueOf(netIO, name, dir) == CounterOf(netIO[i], dir)
  {
    hide CounterOf;
    var init := netIO[..|netIO| - 1];
    if i < |init| {
      assert init[i] == netIO[i];
      ValueAt(init, name, dir, i);
    }
  }

  lemma {:induction false} HeldMeansBaseline(es: seq<Update>, key: int, name: string, dir: Direction)
    ensures Run(es).baselines.Keys == Run(es).tracked.Keys
    ensures Held(Run(es), key, name, dir).Some? ==> key in Run(es).baselines
  {
    hide Plausible, Tracked, TotalSent, TotalRecv, NicsOf;
    if es != [] {
      HeldMeansBaseline(es[..|es| - 1], key, name, dir);
    }
  }

  lemma Bookkeeping(held: Option<nat>, account: Option<Account>, next: Interval)
    requires Balanced(held, account)
    ensures Balanced(None, None)
    ensures
      var account' :=
        if held.Some? && account.Some?
        then Account(account.value.start, AddInterval(account.value.traffic, held.value, next))
        else Account(next.value, Traffic(0, 0, 0));
      && Balanced(Some(next.value), Some(account'))
      && (held.Some? && account.Some? && next.ms > 0 ==> account'.traffic.untimed == account.value.traffic.untimed)
      && (held.None? ==> account'.traffic.untimed == 0)
  {
  }

  /** The published rates of an interface are those of exactly the bytes that its account takes
      in: its value against what the key held of it. */
  lemma RatesAreOfTheAccount(es: seq<Update>, e: Update, name: string, dir: Direction)
    requires AllDistinct(es) && Distinct(e.netIO) && name in NicsOf(e.netIO, e.usable)
    ensures
      var st := Run(es);
      var rates, ms := PublishedRates(st, e), ElapsedOf(st, e);
      var held, value := Held(st, e.key, name, dir), ValueOf(e.netIO, name, dir);
      && name in rates
      && (if dir.Up? then rates[name].up else rates[name].down)
         == (if ms > 0 && held.Some? then DeltaBytes(value, held.value) * 1000 % U64 / ms else 0)
  {
    hide Rates, Run, ElapsedOf, ValueOf, DeltaBytes;
    var i :| 0 <= i < |e.netIO| && e.netIO[i].name in e.usable && e.netIO[i].name == name;
    RatesItself(e.netIO, NicsOf(e.netIO, e.usable), PreviousOf(Run(es), e.key), ElapsedOf(Run(es), e), i);
    ValueAt(e.netIO, name, dir, i);
  }

  /** Beside its rates an interface shows its own two counters. */
  lemma RatesShowCounters(st: NetState, e: Update, i: nat)
    requires Distinct(e.netIO) && i < |e.netIO| && e.netIO[i].name in e.usable
    ensures
      var v, rates := e.netIO[i], PublishedRates(st, e);
      v.name in rates && rates[v.name].sent == v.sent && rates[v.name].recv == v.recv
  {
    hide Rates, ElapsedOf, PreviousOf;
    RatesItself(e.netIO, NicsOf(e.netIO, e.usable), PreviousOf(st, e.key), ElapsedOf(st, e), i);
  }

  /** An interface counts if and only if it was read and is usable. */
  lemma UsableAndRead(netIO: seq<Counters>, usable: set<string>, name: string)
    ensures name in NicsOf(netIO, usable) <==> name in usable && exists i :: 0 <= i < |netIO| && netIO[i].name == name
  {
  }

  /** Only usable interfaces that were read are shown. */
  lemma {:induction false} OnlyUsableShown(netIO: seq<Counters>, nics: set<string>, previous: map<string, nat>, ms: nat,
                                           name: string)
    requires name in Rates(netIO, nics, previous, ms)
    ensures name in nics && exists i :: 0 <= i < |netIO| && netIO[i].name == name
  {
    hide RatesOf;
    var init := netIO[..|netIO| - 1];
    if name in Rates(init, nics, previous, ms) {
      OnlyUsableShown(init, nics, previous, ms, name);
      var i :| 0 <= i < |init| && init[i].name == name;
      assert netIO[i].name == name;
    } else {
      assert netIO[|netIO| - 1].name == name;
    }
  }

  // ----- totals -----

  lemma {:induction false} TotalsFit(netIO: seq<Counters>, nics: set<string>)
    ensures TotalSent(netIO, nics) < U64 && TotalRecv(netIO, nics) < U64
  {
    if netIO != [] {
      TotalsFit(netIO[..|netIO| - 1], nics);
    }
  }

  /** The totals are the sums over the usable interfaces modulo 2^64, bytes sent and received
      apart, whatever the order of the reading. */
  lemma {:induction false} TotalsAreSums(v: Counters, rest: seq<Counters>, nics: set<string>)
    ensures TotalSent([], nics) == 0 && TotalRecv([], nics) == 0
    ensures TotalSent([v] + rest, nics) == ((if v.name in nics then v.sent else 0) + TotalSent(rest, nics)) % U64
    ensures TotalRecv([v] + rest, nics) == ((if v.name in nics then v.recv else 0) + TotalRecv(rest, nics)) % U64
  {
    var all := [v] + rest;
    if rest == [] {
      assert all == [v] && all[..0] == [];
    } else {
      var init, last := rest[..|rest| - 1], rest[|rest| - 1];
      assert all[..|all| - 1] == [v] + init && all[|all| - 1] == last;
      TotalsAreSums(v, init, nics);
      TotalsFit(init, nics);
      ModSum(if v.name in nics then v.sent else 0, TotalSent(init, nics), last.sent);
      ModSum(if v.name in nics then v.recv else 0, TotalRecv(init, nics), last.recv);
    }
  }

  lemma ModSum(a: nat, b: nat, c: nat)
    ensures ((a + b) % U64 + c) % U64 == (a + (b + c) % U64) % U64
  {
    ModKeeps(a + b, c);
    ModKeeps(b + c, a);
  }

  lemma ModKeeps(x: nat, y: nat)
    ensures (x % U64 + y) % U64 == (x + y) % U64
  {
  }

  /** Bandwidth in plain numbers: up from the bytes sent, down from the bytes received, against
      the key's baseline; nothing at a key's first update. */
  lemma BandwidthInNumbers(st: NetState, e: Update)
    ensures
      var nics := NicsOf(e.netIO, e.usable);
      if e.key in st.baselines then
        var base := st.baselines[e.key];
        var ms := (e.now - base.time) % U64;
        && UpBandwidth(st, e) == PerSecond(TotalSent(e.netIO, nics), base.sent, ms)
        && DownBandwidth(st, e) == PerSecond(TotalRecv(e.netIO, nics), base.recv, ms)
      else UpBandwidth(st, e) == 0 && DownBandwidth(st, e) == 0
    ensures Plausible(st, e) <==> UpBandwidth(st, e) <= 10_000_000_000 && DownBandwidth(st, e) <= 10_000_000_000
  {
    hide TotalSent, TotalRecv, NicsOf;
  }

  /** A rise of the total is published as whole bytes per second, a drop as if it had gone all the
      way around. */
  lemma PerSecondInNumbers(total: nat, base: nat, ms: nat)
    requires total < U64 && base < U64 && ms > 0
    ensures base <= total && (total - base) * 1000 < U64 ==> PerSecond(total, base, ms) == (total - base) * 1000 / ms
    ensures total < base ==> PerSecond(total, base, ms) == (U64 - (base - total)) * 1000 % U64 / ms
    ensures PerSecond(total, base, 0) == 0
  {
    assert total < base ==> (total - base) % U64 == U64 - (base - total);
    assert base <= total ==> (total - base) % U64 == total - base;
  }

  // ----- other keys -----

  /** The run without the updates of other keys. */
  function OnlyKey(es: seq<Update>, key: int): seq<Update> {
    if es == [] then []
    else
      var before, e := OnlyKey(es[..|es| - 1], key), es[|es| - 1];
      if e.key == key then before + [e] else before
  }

  /** No update under another key clears the trackers. */
  predicate OthersPlausible(es: seq<Update>, key: int) {
    es == [] ||
    var before, e := es[..|es| - 1], es[|es| - 1];
    OthersPlausible(before, key) && (e.key != key ==> Plausible(Run(before), e))
  }

  /** What a key has at hand. */
  function View(st: NetState, key: int): (Option<Baseline>, Option<map<string, nat>>) {
    (Lookup(st.baselines, key), Lookup(st.tracked, key))
  }

  /** A key is in step with the run of its own updates alone: another key's clearing takes it out
      of step unless it has nothing to lose, and its own next update that is plausible in both
      runs, or in neither, brings it back. */
  predicate InStep(es: seq<Update>, key: int) {
    es == [] ||
    var before, e := es[..|es| - 1], es[|es| - 1];
    var alone := Run(OnlyKey(before, key));
    if e.key == key then Plausible(Run(before), e) <==> Plausible(alone, e)
    else if Plausible(Run(before), e) then InStep(before, key)
    else View(alone, key) == (None, None)
  }

  /** Exactly when a key's baseline and values are those of its own updates alone. */
  lemma {:induction false} InStepExactlyWhen(es: seq<Update>, key: int)
    ensures View(Run(es), key) == View(Run(OnlyKey(es, key)), key) <==> InStep(es, key)
  {
    hide Next, Plausible, View;
    if es != [] {
      var before, e := es[..|es| - 1], es[|es| - 1];
      InStepExactlyWhen(before, key);
      var only := OnlyKey(before, key);
      if e.key == key {
        assert (only + [e])[..|only|] == only;
        OwnUpdate(Run(before), Run(only), e);
      } else {
        OtherUpdate(Run(before), e, key);
      }
    }
  }

  /** What a key publishes next is the same in two states. */
  ghost predicate PublishesAlike(a: NetState, b: NetState, key: int) {
    forall e: Update :: e.key == key ==>
      && (Plausible(a, e) <==> Plausible(b, e))
      && PublishedRates(a, e) == PublishedRates(b, e)
      && UpBandwidth(a, e) == UpBandwidth(b, e)
      && DownBandwidth(a, e) == DownBandwidth(b, e)
  }

  lemma SameViewPublishesAlike(a: NetState, b: NetState, key: int)
    requires View(a, key) == View(b, key)
    ensures PublishesAlike(a, b, key)
  {
    hide Plausible, View, PublishedRates, UpBandwidth, DownBandwidth;
    forall e: Update | e.key == key
      ensures
        && (Plausible(a, e) <==> Plausible(b, e))
        && PublishedRates(a, e) == PublishedRates(b, e)
        && UpBandwidth(a, e) == UpBandwidth(b, e)
        && DownBandwidth(a, e) == DownBandwidth(b, e)
    {
      SameView(a, b, e);
    }
  }

  /** A key in step publishes next what it would publish without all other keys. */
  lemma InStepPublishesAlike(es: seq<Update>, key: int)
    requires InStep(es, key)
    ensures PublishesAlike(Run(es), Run(OnlyKey(es, key)), key)
  {
    hide InStep, Run, View, PublishesAlike;
    InStepExactlyWhen(es, key);
    SameViewPublishesAlike(Run(es), Run(OnlyKey(es, key)), key);
  }

  /** In particular a key is in step as long as no other key clears the trackers. */
  lemma {:induction false} KeysDoNotInterfere(es: seq<Update>, key: int)
    requires OthersPlausible(es, key)
    ensures InStep(es, key)
    ensures View(Run(es), key) == View(Run(OnlyKey(es, key)), key)
    ensures PublishesAlike(Run(es), Run(OnlyKey(es, key)), key)
  {
    hide Next, Plausible, View, PublishesAlike;
    if es != [] {
      var before, e := es[..|es| - 1], es[|es| - 1];
      KeysDoNotInterfere(before, key);
      if e.key == key {
        SameView(Run(before), Run(OnlyKey(before, key)), e);
      }
    }
    InStepExactlyWhen(es, key);
    SameViewPublishesAlike(Run(es), Run(OnlyKey(es, key)), key);
  }

  lemma SameView(a: NetState, b: NetState, e: Update)
    requires View(a, e.key) == View(b, e.key)
    ensures BaselineOf(a, e) == BaselineOf(b, e) && PreviousOf(a, e.key) == PreviousOf(b, e.key)
    ensures Plausible(a, e) <==> Plausible(b, e)
    ensures PublishedRates(a, e) == PublishedRates(b, e)
    ensures UpBandwidth(a, e) == UpBandwidth(b, e) && DownBandwidth(a, e) == DownBandwidth(b, e)
  {
    hide Rates, TotalSent, TotalRecv, NicsOf, PerSecond;
  }

  /** After a key's own update its view depends on nothing but the update's plausibility. */
  lemma OwnUpdate(a: NetState, b: NetState, e: Update)
    ensures View(Next(a, e), e.key) == View(Next(b, e), e.key) <==> (Plausible(a, e) <==> Plausible(b, e))
  {
    hide Plausible, Tracked, TotalSent, TotalRecv, NicsOf, View;
    UpdatedView(a, e);
    UpdatedView(b, e);
  }

  lemma UpdatedView(st: NetState, e: Update)
    ensures
      var nics := NicsOf(e.netIO, e.usable);
      View(Next(st, e), e.key) ==
      if Plausible(st, e)
      then (Some(Baseline(TotalSent(e.netIO, nics), TotalRecv(e.netIO, nics), e.now)), Some(Tracked(e.netIO, nics)))
      else (None, None)
  {
    hide Plausible, Tracked, TotalSent, TotalRecv, NicsOf;
  }

  lemma OtherUpdate(st: NetState, e: Update, key: int)
    requires e.key != key
    ensures View(Next(st, e), key) == if Plausible(st, e) then View(st, key) else (None, None)
  {
    hide Plausible, Tracked, TotalSent, TotalRecv, NicsOf;
  }

  // ----- a run on which keys do interfere -----

  /** A reading of one interface at a time, under a key. */
  function Read(key: int, now: int, sent: nat): Update {
    Update(key, now, [Counters("a", sent, 0)], {"a"})
  }

  lemma OneInterface(sent: nat)
    ensures
      var netIO, nics := [Counters("a", sent, 0)], NicsOf([Counters("a", sent, 0)], {"a"});
      && nics == {"a"}
      && TotalSent(netIO, nics) == sent % U64 && TotalRecv(netIO, nics) == 0
      && Tracked(netIO, nics) == map[UpKey("a") := sent][DownKey("a") := 0]
  {
    var netIO := [Counters("a", sent, 0)];
    assert netIO[..0] == [];
    assert NicsOf(netIO, {"a"}) == {"a"} by {
      assert netIO[0].name == "a";
    }
  }

  /** One reading as a step: its bandwidth against the key's baseline, and its new values. */
  lemma ReadStep(st: NetState, key: int, now: int, sent: nat)
    requires sent < U64
    ensures
      var e := Read(key, now, sent);
      && UpBandwidth(st, e) == PerSecond(sent, BaselineOf(st, e).sent, ElapsedOf(st, e))
      && (BaselineOf(st, e).recv == 0 ==> DownBandwidth(st, e) == 0)
      && Next(st, e) == if Plausible(st, e)
                        then NetState(st.baselines[key := Baseline(sent, 0, now)],
                                      st.tracked[key := map[UpKey("a") := sent][DownKey("a") := 0]])
                        else INITIAL
  {
    hide Tracked, TotalSent, TotalRecv, NicsOf, PerSecond, Plausible, ElapsedOf, BaselineOf, UpKey, DownKey;
    OneInterface(sent);
    NoTraffic(ElapsedOf(st, Read(key, now, sent)));
  }

  lemma NoTraffic(ms: nat)
    ensures PerSecond(0, 0, ms) == 0
  {
  }

  lemma RunNext(es: seq<Update>, e: Update)
    ensures Run(es + [e]) == Next(Run(es), e)
    ensures forall key :: OnlyKey(es + [e], key) == if e.key == key then OnlyKey(es, key) + [e] else OnlyKey(es, key)
  {
    hide Next;
    assert (es + [e])[..|es|] == es;
  }

  /** Key 2 reads a counter that was reset. Its wrapped rate clears all keys, so key 1's next
      update publishes no traffic, where on its own it would publish 500 bytes per second. */
  lemma ClearedByAnotherKey()
    ensures
      var es := [Read(1, 0, 5000), Read(2, 0, 5000), Read(2, 1000, 0)];
      var e := Read(1, 2000, 6000);
      && View(Run(es), 1) == (None, None)
      && View(Run(OnlyKey(es, 1)), 1).0 == Some(Baseline(5000, 0, 0))
      && UpBandwidth(Run(es), e) == 0 && UpBandwidth(Run(OnlyKey(es, 1)), e) == 500
  {
    hide Run, OnlyKey, Next, PerSecond, UpBandwidth, DownBandwidth, Read;
    var values := map[UpKey("a") := 5000][DownKey("a") := 0];
    var b := Baseline(5000, 0, 0);
    EmptyRun(1);
    var one, two, three := Read(1, 0, 5000), Read(2, 0, 5000), Read(2, 1000, 0);
    var e := Read(1, 2000, 6000);
    ReadIs(1, 0, 5000);
    ReadIs(2, 0, 5000);
    ReadIs(2, 1000, 0);
    ReadIs(1, 2000, 6000);
    Bandwidths();
    RunNext([], one);
    ReadStep(INITIAL, 1, 0, 5000);
    var st1 := NetState(map[1 := b], map[1 := values]);
    assert Run([] + [one]) == st1;
    RunNext([] + [one], two);
    ReadStep(st1, 2, 0, 5000);
    var st2 := NetState(map[1 := b, 2 := b], map[1 := values, 2 := values]);
    assert Run([] + [one] + [two]) == st2;
    RunNext([] + [one] + [two], three);
    ReadStep(st2, 2, 1000, 0);
    assert Run([] + [one] + [two] + [three]) == INITIAL;
    assert [] + [one] + [two] + [three] == [one, two, three];
    assert OnlyKey([one, two, three], 1) == [] + [one];
    ReadStep(INITIAL, 1, 2000, 6000);
    ReadStep(st1, 1, 2000, 6000);
  }

  lemma ReadIs(key: int, now: int, sent: nat)
    ensures Read(key, now, sent).key == key && Read(key, now, sent).now == now
  {
  }

  lemma EmptyRun(key: int)
    ensures Run([]) == INITIAL && OnlyKey([], key) == []
  {
  }

  lemma Bandwidths()
    ensures PerSecond(5000, 0, 0) == 0 && PerSecond(6000, 0, 0) == 0
    ensures PerSecond(6000, 5000, 2000) == 500
    ensures PerSecond(0, 5000, 1000) > THRESHOLD
  {
    SmallDropIsCaught(0, 5000, 5000, 1000);
  }
}
