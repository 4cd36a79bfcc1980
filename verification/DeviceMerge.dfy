/** Reconciling SMART devices: the known devices, a fresh scan and the configured list are
    merged by (name, type), with a fallback to names that occur only once. */
module DeviceMerge {
  import opened Basics
  import opened Text

  datatype Device = Device(name: string, devType: string, infoName: string, protocol: string,
                           verified: bool, parserType: string)

  datatype DeviceKey = DeviceKey(name: string, devType: string)

  function KeyOf(d: Device): DeviceKey {
    DeviceKey(d.name, d.devType)
  }

  function NormalizeParserType(value: string): string {
    var v := ToLower(TrimSpace(value));
    if v in ["nvme", "sntasmedia", "sntrealtek"] then "nvme"
    else if v in ["sat", "ata"] then "sat"
    else v
  }

  // ----- indexes -----

  function NameCount(ds: seq<Device>, n: string): nat {
    if ds == [] then 0
    else NameCount(ds[..|ds| - 1], n) + (if ds[|ds| - 1].name == n then 1 else 0)
  }

  /** The positions of the names that occur exactly once. */
  function UniqueIndex(ds: seq<Device>): map<string, nat> {
    map n | n in NameSet(ds) && NameCount(ds, n) == 1 :: LastAt(ds, n)
  }

  function NameSet(ds: seq<Device>): set<string> {
    set i | 0 <= i < |ds| :: ds[i].name
  }

  function LastAt(ds: seq<Device>, n: string): (i: nat)
    requires n in NameSet(ds)
    ensures i < |ds| && ds[i].name == n
  {
    if ds[|ds| - 1].name == n then |ds| - 1
    else
      assert n in NameSet(ds[..|ds| - 1]) by {
        var i :| 0 <= i < |ds| && ds[i].name == n;
        assert ds[..|ds| - 1][i].name == n;
      }
      LastAt(ds[..|ds| - 1], n)
  }

  /** Later devices replace earlier ones under the same key. */
  function KeyIndex(ds: seq<Device>): (m: map<DeviceKey, nat>)
    ensures forall k :: k in m ==> m[k] < |ds| && KeyOf(ds[m[k]]) == k
  {
    if ds == [] then map[]
    else KeyIndex(ds[..|ds| - 1])[KeyOf(ds[|ds| - 1]) := |ds| - 1]
  }

  // ----- adopting what is known about a device -----

  /** The known device that a new one is matched with: by key, else by a unique name. */
  function MatchOf(existing: seq<Device>, d: Device): (r: Option<Device>)
    ensures r.Some? ==> r.value in existing && r.value.name == d.name
  {
    if KeyOf(d) in KeyIndex(existing) then Some(existing[KeyIndex(existing)[KeyOf(d)]])
    else if d.name in UniqueIndex(existing) then Some(existing[UniqueIndex(existing)[d.name]])
    else None
  }

  lemma {:induction false} CountedNames(ds: seq<Device>, n: string)
    ensures NameCount(ds, n) > 0 <==> n in NameSet(ds)
  {
    if ds != [] {
      var init := ds[..|ds| - 1];
      CountedNames(init, n);
      assert forall i :: 0 <= i < |init| ==> init[i] == ds[i];
    }
  }

  predicate HasKey(ds: seq<Device>, k: DeviceKey) {
    exists i :: 0 <= i < |ds| && KeyOf(ds[i]) == k
  }

  /** The last device under the key. */
  predicate LastUnder(ds: seq<Device>, k: DeviceKey, i: nat) {
    i < |ds| && KeyOf(ds[i]) == k && forall j :: i < j < |ds| ==> KeyOf(ds[j]) != k
  }

  lemma {:induction false} KeyIndexMeans(ds: seq<Device>, k: DeviceKey)
    ensures k in KeyIndex(ds) <==> HasKey(ds, k)
    ensures k in KeyIndex(ds) ==> LastUnder(ds, k, KeyIndex(ds)[k])
  {
    if ds != [] {
      var init := ds[..|ds| - 1];
      KeyIndexMeans(init, k);
      assert forall i :: 0 <= i < |init| ==> init[i] == ds[i];
    }
  }

  /** A device is matched with the last known one of its name and type, else with the only known
      one of its name, else with none. */
  lemma MatchMeans(existing: seq<Device>, d: Device)
    ensures MatchOf(existing, d).Some? <==> HasKey(existing, KeyOf(d)) || NameCount(existing, d.name) == 1
    ensures HasKey(existing, KeyOf(d)) ==>
              exists i: nat :: LastUnder(existing, KeyOf(d), i) && MatchOf(existing, d) == Some(existing[i])
    ensures MatchOf(existing, d).Some? ==> MatchOf(existing, d).value in existing
    ensures MatchOf(existing, d).Some? ==> MatchOf(existing, d).value.name == d.name
  {
    hide NameCount, KeyIndex;
    KeyIndexMeans(existing, KeyOf(d));
    CountedNames(existing, d.name);
  }

  function Preserve(target: Device, prev: Device): Device {
    if prev.verified then target.(devType := prev.devType, verified := true, parserType := prev.parserType)
    else target
  }

  function AdoptScanned(existing: seq<Device>, d: Device): Device {
    match MatchOf(existing, d)
    case Some(prev) => Preserve(d, prev)
    case None => d
  }

  function AdoptConfigured(existing: seq<Device>, d: Device): Device {
    match MatchOf(existing, d)
    case Some(prev) => Preserve(d, prev)
    case None => if d.devType != "" then d.(parserType := NormalizeParserType(d.devType)) else d
  }

  /** Configured values override a merged device, except its type once that is verified. */
  function Override(d: Device, c: Device): Device {
    var typed :=
      if c.devType != "" && !d.verified
      then d.(devType := TrimSpace(c.devType), parserType := NormalizeParserType(TrimSpace(c.devType)))
      else d;
    var named := if c.infoName != "" then typed.(infoName := c.infoName) else typed;
    if c.protocol != "" then named.(protocol := c.protocol) else named
  }

  // ----- the merge -----

  /** The merged devices so far, and which of them each key stands for. */
  datatype Merging = Merging(devs: seq<Device>, index: map<DeviceKey, nat>)

  const NOTHING := Merging([], map[])

  predicate Sound(m: Merging, byName: map<string, nat>) {
    && (forall k :: k in m.index ==> m.index[k] < |m.devs| && m.devs[m.index[k]].name == k.name)
    && (forall n :: n in byName ==> byName[n] < |m.devs| && m.devs[byName[n]].name == n)
  }

  function Append(m: Merging, d: Device): Merging {
    Merging(m.devs + [d], m.index[KeyOf(d) := |m.devs|])
  }

  function Scan(existing: seq<Device>, scanned: seq<Device>): (m: Merging)
    ensures Sound(m, map[]) && |m.devs| == |scanned|
  {
    if scanned == [] then NOTHING
    else Append(Scan(existing, scanned[..|scanned| - 1]), AdoptScanned(existing, scanned[|scanned| - 1]))
  }

  function OverrideAt(m: Merging, i: nat, c: Device): Merging
    requires i < |m.devs|
  {
    m.(devs := m.devs[i := Override(m.devs[i], c)])
  }

  function Configure1(existing: seq<Device>, byName: map<string, nat>, m: Merging, c: Device): (m': Merging)
    requires Sound(m, byName)
    ensures Sound(m', byName)
  {
    if KeyOf(c) in m.index then OverrideAt(m, m.index[KeyOf(c)], c)
    else if c.name in byName then OverrideAt(m, byName[c.name], c)
    else Append(m, AdoptConfigured(existing, c))
  }

  function Configure(existing: seq<Device>, byName: map<string, nat>, m: Merging, configured: seq<Device>)
    : (m': Merging)
    requires Sound(m, byName)
    ensures Sound(m', byName)
  {
    if configured == [] then m
    else Configure1(existing, byName, Configure(existing, byName, m, configured[..|configured| - 1]),
                    configured[|configured| - 1])
  }

  function MergeNamed(existing: seq<Device>, scanned: seq<Device>, configured: seq<Device>): seq<Device> {
    var scan := Scan(existing, scanned);
    Configure(existing, UniqueIndex(scan.devs), scan, configured).devs
  }

  /** A list slot: a nil pointer or a device. */
  type Slot = Option<Device>

  predicate Named(s: Slot) {
    s.Some? && s.value.name != ""
  }

  function NamedOf(vs: seq<Slot>): (ds: seq<Device>)
    ensures forall d :: d in ds ==> d.name != ""
  {
    if vs == [] then []
    else NamedOf(vs[..|vs| - 1]) + (if Named(vs[|vs| - 1]) then [vs[|vs| - 1].value] else [])
  }

  function Slots(ds: seq<Device>): (vs: seq<Slot>)
    ensures |vs| == |ds| && forall i :: 0 <= i < |ds| ==> vs[i] == Some(ds[i])
  {
    seq(|ds|, i requires 0 <= i < |ds| => Some(ds[i]))
  }

  function Merge(existing: seq<Slot>, scanned: seq<Slot>, configured: seq<Slot>): seq<Slot> {
    if scanned == [] && configured == [] then existing
    else Slots(MergeNamed(NamedOf(existing), NamedOf(scanned), NamedOf(configured)))
  }

  // ----- what the merge promises -----

  /** The device is still the same one, and verified exactly as before. */
  predicate Continues(d: Device, d': Device) {
    && d'.name == d.name
    && d'.verified == d.verified
    && (d.verified ==> d'.devType == d.devType && d'.parserType == d.parserType)
  }

  /** A verified status, type and parser are somebody's among the known devices. */
  predicate Vouched(existing: seq<Device>, d: Device) {
    d.verified ==>
      exists e :: e in existing && e.verified &&
                  e.name == d.name && e.devType == d.devType && e.parserType == d.parserType
  }

  predicate NoneVerified(ds: seq<Device>) {
    forall d :: d in ds ==> !d.verified
  }

  lemma OverrideContinues(d: Device, c: Device)
    ensures Continues(d, Override(d, c))
  {
  }

  lemma {:induction false} ConfigureKeeps(existing: seq<Device>, byName: map<string, nat>, m: Merging,
                                          configured: seq<Device>)
    requires Sound(m, byName)
    ensures
      var m' := Configure(existing, byName, m, configured);
      && |m.devs| <= |m'.devs| <= |m.devs| + |configured|
      && (forall i :: 0 <= i < |m.devs| ==> Continues(m.devs[i], m'.devs[i]))
  {
    hide Configure1, Continues;
    if configured == [] {
      forall i | 0 <= i < |m.devs|
        ensures Continues(m.devs[i], m.devs[i])
      {
        ContinuesItself(m.devs[i]);
      }
    } else {
      var before := Configure(existing, byName, m, configured[..|configured| - 1]);
      ConfigureKeeps(existing, byName, m, configured[..|configured| - 1]);
      Configure1Keeps(existing, byName, before, configured[|configured| - 1]);
      var after := Configure(existing, byName, m, configured);
      forall i | 0 <= i < |m.devs|
        ensures Continues(m.devs[i], after.devs[i])
      {
        ContinuesOn(m.devs[i], before.devs[i], after.devs[i]);
      }
    }
  }

  lemma ContinuesItself(d: Device)
    ensures Continues(d, d)
  {
  }

  lemma ContinuesOn(a: Device, b: Device, c: Device)
    requires Continues(a, b) && Continues(b, c)
    ensures Continues(a, c)
  {
  }

  lemma Configure1Keeps(existing: seq<Device>, byName: map<string, nat>, m: Merging, c: Device)
    requires Sound(m, byName)
    ensures
      var m' := Configure1(existing, byName, m, c);
      && |m.devs| <= |m'.devs| <= |m.devs| + 1
      && (forall i :: 0 <= i < |m.devs| ==> Continues(m.devs[i], m'.devs[i]))
  {
    hide AdoptConfigured, Override, Continues;
    forall i | 0 <= i < |m.devs|
      ensures Continues(m.devs[i], Configure1(existing, byName, m, c).devs[i])
    {
      ContinuesItself(m.devs[i]);
      OverrideContinues(m.devs[i], c);
    }
  }

  lemma {:induction false} ScanAdopts(existing: seq<Device>, scanned: seq<Device>)
    ensures
      var m := Scan(existing, scanned);
      forall i :: 0 <= i < |scanned| ==> m.devs[i] == AdoptScanned(existing, scanned[i])
  {
    hide AdoptScanned, Sound, Scan;
    if scanned != [] {
      var init := scanned[..|scanned| - 1];
      ScanAdopts(existing, init);
      ScanAppends(existing, scanned);
      assert forall i :: 0 <= i < |init| ==> init[i] == scanned[i];
    }
  }

  lemma ScanAppends(existing: seq<Device>, scanned: seq<Device>)
    requires scanned != []
    ensures Scan(existing, scanned).devs
         == Scan(existing, scanned[..|scanned| - 1]).devs + [AdoptScanned(existing, scanned[|scanned| - 1])]
  {
    hide AdoptScanned, Sound;
  }

  /** Scanned devices come first and in order, and the configured list has no say in what is
      verified about them: a device whose known match is verified keeps that type and parser. */
  lemma NeverDowngrades(existing: seq<Device>, scanned: seq<Device>, configured: seq<Device>)
    requires NoneVerified(scanned)
    ensures
      var merged := MergeNamed(existing, scanned, configured);
      && |scanned| <= |merged| <= |scanned| + |configured|
      && (forall i :: 0 <= i < |scanned| ==>
            && merged[i].name == scanned[i].name
            && (merged[i].verified <==>
                  MatchOf(existing, scanned[i]).Some? && MatchOf(existing, scanned[i]).value.verified)
            && (merged[i].verified ==>
                  && merged[i].devType == MatchOf(existing, scanned[i]).value.devType
                  && merged[i].parserType == MatchOf(existing, scanned[i]).value.parserType))
  {
    hide MatchOf, Configure, UniqueIndex, Sound;
    var scan := Scan(existing, scanned);
    ScanIsSound(existing, scanned);
    ScanAdopts(existing, scanned);
    ConfigureKeeps(existing, UniqueIndex(scan.devs), scan, configured);
    forall i | 0 <= i < |scanned|
      ensures !scanned[i].verified
    {
      assert scanned[i] in scanned;
    }
  }

  lemma UniqueIndexIsSound(ds: seq<Device>)
    ensures forall n :: n in UniqueIndex(ds) ==> UniqueIndex(ds)[n] < |ds| && ds[UniqueIndex(ds)[n]].name == n
  {
  }

  lemma ScanIsSound(existing: seq<Device>, scanned: seq<Device>)
    ensures var scan := Scan(existing, scanned); Sound(scan, UniqueIndex(scan.devs))
  {
    hide UniqueIndex, AdoptScanned;
    UniqueIndexIsSound(Scan(existing, scanned).devs);
  }

  lemma AdoptedIsVouched(existing: seq<Device>, d: Device)
    requires !d.verified
    ensures Vouched(existing, AdoptScanned(existing, d)) && Vouched(existing, AdoptConfigured(existing, d))
    ensures AdoptScanned(existing, d).name == d.name && AdoptConfigured(existing, d).name == d.name
  {
    hide KeyIndex, UniqueIndex;
  }

  predicate AllVouched(existing: seq<Device>, ds: seq<Device>) {
    forall i :: 0 <= i < |ds| ==> Vouched(existing, ds[i])
  }

  lemma {:induction false} ConfigureVouches(existing: seq<Device>, byName: map<string, nat>, m: Merging,
                                            configured: seq<Device>)
    requires Sound(m, byName) && NoneVerified(configured) && AllVouched(existing, m.devs)
    ensures AllVouched(existing, Configure(existing, byName, m, configured).devs)
  {
    hide Configure1, Vouched;
    if configured != [] {
      var init, c := configured[..|configured| - 1], configured[|configured| - 1];
      assert forall d :: d in init ==> d in configured;
      ConfigureVouches(existing, byName, m, init);
      Configure1Vouches(existing, byName, Configure(existing, byName, m, init), c);
    }
  }

  lemma Configure1Vouches(existing: seq<Device>, byName: map<string, nat>, m: Merging, c: Device)
    requires Sound(m, byName) && !c.verified && AllVouched(existing, m.devs)
    ensures AllVouched(existing, Configure1(existing, byName, m, c).devs)
  {
    hide AdoptConfigured, Override, Vouched;
    AdoptedIsVouched(existing, c);
    forall i | 0 <= i < |m.devs|
      ensures Vouched(existing, Override(m.devs[i], c))
    {
      OverrideContinues(m.devs[i], c);
      ContinuesVouched(existing, m.devs[i], Override(m.devs[i], c));
    }
  }

  lemma ContinuesVouched(existing: seq<Device>, d: Device, d': Device)
    requires Vouched(existing, d) && Continues(d, d')
    ensures Vouched(existing, d')
  {
  }

  /** No verification is invented. */
  lemma NeverInventsVerification(existing: seq<Device>, scanned: seq<Device>, configured: seq<Device>)
    requires NoneVerified(scanned) && NoneVerified(configured)
    ensures AllVouched(existing, MergeNamed(existing, scanned, configured))
  {
    hide AdoptScanned, UniqueIndex, Configure, Vouched, Sound;
    var scan := Scan(existing, scanned);
    ScanIsSound(existing, scanned);
    ScanAdopts(existing, scanned);
    forall i | 0 <= i < |scanned|
      ensures Vouched(existing, scan.devs[i])
    {
      assert scanned[i] in scanned;
      AdoptedIsVouched(existing, scanned[i]);
    }
    ConfigureVouches(existing, UniqueIndex(scan.devs), scan, configured);
  }

  predicate HasName(ds: seq<Device>, n: string) {
    exists i :: 0 <= i < |ds| && ds[i].name == n
  }

  lemma {:induction false} ConfigureNames(existing: seq<Device>, byName: map<string, nat>, m: Merging,
                                          configured: seq<Device>, n: string)
    requires Sound(m, byName)
    ensures HasName(Configure(existing, byName, m, configured).devs, n)
       <==> HasName(m.devs, n) || HasName(configured, n)
  {
    hide AdoptConfigured, Override;
    if configured != [] {
      var init, c := configured[..|configured| - 1], configured[|configured| - 1];
      ConfigureNames(existing, byName, m, init, n);
      NamesOfLast(configured, n);
      Configure1Names(existing, byName, Configure(existing, byName, m, init), c, n);
    }
  }

  lemma NamesOfLast(ds: seq<Device>, n: string)
    requires ds != []
    ensures HasName(ds, n) <==> HasName(ds[..|ds| - 1], n) || ds[|ds| - 1].name == n
  {
    var init := ds[..|ds| - 1];
    assert forall i :: 0 <= i < |init| ==> init[i] == ds[i];
  }

  lemma Configure1Names(existing: seq<Device>, byName: map<string, nat>, m: Merging, c: Device, n: string)
    requires Sound(m, byName)
    ensures HasName(Configure1(existing, byName, m, c).devs, n) <==> HasName(m.devs, n) || c.name == n
  {
    hide AdoptConfigured, Override, AdoptScanned;
    var m' := Configure1(existing, byName, m, c);
    if KeyOf(c) in m.index || c.name in byName {
      var i := if KeyOf(c) in m.index then m.index[KeyOf(c)] else byName[c.name];
      OverrideContinues(m.devs[i], c);
      SameNames(m.devs, m'.devs, n);
      assert m.devs[i].name == c.name;
    } else {
      AdoptKeepsName(existing, c);
      NamesOfLast(m'.devs, n);
      assert m'.devs[..|m'.devs| - 1] == m.devs;
    }
  }

  lemma SameNames(a: seq<Device>, b: seq<Device>, n: string)
    requires |a| == |b| && forall i :: 0 <= i < |a| ==> a[i].name == b[i].name
    ensures HasName(a, n) <==> HasName(b, n)
  {
  }

  lemma AdoptKeepsName(existing: seq<Device>, d: Device)
    ensures AdoptConfigured(existing, d).name == d.name && AdoptScanned(existing, d).name == d.name
  {
  }

  /** The merged list names exactly the scanned and the configured devices. */
  lemma MergedNames(existing: seq<Device>, scanned: seq<Device>, configured: seq<Device>, n: string)
    ensures HasName(MergeNamed(existing, scanned, configured), n) <==> HasName(scanned, n) || HasName(configured, n)
  {
    hide AdoptScanned, UniqueIndex, Configure, Sound;
    var scan := Scan(existing, scanned);
    ScanIsSound(existing, scanned);
    ScanAdopts(existing, scanned);
    forall i | 0 <= i < |scanned|
      ensures scan.devs[i].name == scanned[i].name
    {
      AdoptKeepsName(existing, scanned[i]);
    }
    SameNames(scanned, scan.devs, n);
    ConfigureNames(existing, UniqueIndex(scan.devs), scan, configured, n);
  }
}
