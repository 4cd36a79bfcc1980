/** The device objects that the merge reads and copies, and the SMART manager that keeps the
    merged list and drops the data of devices that are gone. */
module SmartDevices {
  import opened Basics
  import opened Text
  import opened DeviceMerge

  class DeviceInfo {
    var name: string
    var devType: string
    var infoName: string
    var protocol: string
    var typeVerified: bool
    var parserType: string

    ghost function Value(): Device
      reads this
    {
      Device(name, devType, infoName, protocol, typeVerified, parserType)
    }

    constructor Copy(d: DeviceInfo)
      ensures Value() == d.Value()
    {
      name, devType, infoName, protocol := d.name, d.devType, d.infoName, d.protocol;
      typeVerified, parserType := d.typeVerified, d.parserType;
    }

    /** preserveVerifiedType */
    method PreserveVerifiedType(prev: DeviceInfo?)
      modifies this
      ensures Value() == if prev == null then old(Value()) else Preserve(old(Value()), old(prev.Value()))
    {
      if prev == null || !prev.typeVerified {
        return;
      }
      devType := prev.devType;
      typeVerified := true;
      parserType := prev.parserType;
    }

    /** applyConfiguredMetadata */
    method ApplyConfiguredMetadata(configured: DeviceInfo)
      requires configured != this
      modifies this
      ensures Value() == Override(old(Value()), configured.Value())
    {
      if configured.devType != "" && !typeVerified {
        var newType := TrimSpace(configured.devType);
        devType := newType;
        typeVerified := false;
        parserType := NormalizeParserType(newType);
      }
      if configured.infoName != "" {
        infoName := configured.infoName;
      }
      if configured.protocol != "" {
        protocol := configured.protocol;
      }
    }
  }

  ghost function SlotOf(d: DeviceInfo?): Slot
    reads d
  {
    if d == null then None else Some(d.Value())
  }

  ghost function Values(ds: seq<DeviceInfo?>): (vs: seq<Slot>)
    reads ds
    ensures |vs| == |ds|
  {
    seq(|ds|, i requires 0 <= i < |ds| reads ds => SlotOf(ds[i]))
  }

  ghost function Devices(ps: seq<DeviceInfo>): (ds: seq<Device>)
    reads ps
    ensures |ds| == |ps| && forall i :: 0 <= i < |ps| ==> ds[i] == ps[i].Value()
  {
    seq(|ps|, i requires 0 <= i < |ps| reads ps => ps[i].Value())
  }

  /** The usable pointers of a list: non-nil and named. */
  ghost function NamedPointers(ds: seq<DeviceInfo?>): (ps: seq<DeviceInfo>)
    reads ds
    ensures forall p :: p in ps ==> p in ds
    ensures |ps| <= |ds|
  {
    if ds == [] then []
    else
      var last := ds[|ds| - 1];
      NamedPointers(ds[..|ds| - 1]) + (if last != null && last.name != "" then [last] else [])
  }

  lemma {:induction false} NamedPointersAreNamed(ds: seq<DeviceInfo?>)
    ensures Devices(NamedPointers(ds)) == NamedOf(Values(ds))
  {
    if ds != [] {
      var init := ds[..|ds| - 1];
      NamedPointersAreNamed(init);
      assert Values(ds)[..|ds| - 1] == Values(init);
    }
  }

  lemma PointersGrow(ds: seq<DeviceInfo?>, i: nat)
    requires i < |ds|
    ensures
      var before := NamedPointers(ds[..i]);
      NamedPointers(ds[..i + 1]) == if ds[i] != null && ds[i].name != "" then before + [ds[i]] else before
    ensures ds[i] != null && ds[i].name != "" ==>
              Devices(NamedPointers(ds[..i + 1])) == Devices(NamedPointers(ds[..i])) + [ds[i].Value()]
    ensures ds[i] == null || ds[i].name == "" ==>
              Devices(NamedPointers(ds[..i + 1])) == Devices(NamedPointers(ds[..i]))
  {
    assert ds[..i + 1][..i] == ds[..i];
  }

  /** An index of pointers says the same as an index of positions. */
  ghost predicate Points<K(!new)>(index: map<K, DeviceInfo>, ps: seq<DeviceInfo>, positions: map<K, nat>) {
    && index.Keys == positions.Keys
    && forall k :: k in index ==> positions[k] < |ps| && index[k] == ps[positions[k]]
  }

  method BuildKeyIndex(devices: seq<DeviceInfo?>) returns (index: map<DeviceKey, DeviceInfo>)
    ensures Points(index, NamedPointers(devices), KeyIndex(Devices(NamedPointers(devices))))
  {
    hide NamedPointers, Devices, Points, KeyIndex;
    index := map[];
    NothingIndexed();
    for i := 0 to |devices|
      invariant Points(index, NamedPointers(devices[..i]), KeyIndex(Devices(NamedPointers(devices[..i]))))
    {
      var dev := devices[i];
      PointersGrow(devices, i);
      if dev == null || dev.name == "" {
        continue;
      }
      KeyIndexGrows(index, NamedPointers(devices[..i]), dev);
      index := index[DeviceKey(dev.name, dev.devType) := dev];
    }
    assert devices[..|devices|] == devices;
  }

  lemma NothingIndexed()
    ensures Points(map[], NamedPointers([]), KeyIndex(Devices(NamedPointers([]))))
  {
  }

  lemma KeyIndexGrows(index: map<DeviceKey, DeviceInfo>, ps: seq<DeviceInfo>, p: DeviceInfo)
    requires Points(index, ps, KeyIndex(Devices(ps)))
    ensures Points(index[DeviceKey(p.name, p.devType) := p], ps + [p], KeyIndex(Devices(ps + [p])))
  {
    assert Devices(ps + [p])[..|ps|] == Devices(ps);
  }

  lemma CountOfLast(ps: seq<DeviceInfo>, p: DeviceInfo, n: string)
    ensures NameCount(Devices(ps + [p]), n) == NameCount(Devices(ps), n) + (if p.name == n then 1 else 0)
  {
    assert Devices(ps + [p])[..|ps|] == Devices(ps);
  }

  /** Where a name that occurs once stands. */
  lemma {:induction false} OnlyPosition(ds: seq<Device>, n: string, i: nat)
    requires i < |ds| && ds[i].name == n && NameCount(ds, n) == 1
    ensures n in NameSet(ds) && LastAt(ds, n) == i
  {
    if i < |ds| - 1 {
      var init := ds[..|ds| - 1];
      assert init[i] == ds[i];
      CountedNames(init, n);
      OnlyPosition(init, n, i);
    }
  }

  method CountNames(devices: seq<DeviceInfo?>) returns (counts: map<string, nat>)
    ensures forall n :: (if n in counts then counts[n] else 0) == NameCount(Devices(NamedPointers(devices)), n)
  {
    hide NamedPointers, Devices, NameCount;
    counts := map[];
    assert devices[..0] == [];
    NothingCounted();
    for i := 0 to |devices|
      invariant forall n :: (if n in counts then counts[n] else 0) == NameCount(Devices(NamedPointers(devices[..i])), n)
    {
      var dev := devices[i];
      PointersGrow(devices, i);
      if dev == null || dev.name == "" {
        continue;
      }
      forall n {
        CountOfLast(NamedPointers(devices[..i]), dev, n);
      }
      counts := counts[dev.name := (if dev.name in counts then counts[dev.name] else 0) + 1];
    }
    assert devices[..|devices|] == devices;
  }

  lemma NothingCounted()
    ensures forall n :: NameCount(Devices(NamedPointers([])), n) == 0
  {
  }

  method BuildUniqueNameIndex(devices: seq<DeviceInfo?>) returns (unique: map<string, DeviceInfo>)
    ensures Points(unique, NamedPointers(devices), UniqueIndex(Devices(NamedPointers(devices))))
  {
    hide NameCount, LastAt, NameSet, NamedPointers, Devices, Once, Points, UniqueIndex;
    var counts := CountNames(devices);
    ghost var all := NamedPointers(devices);
    ghost var ds := Devices(all);
    unique := map[];
    NoUnique(ds);
    assert forall n :: (if n in counts then counts[n] else 0) == NameCount(ds, n);
    for i := 0 to |devices|
      invariant ds == Devices(all) && all == NamedPointers(devices)
      invariant unique.Keys == Once(NameSet(Devices(NamedPointers(devices[..i]))), ds)
      invariant forall n :: n in unique ==> n in NameSet(ds) && unique[n] == all[LastAt(ds, n)]
    {
      var dev := devices[i];
      ghost var before := NamedPointers(devices[..i]);
      PointersGrow(devices, i);
      PrefixPointers(devices, i + 1);
      if dev == null || dev.name == "" {
        continue;
      }
      OnceOfLast(before, dev, ds);
      NameAt(all, before, dev);
      assert (if dev.name in counts then counts[dev.name] else 0) == NameCount(ds, dev.name);
      if counts[dev.name] == 1 {
        unique := unique[dev.name := dev];
      }
    }
    assert devices[..|devices|] == devices;
    UniqueIndexHolds(unique, all);
  }

  lemma NoUnique(ds: seq<Device>)
    ensures Once(NameSet(Devices(NamedPointers([]))), ds) == {}
  {
  }

  lemma OnceOfLast(ps: seq<DeviceInfo>, p: DeviceInfo, ds: seq<Device>)
    ensures
      var before := Once(NameSet(Devices(ps)), ds);
      Once(NameSet(Devices(ps + [p])), ds) == if NameCount(ds, p.name) == 1 then before + {p.name} else before
  {
    hide NameCount;
    NamesOf(ps, p);
  }

  /** The names out of a set that occur exactly once. */
  function Once(names: set<string>, ds: seq<Device>): set<string> {
    set n | n in names && NameCount(ds, n) == 1
  }

  lemma UniqueIndexHolds(unique: map<string, DeviceInfo>, all: seq<DeviceInfo>)
    requires unique.Keys == Once(NameSet(Devices(all)), Devices(all))
    requires forall n :: n in unique ==> n in NameSet(Devices(all)) && unique[n] == all[LastAt(Devices(all), n)]
    ensures Points(unique, all, UniqueIndex(Devices(all)))
  {
    hide NameCount, LastAt;
  }

  lemma NameAt(all: seq<DeviceInfo>, before: seq<DeviceInfo>, dev: DeviceInfo)
    requires before + [dev] <= all
    ensures NameCount(Devices(all), dev.name) > 0
    ensures NameCount(Devices(all), dev.name) == 1 ==>
              dev.name in NameSet(Devices(all)) && all[LastAt(Devices(all), dev.name)] == dev
  {
    hide NameCount, LastAt;
    var ds, i := Devices(all), |before|;
    assert all[i] == dev && ds[i] == dev.Value();
    CountedNames(ds, dev.name);
    if NameCount(ds, dev.name) == 1 {
      OnlyPosition(ds, dev.name, i);
    }
  }

  lemma NamesOf(ps: seq<DeviceInfo>, p: DeviceInfo)
    ensures NameSet(Devices(ps + [p])) == NameSet(Devices(ps)) + {p.name}
  {
    var a, b := Devices(ps), Devices(ps + [p]);
    assert forall i :: 0 <= i < |a| ==> a[i] == b[i];
    assert b[|ps|] == p.Value();
  }

  lemma {:induction false} PrefixPointers(ds: seq<DeviceInfo?>, i: nat)
    requires i <= |ds|
    ensures NamedPointers(ds[..i]) <= NamedPointers(ds)
    decreases |ds| - i
  {
    if i == |ds| {
      assert ds[..i] == ds;
    } else {
      assert ds[..i + 1][..i] == ds[..i];
      PrefixPointers(ds, i + 1);
    }
  }

  // ----- the merge on objects -----

  /** Two pointer indexes that know the given devices by key and by unique name. */
  ghost predicate Knows(byKey: map<DeviceKey, DeviceInfo>, byName: map<string, DeviceInfo>, known: seq<Device>)
    reads byKey.Values, byName.Values
  {
    && byKey.Keys == KeyIndex(known).Keys
    && byName.Keys == UniqueIndex(known).Keys
    && (forall k :: k in byKey ==> byKey[k].Value() == known[KeyIndex(known)[k]])
    && (forall n :: n in byName ==> byName[n].Value() == known[UniqueIndex(known)[n]])
  }

  lemma IndexesKnow(byKey: map<DeviceKey, DeviceInfo>, byName: map<string, DeviceInfo>, ps: seq<DeviceInfo>)
    requires Points(byKey, ps, KeyIndex(Devices(ps))) && Points(byName, ps, UniqueIndex(Devices(ps)))
    ensures Knows(byKey, byName, Devices(ps))
    ensures forall d :: d in byKey.Values || d in byName.Values ==> d in ps
  {
    hide KeyIndex, UniqueIndex;
  }

  method FindPrevious(dev: DeviceInfo, byKey: map<DeviceKey, DeviceInfo>, byName: map<string, DeviceInfo>,
                      ghost known: seq<Device>)
    returns (prev: DeviceInfo?)
    requires Knows(byKey, byName, known)
    ensures MatchOf(known, dev.Value()) == SlotOf(prev)
  {
    hide KeyIndex, UniqueIndex;
    var key := DeviceKey(dev.name, dev.devType);
    if key in byKey {
      prev := byKey[key];
    } else if dev.name in byName {
      prev := byName[dev.name];
    } else {
      prev := null;
    }
  }

  /** The merged objects and the pointer index stand for the abstract merge state. */
  ghost predicate Stands(finals: seq<DeviceInfo>, index: map<DeviceKey, DeviceInfo>, m: Merging)
    reads finals
  {
    && Devices(finals) == m.devs
    && Points(index, finals, m.index)
    && forall i, j :: 0 <= i < j < |finals| ==> finals[i] != finals[j]
  }

  lemma NothingStands(known: seq<Device>)
    ensures Stands([], map[], Scan(known, NamedOf([])))
  {
  }

  lemma StandsAppended(finals: seq<DeviceInfo>, index: map<DeviceKey, DeviceInfo>, m: Merging, d: DeviceInfo)
    requires Stands(finals, index, m) && d !in finals
    ensures Stands(finals + [d], index[KeyOf(d.Value()) := d], Append(m, d.Value()))
  {
    assert Devices(finals + [d]) == m.devs + [d.Value()];
  }

  /** A copy of a scanned device that keeps what is verified about its known match. */
  method CopyScanned(d: DeviceInfo, byKey: map<DeviceKey, DeviceInfo>, byName: map<string, DeviceInfo>,
                     ghost known: seq<Device>)
    returns (copyDev: DeviceInfo)
    requires Knows(byKey, byName, known)
    ensures fresh(copyDev) && copyDev.Value() == AdoptScanned(known, d.Value())
  {
    hide MatchOf, Knows;
    copyDev := new DeviceInfo.Copy(d);
    var prev := FindPrevious(copyDev, byKey, byName, known);
    copyDev.PreserveVerifiedType(prev);
  }

  /** A copy of a configured device; one without a known match gets its parser from its type. */
  method CopyConfigured(d: DeviceInfo, byKey: map<DeviceKey, DeviceInfo>, byName: map<string, DeviceInfo>,
                        ghost known: seq<Device>)
    returns (copyDev: DeviceInfo)
    requires Knows(byKey, byName, known)
    ensures fresh(copyDev) && copyDev.Value() == AdoptConfigured(known, d.Value())
  {
    hide MatchOf, Knows;
    copyDev := new DeviceInfo.Copy(d);
    var prev := FindPrevious(copyDev, byKey, byName, known);
    if prev != null {
      copyDev.PreserveVerifiedType(prev);
    } else if copyDev.devType != "" {
      copyDev.parserType := NormalizeParserType(copyDev.devType);
    }
  }

  /** Copies of the scanned devices, each keeping what is verified about its known match. */
  method MergeScanned(scanned: seq<DeviceInfo?>, byKey: map<DeviceKey, DeviceInfo>, byName: map<string, DeviceInfo>,
                      ghost known: seq<Device>)
    returns (finals: seq<DeviceInfo>, index: map<DeviceKey, DeviceInfo>)
    requires Knows(byKey, byName, known)
    ensures Stands(finals, index, Scan(known, NamedOf(old(Values(scanned)))))
    ensures forall i :: 0 <= i < |finals| ==> fresh(finals[i])
  {
    hide AdoptScanned, Scan, Append, Stands, Knows, NamedOf, Devices;
    finals, index := [], map[];
    ghost var slots := Values(scanned);
    NothingStands(known);
    for i := 0 to |scanned|
      invariant Stands(finals, index, Scan(known, NamedOf(slots[..i])))
      invariant forall j :: 0 <= j < |finals| ==> fresh(finals[j])
    {
      var scannedDevice := scanned[i];
      NamedNext(slots, i);
      assert slots[i] == SlotOf(scannedDevice);
      if scannedDevice == null || scannedDevice.name == "" {
        continue;
      }
      ScanNext(known, NamedOf(slots[..i]), scannedDevice.Value());
      ghost var m := Scan(known, NamedOf(slots[..i]));
      var copyDev := CopyScanned(scannedDevice, byKey, byName, known);
      StandsAppended(finals, index, m, copyDev);
      finals := finals + [copyDev];
      index := index[DeviceKey(copyDev.name, copyDev.devType) := copyDev];
    }
    assert slots[..|scanned|] == slots;
  }

  lemma NamedNext(slots: seq<Slot>, i: nat)
    requires i < |slots|
    ensures
      var before := NamedOf(slots[..i]);
      NamedOf(slots[..i + 1]) == if Named(slots[i]) then before + [slots[i].value] else before
  {
    assert slots[..i + 1][..i] == slots[..i];
  }

  lemma ScanNext(known: seq<Device>, before: seq<Device>, d: Device)
    ensures Scan(known, before + [d]) == Append(Scan(known, before), AdoptScanned(known, d))
  {
    hide AdoptScanned;
    assert (before + [d])[..|before|] == before;
  }

  lemma ConfigureNext(known: seq<Device>, byName: map<string, nat>, m: Merging, before: seq<Device>, c: Device)
    requires Sound(m, byName)
    ensures Configure(known, byName, m, before + [c])
         == Configure1(known, byName, Configure(known, byName, m, before), c)
  {
    hide Configure1, Sound;
    assert (before + [c])[..|before|] == before;
  }

  lemma StandsOverridden(finals: seq<DeviceInfo>, index: map<DeviceKey, DeviceInfo>, m: Merging, i: nat, d: Device)
    requires |finals| == |m.devs| && i < |finals|
    requires forall j :: 0 <= j < |finals| ==> finals[j].Value() == if j == i then d else m.devs[j]
    requires Points(index, finals, m.index)
    requires forall a, b :: 0 <= a < b < |finals| ==> finals[a] != finals[b]
    ensures Stands(finals, index, m.(devs := m.devs[i := d]))
  {
    assert Devices(finals) == m.devs[i := d];
  }

  /** Overrides the merged device that a configured one refers to, or appends a copy of it. */
  method MergeConfigured1(c: DeviceInfo, finals: seq<DeviceInfo>, index: map<DeviceKey, DeviceInfo>,
                          finalsByName: map<string, DeviceInfo>, byKey: map<DeviceKey, DeviceInfo>,
                          byName: map<string, DeviceInfo>, ghost known: seq<Device>, ghost m: Merging,
                          ghost names: map<string, nat>)
    returns (finals': seq<DeviceInfo>, index': map<DeviceKey, DeviceInfo>)
    requires Knows(byKey, byName, known)
    requires Stands(finals, index, m) && Points(finalsByName, finals, names) && Sound(m, names)
    requires c !in finals
    modifies finals
    ensures Stands(finals', index', Configure1(known, names, m, old(c.Value())))
    ensures Points(finalsByName, finals', names)
    ensures finals' == finals || exists d :: fresh(d) && finals' == finals + [d]
  {
    hide AdoptConfigured, Override, Knows, Devices;
    finals', index' := finals, index;
    var key := DeviceKey(c.name, c.devType);
    if key in index {
      ghost var i := m.index[key];
      OverrideMerged(index[key], c, finals, index, m, i);
    } else if c.name in finalsByName {
      ghost var i := names[c.name];
      OverrideMerged(finalsByName[c.name], c, finals, index, m, i);
    } else {
      var copyDev := CopyConfigured(c, byKey, byName, known);
      StandsAppended(finals, index, m, copyDev);
      finals' := finals + [copyDev];
      index' := index[DeviceKey(copyDev.name, copyDev.devType) := copyDev];
    }
  }

  method OverrideMerged(target: DeviceInfo, c: DeviceInfo, ghost finals: seq<DeviceInfo>,
                        ghost index: map<DeviceKey, DeviceInfo>, ghost m: Merging, ghost i: nat)
    requires Stands(finals, index, m) && i < |finals| && target == finals[i]
    requires c !in finals
    modifies target
    ensures Stands(finals, index, OverrideAt(m, i, old(c.Value())))
  {
    hide Override;
    target.ApplyConfiguredMetadata(c);
    StandsOverridden(finals, index, m, i, Override(m.devs[i], c.Value()));
  }

  method MergeConfigured(configured: seq<DeviceInfo?>, finals: seq<DeviceInfo>, index: map<DeviceKey, DeviceInfo>,
                         finalsByName: map<string, DeviceInfo>, byKey: map<DeviceKey, DeviceInfo>,
                         byName: map<string, DeviceInfo>, ghost known: seq<Device>, ghost m: Merging,
                         ghost names: map<string, nat>)
    returns (merged: seq<DeviceInfo>)
    requires Knows(byKey, byName, known)
    requires Stands(finals, index, m) && Points(finalsByName, finals, names) && Sound(m, names)
    requires forall d :: d in finals ==> d !in configured && d !in byKey.Values && d !in byName.Values
    modifies finals
    ensures Devices(merged) == Configure(known, names, m, NamedOf(old(Values(configured)))).devs
    ensures forall i :: 0 <= i < |merged| ==> merged[i] in finals || fresh(merged[i])
    ensures forall i, j :: 0 <= i < j < |merged| ==> merged[i] != merged[j]
  {
    hide Stands, Knows, NamedOf, Devices, Points, Configure, Configure1, Sound;
    var index' := index;
    merged := finals;
    ghost var slots := Values(configured);
    NothingConfigured(known, names, m);
    for i := 0 to |configured|
      invariant Stands(merged, index', Configure(known, names, m, NamedOf(slots[..i])))
      invariant forall j :: 0 <= j < |merged| ==> merged[j] in finals || fresh(merged[j])
      invariant Points(finalsByName, merged, names)
      invariant Knows(byKey, byName, known)
      invariant forall k :: 0 <= k < |configured| ==> SlotOf(configured[k]) == slots[k]
    {
      var c := configured[i];
      NamedNext(slots, i);
      if c == null || c.name == "" {
        continue;
      }
      ConfigureNext(known, names, m, NamedOf(slots[..i]), c.Value());
      merged, index' := MergeConfigured1(c, merged, index', finalsByName, byKey, byName, known,
                                         Configure(known, names, m, NamedOf(slots[..i])), names);
    }
    assert slots[..|configured|] == slots;
    StandsMeans(merged, index', Configure(known, names, m, NamedOf(slots)));
  }

  lemma StandsMeans(finals: seq<DeviceInfo>, index: map<DeviceKey, DeviceInfo>, m: Merging)
    requires Stands(finals, index, m)
    ensures Devices(finals) == m.devs && forall i, j :: 0 <= i < j < |finals| ==> finals[i] != finals[j]
  {
  }

  lemma NothingConfigured(known: seq<Device>, names: map<string, nat>, m: Merging)
    requires Sound(m, names)
    ensures Configure(known, names, m, NamedOf([])) == m
  {
  }

  method IndexKnown(existing: seq<DeviceInfo?>)
    returns (byKey: map<DeviceKey, DeviceInfo>, byName: map<string, DeviceInfo>)
    ensures Knows(byKey, byName, NamedOf(Values(existing)))
    ensures forall d :: d in byKey.Values || d in byName.Values ==> d in existing
  {
    hide UniqueIndex, Devices, NamedPointers, Points, Values, NamedOf, Knows;
    NamedPointersAreNamed(existing);
    ghost var ps, known := NamedPointers(existing), Devices(NamedPointers(existing));
    byKey := BuildKeyIndex(existing);
    byName := BuildUniqueNameIndex(existing);
    assert ps == NamedPointers(existing) && known == Devices(ps);
    IndexesKnow(byKey, byName, ps);
    NamedPointersAreNamed(existing);
  }

  /** The names that occur once among the copies of the scanned devices. */
  method IndexFinals(finals: seq<DeviceInfo>, ghost index: map<DeviceKey, DeviceInfo>, ghost known: seq<Device>,
                     ghost scanned: seq<Device>)
    returns (byName: map<string, DeviceInfo>)
    requires Stands(finals, index, Scan(known, scanned)) && forall d :: d in scanned ==> d.name != ""
    ensures Points(byName, finals, UniqueIndex(Scan(known, scanned).devs))
    ensures Stands(finals, index, Scan(known, scanned))
  {
    hide Scan, UniqueIndex, Devices, NamedPointers, Stands, Points;
    StandsMeans(finals, index, Scan(known, scanned));
    ScanIsNamed(known, scanned);
    ObjectsAreNamed(finals);
    AllNamed(finals);
    byName := BuildUniqueNameIndex(finals);
  }

  /** The merged devices as new objects. */
  method MergeObjects(existing: seq<DeviceInfo?>, scanned: seq<DeviceInfo?>, configured: seq<DeviceInfo?>)
    returns (merged: seq<DeviceInfo>)
    ensures Devices(merged) == MergeNamed(NamedOf(old(Values(existing))), NamedOf(old(Values(scanned))),
                                          NamedOf(old(Values(configured))))
    ensures forall i :: 0 <= i < |merged| ==> fresh(merged[i])
    ensures forall i, j :: 0 <= i < j < |merged| ==> merged[i] != merged[j]
  {
    hide Configure, Scan, UniqueIndex, Devices, NamedPointers, Stands, Points, Values, NamedOf, Knows;
    ghost var known := NamedOf(Values(existing));
    var existingIndex, existingByName := IndexKnown(existing);
    var finals, index := MergeScanned(scanned, existingIndex, existingByName, known);
    ghost var scan := Scan(known, NamedOf(old(Values(scanned))));
    var finalsByName := IndexFinals(finals, index, known, NamedOf(old(Values(scanned))));
    UniqueIndexIsSound(scan.devs);
    merged := MergeConfigured(configured, finals, index, finalsByName, existingIndex, existingByName, known, scan,
                              UniqueIndex(scan.devs));
  }

  /** The merged list, with no input object changed; without scanned or configured devices the
      known list itself. */
  method MergeDeviceLists(existing: seq<DeviceInfo?>, scanned: seq<DeviceInfo?>, configured: seq<DeviceInfo?>)
    returns (merged: seq<DeviceInfo?>)
    ensures Values(merged) == Merge(old(Values(existing)), old(Values(scanned)), old(Values(configured)))
    ensures if scanned == [] && configured == [] then merged == existing
            else forall i :: 0 <= i < |merged| ==> merged[i] != null && fresh(merged[i])
    ensures scanned != [] || configured != [] ==> forall i, j :: 0 <= i < j < |merged| ==> merged[i] != merged[j]
  {
    hide Values, NamedOf, MergeNamed, Devices;
    if |scanned| == 0 && |configured| == 0 {
      return existing;
    }
    var all := MergeObjects(existing, scanned, configured);
    merged := all;
    SlotsOfObjects(all);
  }

  lemma ScanIsNamed(known: seq<Device>, scanned: seq<Device>)
    requires forall d :: d in scanned ==> d.name != ""
    ensures forall d :: d in Scan(known, scanned).devs ==> d.name != ""
  {
    hide AdoptScanned;
    ScanAdopts(known, scanned);
    forall i | 0 <= i < |scanned|
      ensures Scan(known, scanned).devs[i].name != ""
    {
      assert scanned[i] in scanned;
      AdoptKeepsName(known, scanned[i]);
    }
  }

  lemma SlotsOfObjects(ps: seq<DeviceInfo>)
    ensures Values(ps) == Slots(Devices(ps))
  {
  }

  lemma ObjectsAreNamed(ps: seq<DeviceInfo>)
    requires forall d :: d in Devices(ps) ==> d.name != ""
    ensures forall i :: 0 <= i < |ps| ==> ps[i].name != ""
  {
    forall i | 0 <= i < |ps|
      ensures ps[i].name != ""
    {
      assert Devices(ps)[i] in Devices(ps);
    }
  }

  lemma {:induction false} AllNamed(ps: seq<DeviceInfo>)
    requires forall i :: 0 <= i < |ps| ==> ps[i].name != ""
    ensures NamedPointers(ps) == ps
  {
    if ps != [] {
      AllNamed(ps[..|ps| - 1]);
    }
  }
}
