/** The scan pipeline of the SMART manager: merge, drop excluded devices, then drop the data
    of every device that is no longer listed. */
module SmartManager {
  import opened Basics
  import opened DeviceMerge
  import opened SmartDevices
  import opened ConfiguredDevices

  datatype SmartEntry = SmartEntry(diskName: string, diskType: string)

  // ----- which data stays -----

  /** An entry with a type needs that exact device; one without needs a name listed once. */
  predicate Listed(vs: seq<Slot>, e: SmartEntry) {
    if e.diskType == "" then NameCount(NamedOf(vs), e.diskName) == 1
    else DeviceKey(e.diskName, e.diskType) in Keys(NamedOf(vs))
  }

  function Keys(ds: seq<Device>): set<DeviceKey> {
    set i | 0 <= i < |ds| :: KeyOf(ds[i])
  }

  function WithoutNames(ds: seq<Device>, excluded: set<string>): seq<Device> {
    if ds == [] then []
    else
      var last := ds[|ds| - 1];
      WithoutNames(ds[..|ds| - 1], excluded) + (if last.name in excluded then [] else [last])
  }

  /** Without exclusions a list stays as it is, nil slots included. */
  function Allowed(vs: seq<Slot>, excluded: set<string>): seq<Slot> {
    if excluded == {} then vs else Slots(WithoutNames(NamedOf(vs), excluded))
  }

  function Surviving(data: map<string, Option<SmartEntry>>, vs: seq<Slot>): map<string, Option<SmartEntry>> {
    map k | k in data && data[k].Some? && Listed(vs, data[k].value) :: data[k]
  }

  lemma {:induction false} NamedOfSlots(ds: seq<Device>)
    requires forall i :: 0 <= i < |ds| ==> ds[i].name != ""
    ensures NamedOf(Slots(ds)) == ds
  {
    if ds != [] {
      assert Slots(ds)[..|ds| - 1] == Slots(ds[..|ds| - 1]);
      NamedOfSlots(ds[..|ds| - 1]);
    }
  }

  lemma {:induction false} CountWithoutNames(ds: seq<Device>, excluded: set<string>, n: string)
    ensures NameCount(WithoutNames(ds, excluded), n) == if n in excluded then 0 else NameCount(ds, n)
  {
    if ds != [] {
      var init, last := ds[..|ds| - 1], ds[|ds| - 1];
      CountWithoutNames(init, excluded, n);
      var kept := WithoutNames(ds, excluded);
      assert last.name !in excluded ==> kept[..|kept| - 1] == WithoutNames(init, excluded);
      assert last.name in excluded ==> kept == WithoutNames(init, excluded);
    }
  }

  lemma {:induction false} KeysWithoutNames(ds: seq<Device>, excluded: set<string>, k: DeviceKey)
    ensures k in Keys(WithoutNames(ds, excluded)) <==> k in Keys(ds) && k.name !in excluded
    ensures forall d :: d in WithoutNames(ds, excluded) ==> d in ds
  {
    if ds != [] {
      var init, last := ds[..|ds| - 1], ds[|ds| - 1];
      KeysWithoutNames(init, excluded, k);
      KeysOfLast(init, last, k);
      assert ds == init + [last];
      KeysOfLast(WithoutNames(init, excluded), last, k);
      assert last.name in excluded ==> WithoutNames(ds, excluded) == WithoutNames(init, excluded);
    }
  }

  lemma KeysOfLast(ds: seq<Device>, d: Device, k: DeviceKey)
    ensures k in Keys(ds + [d]) <==> k in Keys(ds) || k == KeyOf(d)
  {
    var all := ds + [d];
    assert forall i :: 0 <= i < |ds| ==> all[i] == ds[i];
    assert all[|ds|] == d;
  }

  /** Exclusion takes away exactly the entries of excluded disks, whatever their type: it never
      makes an ambiguous name unique, and no excluded disk keeps its data. */
  lemma ExclusionIsExact(vs: seq<Slot>, excluded: set<string>, e: SmartEntry)
    ensures Listed(Allowed(vs, excluded), e) <==> Listed(vs, e) && e.diskName !in excluded
  {
    if excluded != {} {
      var ds := NamedOf(vs);
      var kept := WithoutNames(ds, excluded);
      KeysWithoutNames(ds, excluded, DeviceKey(e.diskName, e.diskType));
      assert forall i :: 0 <= i < |kept| ==> kept[i] in kept;
      NamedOfSlots(kept);
      CountWithoutNames(ds, excluded, e.diskName);
    }
  }

  /** A device of this name and type is in the list. */
  ghost predicate HasDevice(vs: seq<Slot>, n: string, devType: string) {
    exists i :: 0 <= i < |vs| && vs[i].Some? && vs[i].value.name == n && vs[i].value.devType == devType
  }

  /** The one position of the list that holds this name. */
  ghost predicate HoldsAlone(vs: seq<Slot>, n: string, i: int) {
    && 0 <= i < |vs| && vs[i].Some? && vs[i].value.name == n
    && forall j :: 0 <= j < |vs| && j != i && vs[j].Some? ==> vs[j].value.name != n
  }

  /** An entry stays if and only if it is not nil, its disk has a name, and either some device has
      exactly its name and type, or its type is empty and exactly one device has its name. */
  lemma SurvivesExactlyWhen(data: map<string, Option<SmartEntry>>, vs: seq<Slot>, k: string)
    ensures k in Surviving(data, vs) ==> Surviving(data, vs)[k] == data[k]
    ensures k in Surviving(data, vs) <==>
              && k in data && data[k].Some? && data[k].value.diskName != ""
              && if data[k].value.diskType == "" then exists i :: HoldsAlone(vs, data[k].value.diskName, i)
                 else HasDevice(vs, data[k].value.diskName, data[k].value.diskType)
  {
    hide NameCount, NamedOf, HoldsAlone, HasDevice, Keys;
    if k in data && data[k].Some? {
      ListedMeans(vs, data[k].value);
    }
  }

  lemma ListedMeans(vs: seq<Slot>, e: SmartEntry)
    ensures Listed(vs, e) <==>
              && e.diskName != ""
              && if e.diskType == "" then exists i :: HoldsAlone(vs, e.diskName, i)
                 else HasDevice(vs, e.diskName, e.diskType)
  {
    hide NameCount, NamedOf, PicksNamed;
    var at := NamedInOrder(vs);
    var ds := NamedOf(vs);
    UniqueMeans(ds, e.diskName);
    if e.diskType == "" {
      AloneAlike(vs, ds, at, e.diskName);
    } else {
      KeyAlike(vs, ds, at, e.diskName, e.diskType);
    }
  }

  lemma KeyAlike(vs: seq<Slot>, ds: seq<Device>, at: seq<nat>, n: string, devType: string)
    requires PicksNamed(vs, ds, at)
    ensures DeviceKey(n, devType) in Keys(ds) <==> n != "" && HasDevice(vs, n, devType)
  {
    if DeviceKey(n, devType) in Keys(ds) {
      var k :| 0 <= k < |ds| && KeyOf(ds[k]) == DeviceKey(n, devType);
      assert vs[at[k]].value == ds[k];
    }
    if n != "" && HasDevice(vs, n, devType) {
      var i :| 0 <= i < |vs| && vs[i].Some? && vs[i].value.name == n && vs[i].value.devType == devType;
      var k :| 0 <= k < |at| && at[k] == i;
      assert KeyOf(ds[k]) == DeviceKey(n, devType);
    }
  }

  lemma AloneAlike(vs: seq<Slot>, ds: seq<Device>, at: seq<nat>, n: string)
    requires PicksNamed(vs, ds, at)
    ensures NameCount(ds, n) == 1 <==> n != "" && exists i :: HoldsAlone(vs, n, i)
  {
    hide NameCount, UniqueIndex;
    UniqueMeans(ds, n);
    if NameCount(ds, n) == 1 {
      var p := UniqueIndex(ds)[n];
      forall j | 0 <= j < |vs| && vs[j].Some? && vs[j].value.name == n
        ensures j == at[p]
      {
        assert vs[at[p]].value.name != "";
        var k :| 0 <= k < |at| && at[k] == j;
        assert ds[k].name == n;
      }
      assert HoldsAlone(vs, n, at[p]);
    }
    if n != "" && exists i :: HoldsAlone(vs, n, i) {
      var i :| HoldsAlone(vs, n, i);
      var p: nat :| p < |at| && at[p] == i;
      forall k | 0 <= k < |ds| && k != p
        ensures ds[k].name != n
      {
        assert at[k] != at[p];
      }
      assert OnlyNamed(ds, n, p);
    }
  }

  /** The exclusion filter keeps exactly the named devices that are not excluded, in order; it
      leaves the list alone when nothing is excluded. */
  lemma AllowedInOrder(vs: seq<Slot>, excluded: set<string>) returns (at: seq<nat>)
    ensures excluded == {} ==> Allowed(vs, excluded) == vs
    ensures excluded != {} ==>
              && |Allowed(vs, excluded)| == |at|
              && (forall k :: 0 <= k < |at| ==> at[k] < |vs| && Allowed(vs, excluded)[k] == vs[at[k]])
              && (forall k, l :: 0 <= k < l < |at| ==> at[k] < at[l])
              && (forall i :: 0 <= i < |vs| ==>
                    (i in at <==> vs[i].Some? && vs[i].value.name != "" && vs[i].value.name !in excluded))
  {
    at := KeptInOrder(vs, excluded);
  }

  ghost predicate Picks(vs: seq<Slot>, excluded: set<string>, kept: seq<Device>, at: seq<nat>) {
    && |kept| == |at|
    && (forall k :: 0 <= k < |at| ==> at[k] < |vs| && vs[at[k]] == Some(kept[k]))
    && (forall k, l :: 0 <= k < l < |at| ==> at[k] < at[l])
    && (forall i :: 0 <= i < |vs| ==>
          (i in at <==> vs[i].Some? && vs[i].value.name != "" && vs[i].value.name !in excluded))
  }

  lemma {:induction false} KeptInOrder(vs: seq<Slot>, excluded: set<string>) returns (at: seq<nat>)
    ensures Picks(vs, excluded, WithoutNames(NamedOf(vs), excluded), at)
  {
    hide Picks, WithoutNames;
    if vs == [] {
      at := [];
      NothingPicked(excluded);
    } else {
      var init, last := vs[..|vs| - 1], vs[|vs| - 1];
      at := KeptInOrder(init, excluded);
      assert vs == init + [last];
      NamedNext(vs, |init|);
      assert vs[..|init| + 1] == vs;
      if last.Some? && last.value.name != "" {
        KeptNext(NamedOf(init), last.value, excluded);
      }
      PickedNext(init, last, excluded, WithoutNames(NamedOf(init), excluded), at);
      if last.Some? && last.value.name != "" && last.value.name !in excluded {
        at := at + [|init|];
      }
    }
  }

  lemma NothingPicked(excluded: set<string>)
    ensures Picks([], excluded, WithoutNames(NamedOf([]), excluded), [])
  {
  }

  lemma PickedNext(init: seq<Slot>, last: Slot, excluded: set<string>, kept: seq<Device>, at: seq<nat>)
    requires Picks(init, excluded, kept, at)
    ensures if last.Some? && last.value.name != "" && last.value.name !in excluded
            then Picks(init + [last], excluded, kept + [last.value], at + [|init|])
            else Picks(init + [last], excluded, kept, at)
  {
    var vs := init + [last];
    assert forall k :: 0 <= k < |at| ==> vs[at[k]] == init[at[k]];
    assert forall i :: 0 <= i < |init| ==> vs[i] == init[i];
    assert |init| !in at;
    assert forall i :: i in at + [|init|] <==> i in at || i == |init|;
  }

  // ----- the manager -----

  class Manager {
    var smartDevices: seq<DeviceInfo?>
    var smartData: map<string, Option<SmartEntry>>
    var excludedDevices: set<string>

    method FilterExcludedDevices(devices: seq<DeviceInfo?>) returns (filtered: seq<DeviceInfo?>)
      ensures Values(filtered) == Allowed(Values(devices), excludedDevices)
      ensures forall d :: d in filtered ==> d in devices
    {
      hide Values, SmartDevices.Devices, SmartDevices.NamedPointers, NamedOf, WithoutNames;
      if excludedDevices == {} {
        return devices;
      }
      var kept: seq<DeviceInfo> := [];
      NothingKept(excludedDevices);
      assert Values(devices)[..0] == [];
      for i := 0 to |devices|
        invariant SmartDevices.Devices(kept) == WithoutNames(NamedOf(Values(devices)[..i]), excludedDevices)
        invariant forall d :: d in kept ==> d in devices
      {
        var device := devices[i];
        NamedNext(Values(devices), i);
        SlotAt(devices, i);
        if device == null || device.name == "" {
          continue;
        }
        KeptNext(NamedOf(Values(devices)[..i]), device.Value(), excludedDevices);
        if device.name in excludedDevices {
          continue;
        }
        ObjectsGrow(kept, device);
        kept := kept + [device];
      }
      assert Values(devices)[..|devices|] == Values(devices);
      SlotsOfObjects(kept);
      filtered := kept;
    }

    /** Replaces the device list and drops the data of devices that are gone. */
    method UpdateSmartDevices(devices: seq<DeviceInfo?>)
      modifies this`smartDevices, this`smartData
      ensures smartDevices == devices
      ensures smartData == Surviving(old(smartData), Values(devices))
    {
      hide Values;
      smartDevices := devices;
      ghost var slots := Values(devices);
      if smartData == map[] {
        return;
      }
      var validKeys, nameCounts := IndexDevices(devices);
      var todo := smartData.Keys;
      ghost var before := smartData;
      while todo != {}
        invariant todo <= before.Keys && slots == Values(devices) && smartDevices == devices
        invariant smartData == Pruned(before, todo, slots)
        decreases todo
      {
        var key :| key in todo;
        var data := smartData[key];
        var keep := data.Some? &&
          (if data.value.diskType == ""
           then data.value.diskName in nameCounts && nameCounts[data.value.diskName] == 1
           else DeviceKey(data.value.diskName, data.value.diskType) in validKeys);
        assert keep <==> data.Some? && Listed(slots, data.value);
        if !keep {
          smartData := smartData - {key};
        }
        todo := todo - {key};
      }
    }

    /** The device part of a scan. */
    method ReconcileDevices(scanned: seq<DeviceInfo?>, configured: seq<DeviceInfo?>)
      modifies this`smartDevices, this`smartData
      ensures Values(smartDevices)
           == Allowed(Merge(old(Values(smartDevices)), old(Values(scanned)), old(Values(configured))), excludedDevices)
      ensures smartData == Surviving(old(smartData), Values(smartDevices))
      ensures forall k :: k in smartData ==> smartData[k].Some? && smartData[k].value.diskName !in excludedDevices
    {
      hide Values, Merge, Allowed, Listed;
      var finalDevices := MergeDeviceLists(smartDevices, scanned, configured);
      ghost var merged := Values(finalDevices);
      finalDevices := FilterExcludedDevices(finalDevices);
      UpdateSmartDevices(finalDevices);
      forall k | k in smartData
        ensures smartData[k].Some? && smartData[k].value.diskName !in excludedDevices
      {
        ExclusionIsExact(merged, excludedDevices, smartData[k].value);
      }
    }
  }

  /** The data once the entries outside `todo` have been looked at. */
  function Pruned(data: map<string, Option<SmartEntry>>, todo: set<string>, vs: seq<Slot>)
    : map<string, Option<SmartEntry>>
  {
    map k | k in data && (k in todo || (data[k].Some? && Listed(vs, data[k].value))) :: data[k]
  }

  method IndexDevices(devices: seq<DeviceInfo?>) returns (validKeys: set<DeviceKey>, nameCounts: map<string, nat>)
    ensures validKeys == Keys(NamedOf(Values(devices)))
    ensures forall n :: (if n in nameCounts then nameCounts[n] else 0) == NameCount(NamedOf(Values(devices)), n)
  {
    hide Values;
    validKeys, nameCounts := {}, map[];
    for i := 0 to |devices|
      invariant validKeys == Keys(NamedOf(Values(devices)[..i]))
      invariant forall n ::
                  (if n in nameCounts then nameCounts[n] else 0) == NameCount(NamedOf(Values(devices)[..i]), n)
    {
      var device := devices[i];
      NamedNext(Values(devices), i);
      SlotAt(devices, i);
      if device == null || device.name == "" {
        continue;
      }
      IndexNext(NamedOf(Values(devices)[..i]), device.Value());
      validKeys := validKeys + {DeviceKey(device.name, device.devType)};
      nameCounts := nameCounts[device.name := (if device.name in nameCounts then nameCounts[device.name] else 0) + 1];
    }
    assert Values(devices)[..|devices|] == Values(devices);
  }

  lemma IndexNext(ds: seq<Device>, d: Device)
    ensures Keys(ds + [d]) == Keys(ds) + {KeyOf(d)}
    ensures forall n :: NameCount(ds + [d], n) == NameCount(ds, n) + (if n == d.name then 1 else 0)
  {
    assert (ds + [d])[..|ds|] == ds;
    forall k
      ensures k in Keys(ds + [d]) <==> k in Keys(ds) || k == KeyOf(d)
    {
      KeysOfLast(ds, d, k);
    }
  }

  lemma SlotAt(ds: seq<DeviceInfo?>, i: nat)
    requires i < |ds|
    ensures Values(ds)[i] == SlotOf(ds[i])
  {
  }

  lemma KeptNext(ds: seq<Device>, d: Device, excluded: set<string>)
    ensures
      var kept := WithoutNames(ds, excluded);
      WithoutNames(ds + [d], excluded) == if d.name in excluded then kept else kept + [d]
  {
    assert (ds + [d])[..|ds|] == ds;
  }

  lemma NothingKept(excluded: set<string>)
    ensures SmartDevices.Devices([]) == WithoutNames(NamedOf([]), excluded)
  {
  }

  lemma ObjectsGrow(ps: seq<DeviceInfo>, p: DeviceInfo)
    ensures SmartDevices.Devices(ps + [p]) == SmartDevices.Devices(ps) + [p.Value()]
  {
  }
}
