/** What the configured list does to the merged devices, said without the merge's own steps: which
    entry a device takes its type, its info name and its protocol from, and what an entry of its
    own becomes. */
module ConfiguredDevices {
  import opened Basics
  import opened Text
  import opened DeviceMerge

  /** The last configured entry of a name that gives a type, an info name or a protocol. */
  predicate LastType(configured: seq<Device>, n: string, j: int) {
    && 0 <= j < |configured| && configured[j].name == n && configured[j].devType != ""
    && forall k :: j < k < |configured| && configured[k].name == n ==> configured[k].devType == ""
  }

  predicate LastInfoName(configured: seq<Device>, n: string, j: int) {
    && 0 <= j < |configured| && configured[j].name == n && configured[j].infoName != ""
    && forall k :: j < k < |configured| && configured[k].name == n ==> configured[k].infoName == ""
  }

  predicate LastProtocol(configured: seq<Device>, n: string, j: int) {
    && 0 <= j < |configured| && configured[j].name == n && configured[j].protocol != ""
    && forall k :: j < k < |configured| && configured[k].name == n ==> configured[k].protocol == ""
  }

  predicate NoType(configured: seq<Device>, n: string) {
    forall k :: 0 <= k < |configured| && configured[k].name == n ==> configured[k].devType == ""
  }

  predicate NoInfoName(configured: seq<Device>, n: string) {
    forall k :: 0 <= k < |configured| && configured[k].name == n ==> configured[k].infoName == ""
  }

  predicate NoProtocol(configured: seq<Device>, n: string) {
    forall k :: 0 <= k < |configured| && configured[k].name == n ==> configured[k].protocol == ""
  }

  /** What configured entries of its name make of a device. A verified type and parser stay; else
      the last type given wins, trimmed, and brings its parser. The last info name and protocol
      given win in any case. Where none is given, the device keeps its own. */
  ghost predicate ConfiguredFrom(before: Device, configured: seq<Device>, after: Device) {
    var n := before.name;
    && after.name == n && after.verified == before.verified
    && (forall j :: !before.verified && LastType(configured, n, j) ==>
          && after.devType == TrimSpace(configured[j].devType)
          && after.parserType == NormalizeParserType(TrimSpace(configured[j].devType)))
    && (before.verified || NoType(configured, n) ==>
          after.devType == before.devType && after.parserType == before.parserType)
    && (forall j :: LastInfoName(configured, n, j) ==> after.infoName == configured[j].infoName)
    && (NoInfoName(configured, n) ==> after.infoName == before.infoName)
    && (forall j :: LastProtocol(configured, n, j) ==> after.protocol == configured[j].protocol)
    && (NoProtocol(configured, n) ==> after.protocol == before.protocol)
  }

  lemma NotConfigured(d: Device)
    ensures ConfiguredFrom(d, [], d)
  {
  }

  /** One more entry of the name. */
  lemma ConfiguredOnce(before: Device, init: seq<Device>, d: Device, c: Device)
    requires ConfiguredFrom(before, init, d) && c.name == before.name
    ensures ConfiguredFrom(before, init + [c], Override(d, c))
  {
    hide TrimSpace, NormalizeParserType;
    LastOf(init, c, before.name);
  }

  /** One more entry of another name. */
  lemma NotConfiguredOnce(before: Device, init: seq<Device>, d: Device, c: Device)
    requires ConfiguredFrom(before, init, d) && c.name != before.name
    ensures ConfiguredFrom(before, init + [c], d)
  {
    hide TrimSpace, NormalizeParserType;
    LastOf(init, c, before.name);
  }

  lemma LastOf(init: seq<Device>, c: Device, n: string)
    ensures forall j :: LastType(init + [c], n, j) <==>
              if c.name == n && c.devType != "" then j == |init| else LastType(init, n, j)
    ensures forall j :: LastInfoName(init + [c], n, j) <==>
              if c.name == n && c.infoName != "" then j == |init| else LastInfoName(init, n, j)
    ensures forall j :: LastProtocol(init + [c], n, j) <==>
              if c.name == n && c.protocol != "" then j == |init| else LastProtocol(init, n, j)
    ensures NoType(init + [c], n) <==> NoType(init, n) && (c.name == n ==> c.devType == "")
    ensures NoInfoName(init + [c], n) <==> NoInfoName(init, n) && (c.name == n ==> c.infoName == "")
    ensures NoProtocol(init + [c], n) <==> NoProtocol(init, n) && (c.name == n ==> c.protocol == "")
  {
    var all := init + [c];
    assert forall k :: 0 <= k < |init| ==> all[k] == init[k];
    assert all[|init|] == c;
  }

  /** Every entry of the name, whatever its type, refers to the device at the position. */
  ghost predicate Owns(m: Merging, byName: map<string, nat>, n: string, i: nat) {
    && i < |m.devs| && m.devs[i].name == n
    && n in byName && byName[n] == i
    && forall k :: k in m.index && k.name == n ==> m.index[k] == i
  }

  lemma {:induction false} ConfigureOwned(existing: seq<Device>, byName: map<string, nat>, m: Merging,
                                          configured: seq<Device>, i: nat)
    requires Sound(m, byName) && i < |m.devs| && Owns(m, byName, m.devs[i].name, i)
    ensures
      var m' := Configure(existing, byName, m, configured);
      Owns(m', byName, m.devs[i].name, i) && ConfiguredFrom(m.devs[i], configured, m'.devs[i])
  {
    hide Configure1, ConfiguredFrom, Owns, Sound;
    if configured == [] {
      NotConfigured(m.devs[i]);
    } else {
      var init, c := configured[..|configured| - 1], configured[|configured| - 1];
      ConfigureOwned(existing, byName, m, init, i);
      assert configured == init + [c];
      OwnedOnce(existing, byName, m.devs[i], init, Configure(existing, byName, m, init), c, i);
    }
  }

  lemma OwnedOnce(existing: seq<Device>, byName: map<string, nat>, before: Device, init: seq<Device>, m: Merging,
                  c: Device, i: nat)
    requires Sound(m, byName) && Owns(m, byName, before.name, i) && ConfiguredFrom(before, init, m.devs[i])
    ensures
      var m' := Configure1(existing, byName, m, c);
      Owns(m', byName, before.name, i) && ConfiguredFrom(before, init + [c], m'.devs[i])
  {
    hide Override, AdoptConfigured, ConfiguredFrom;
    if c.name == before.name {
      ConfiguredOnce(before, init, m.devs[i], c);
      OverrideContinues(m.devs[i], c);
    } else {
      NotConfiguredOnce(before, init, m.devs[i], c);
      AdoptKeepsName(existing, c);
    }
  }

  lemma {:induction false} OnlyOne(ds: seq<Device>, i: nat)
    requires i < |ds| && forall k :: 0 <= k < |ds| && k != i ==> ds[k].name != ds[i].name
    ensures NameCount(ds, ds[i].name) == 1 && ds[i].name in NameSet(ds) && LastAt(ds, ds[i].name) == i
  {
    var init, n := ds[..|ds| - 1], ds[i].name;
    assert forall k :: 0 <= k < |init| ==> init[k] == ds[k];
    if i == |ds| - 1 {
      CountedNames(init, n);
    } else {
      OnlyOne(init, i);
      assert init[i] == ds[i];
    }
  }

  /** What is verified about a device from the known list before any configured entry counts. */
  predicate AdoptedFrom(existing: seq<Device>, scanned: Device, before: Device) {
    && before.name == scanned.name && before.infoName == scanned.infoName && before.protocol == scanned.protocol
    && (var known := MatchOf(existing, scanned);
        if known.Some? && known.value.verified
        then before.verified && before.devType == known.value.devType && before.parserType == known.value.parserType
        else before == scanned)
  }

  /** A scanned device of a name that was scanned once ends as its configured entries say, after
      what is known about it. */
  lemma ConfiguredValuesWin(existing: seq<Device>, scanned: seq<Device>, configured: seq<Device>, i: nat)
    requires i < |scanned| && forall k :: 0 <= k < |scanned| && k != i ==> scanned[k].name != scanned[i].name
    ensures
      var merged := MergeNamed(existing, scanned, configured);
      && i < |merged|
      && exists before :: AdoptedFrom(existing, scanned[i], before) && ConfiguredFrom(before, configured, merged[i])
  {
    hide Configure, Scan, MatchOf, ConfiguredFrom, AdoptScanned, UniqueIndex, Sound, Owns;
    var scan := Scan(existing, scanned);
    ScanIsSound(existing, scanned);
    ScanAdopts(existing, scanned);
    AdoptedMeans(existing, scanned[i]);
    forall k | 0 <= k < |scanned|
      ensures scan.devs[k].name == scanned[k].name
    {
      AdoptKeepsName(existing, scanned[k]);
    }
    ScannedOnceIsOwned(scan, i);
    ConfigureOwned(existing, UniqueIndex(scan.devs), scan, configured, i);
    ConfigureKeeps(existing, UniqueIndex(scan.devs), scan, configured);
  }

  lemma AdoptedMeans(existing: seq<Device>, d: Device)
    ensures AdoptedFrom(existing, d, AdoptScanned(existing, d))
  {
    hide MatchOf;
  }

  lemma ScannedOnceIsOwned(m: Merging, i: nat)
    requires Sound(m, UniqueIndex(m.devs)) && i < |m.devs|
    requires forall k :: 0 <= k < |m.devs| && k != i ==> m.devs[k].name != m.devs[i].name
    ensures Owns(m, UniqueIndex(m.devs), m.devs[i].name, i)
  {
    hide NameCount, LastAt, NameSet;
    OnlyOne(m.devs, i);
  }

  /** What a configured device that matches no other entry is added as. */
  predicate AddedFrom(existing: seq<Device>, c: Device, d: Device) {
    && d.name == c.name && d.infoName == c.infoName && d.protocol == c.protocol
    && (match MatchOf(existing, c)
        case Some(known) =>
          if known.verified
          then d.verified && d.devType == known.devType && d.parserType == known.parserType
          else d == c
        case None =>
          && d.devType == c.devType && d.verified == c.verified
          && d.parserType == if c.devType != "" then NormalizeParserType(c.devType) else c.parserType)
  }

  /** A configured device whose name is neither scanned nor configured again is added. */
  lemma {:induction false} ConfigureAdds(existing: seq<Device>, byName: map<string, nat>, m: Merging,
                                         configured: seq<Device>, j: nat) returns (p: nat)
    requires Sound(m, byName) && j < |configured| && !HasName(m.devs, configured[j].name)
    requires forall k :: 0 <= k < |configured| && k != j ==> configured[k].name != configured[j].name
    ensures
      var m' := Configure(existing, byName, m, configured);
      |m.devs| <= p < |m'.devs| && m'.devs[p] == AdoptConfigured(existing, configured[j])
  {
    hide AdoptConfigured, Configure1, HasName, Sound;
    var init, c := configured[..|configured| - 1], configured[|configured| - 1];
    var before := Configure(existing, byName, m, init);
    ConfigureKeeps(existing, byName, m, init);
    if j == |init| {
      NamedNowhere(existing, byName, m, init, c.name);
      AddsHere(existing, byName, before, c);
      p := |before.devs|;
    } else {
      assert init[j] == configured[j];
      p := ConfigureAdds(existing, byName, m, init, j);
      AdoptKeepsName(existing, configured[j]);
      StaysAsItIs(existing, byName, before, c, p);
    }
  }

  lemma AddsHere(existing: seq<Device>, byName: map<string, nat>, m: Merging, c: Device)
    requires Sound(m, byName) && c.name !in byName && forall k :: k in m.index ==> k.name != c.name
    ensures Configure1(existing, byName, m, c).devs == m.devs + [AdoptConfigured(existing, c)]
  {
    hide AdoptConfigured, Override;
  }

  lemma StaysAsItIs(existing: seq<Device>, byName: map<string, nat>, m: Merging, c: Device, p: nat)
    requires Sound(m, byName) && p < |m.devs| && m.devs[p].name != c.name
    ensures var m' := Configure1(existing, byName, m, c); p < |m'.devs| && m'.devs[p] == m.devs[p]
  {
    hide AdoptConfigured, Override;
  }

  lemma NamedNowhere(existing: seq<Device>, byName: map<string, nat>, m: Merging, configured: seq<Device>, n: string)
    requires Sound(m, byName) && !HasName(m.devs, n)
    requires forall k :: 0 <= k < |configured| ==> configured[k].name != n
    ensures n !in byName && forall k :: k in Configure(existing, byName, m, configured).index ==> k.name != n
  {
    hide Configure;
    ConfigureNames(existing, byName, m, configured, n);
  }

  lemma AddedMeans(existing: seq<Device>, c: Device)
    ensures AddedFrom(existing, c, AdoptConfigured(existing, c))
  {
    hide MatchOf, NormalizeParserType;
  }

  lemma ConfiguredAloneIsAdded(existing: seq<Device>, scanned: seq<Device>, configured: seq<Device>, j: nat)
    returns (p: nat)
    requires j < |configured|
    requires forall k :: 0 <= k < |configured| && k != j ==> configured[k].name != configured[j].name
    requires forall k :: 0 <= k < |scanned| ==> scanned[k].name != configured[j].name
    ensures
      var merged := MergeNamed(existing, scanned, configured);
      |scanned| <= p < |merged| && AddedFrom(existing, configured[j], merged[p])
  {
    hide Configure, Scan, AdoptConfigured, AdoptScanned, UniqueIndex, Sound, AddedFrom;
    var scan := Scan(existing, scanned);
    ScanIsSound(existing, scanned);
    ScanAdopts(existing, scanned);
    forall k | 0 <= k < |scanned|
      ensures scan.devs[k].name == scanned[k].name
    {
      AdoptKeepsName(existing, scanned[k]);
    }
    p := ConfigureAdds(existing, UniqueIndex(scan.devs), scan, configured, j);
    AddedMeans(existing, configured[j]);
  }

  /** Where a single configured entry goes among the scanned devices: to the last one of its name
      and type, else to the only one of its name, else to the end. */
  lemma SingleEntryGoesTo(existing: seq<Device>, scanned: seq<Device>, c: Device)
    ensures
      var devs, merged := MergeNamed(existing, scanned, []), MergeNamed(existing, scanned, [c]);
      && (forall i: nat :: LastUnder(devs, KeyOf(c), i) || (!HasKey(devs, KeyOf(c)) && OnlyNamed(devs, c.name, i)) ==>
            |merged| == |devs| && merged == devs[i := merged[i]] && ConfiguredFrom(devs[i], [c], merged[i]))
      && (!HasKey(devs, KeyOf(c)) && NameCount(devs, c.name) != 1 ==>
            |merged| == |devs| + 1 && merged[..|devs|] == devs && AddedFrom(existing, c, merged[|devs|]))
  {
    hide Scan, AdoptConfigured, AdoptScanned, UniqueIndex, Sound, AddedFrom, ConfiguredFrom, Override, HasKey,
      LastUnder, NameCount, OnlyNamed;
    var scan := Scan(existing, scanned);
    ScanIsSound(existing, scanned);
    var byName := UniqueIndex(scan.devs);
    assert [c][..0] == [];
    assert Configure(existing, byName, scan, []) == scan;
    assert Configure(existing, byName, scan, [c]) == Configure1(existing, byName, scan, c);
    ScanIndexIsKeyIndex(existing, scanned);
    KeyIndexMeans(scan.devs, KeyOf(c));
    UniqueMeans(scan.devs, c.name);
    AddedMeans(existing, c);
    forall i: nat | i < |scan.devs| && scan.devs[i].name == c.name
      ensures ConfiguredFrom(scan.devs[i], [c], Override(scan.devs[i], c))
    {
      NotConfigured(scan.devs[i]);
      ConfiguredOnce(scan.devs[i], [], scan.devs[i], c);
      assert [] + [c] == [c];
    }
    SameLast(scan.devs, KeyOf(c));
    SameOnly(scan.devs, c.name);
  }

  predicate OnlyNamed(ds: seq<Device>, n: string, i: nat) {
    i < |ds| && ds[i].name == n && forall k :: 0 <= k < |ds| && k != i ==> ds[k].name != n
  }

  lemma SameLast(ds: seq<Device>, k: DeviceKey)
    ensures forall i: nat, j: nat :: LastUnder(ds, k, i) && LastUnder(ds, k, j) ==> i == j
    ensures forall i: nat :: LastUnder(ds, k, i) ==> HasKey(ds, k) && i < |ds| && ds[i].name == k.name
  {
  }

  lemma SameOnly(ds: seq<Device>, n: string)
    ensures forall i: nat, j: nat :: OnlyNamed(ds, n, i) && OnlyNamed(ds, n, j) ==> i == j
    ensures forall i: nat :: OnlyNamed(ds, n, i) ==> i < |ds| && ds[i].name == n
  {
  }

  lemma UniqueMeans(ds: seq<Device>, n: string)
    ensures n in UniqueIndex(ds) <==> NameCount(ds, n) == 1
    ensures n in UniqueIndex(ds) ==> OnlyNamed(ds, n, UniqueIndex(ds)[n])
    ensures forall i: nat :: OnlyNamed(ds, n, i) ==> NameCount(ds, n) == 1
  {
    hide LastAt;
    CountedNames(ds, n);
    if NameCount(ds, n) == 1 {
      CountedOnce(ds, n);
    }
    forall i: nat | OnlyNamed(ds, n, i)
      ensures NameCount(ds, n) == 1
    {
      OnlyOne(ds, i);
    }
  }

  lemma {:induction false} CountedOnce(ds: seq<Device>, n: string)
    requires NameCount(ds, n) == 1
    ensures n in NameSet(ds) && OnlyNamed(ds, n, LastAt(ds, n))
  {
    var init := ds[..|ds| - 1];
    CountedNames(ds, n);
    CountedNames(init, n);
    assert forall k :: 0 <= k < |init| ==> init[k] == ds[k];
    if ds[|ds| - 1].name == n {
      assert forall k :: 0 <= k < |init| ==> init[k].name in NameSet(init);
    } else {
      CountedOnce(init, n);
    }
  }

  lemma {:induction false} ScanIndexIsKeyIndex(existing: seq<Device>, scanned: seq<Device>)
    ensures Scan(existing, scanned).index == KeyIndex(Scan(existing, scanned).devs)
  {
    hide AdoptScanned, Sound;
    if scanned != [] {
      ScanIndexIsKeyIndex(existing, scanned[..|scanned| - 1]);
      var devs := Scan(existing, scanned).devs;
      assert devs[..|devs| - 1] == Scan(existing, scanned[..|scanned| - 1]).devs;
    }
  }

  /** The parser that a type stands for: two aliases of nvme, one of sat, and otherwise the type
      itself, all in lower case and without white space around them. */
  lemma ParserTypes(value: string)
    ensures
      var v := ToLower(TrimSpace(value));
      && (v in {"nvme", "sntasmedia", "sntrealtek"} ==> NormalizeParserType(value) == "nvme")
      && (v in {"sat", "ata"} ==> NormalizeParserType(value) == "sat")
      && (v !in {"nvme", "sntasmedia", "sntrealtek", "sat", "ata"} ==> NormalizeParserType(value) == v)
  {
    hide ToLower, TrimSpace;
  }

  /** The positions of a list that are named, in order, and what they hold. */
  ghost predicate PicksNamed(vs: seq<Slot>, ds: seq<Device>, at: seq<nat>) {
    && |at| == |ds|
    && (forall k :: 0 <= k < |at| ==> at[k] < |vs| && vs[at[k]] == Some(ds[k]) && ds[k].name != "")
    && (forall k, l :: 0 <= k < l < |at| ==> at[k] < at[l])
    && (forall i :: 0 <= i < |vs| && vs[i].Some? && vs[i].value.name != "" ==> i in at)
  }

  /** What the lists of the source hold that the merge looks at: the named devices, in order. */
  lemma {:induction false} NamedInOrder(vs: seq<Slot>) returns (at: seq<nat>)
    ensures PicksNamed(vs, NamedOf(vs), at)
  {
    hide PicksNamed;
    if vs == [] {
      at := [];
      NothingNamed();
    } else {
      var init, last := vs[..|vs| - 1], vs[|vs| - 1];
      at := NamedInOrder(init);
      assert vs == init + [last];
      PickNext(init, last, NamedOf(init), at);
      if last.Some? && last.value.name != "" {
        at := at + [|init|];
      }
    }
  }

  lemma NothingNamed()
    ensures PicksNamed([], NamedOf([]), [])
  {
  }

  lemma PickNext(init: seq<Slot>, last: Slot, ds: seq<Device>, at: seq<nat>)
    requires PicksNamed(init, ds, at)
    ensures if last.Some? && last.value.name != "" then PicksNamed(init + [last], ds + [last.value], at + [|init|])
            else PicksNamed(init + [last], ds, at) && PicksNamed(init + [last], ds + [], at)
  {
    var vs := init + [last];
    assert ds + [] == ds;
    assert forall k :: 0 <= k < |at| ==> vs[at[k]] == init[at[k]];
    assert forall i :: 0 <= i < |init| ==> vs[i] == init[i];
    assert forall i :: i in at + [|init|] <==> i in at || i == |init|;
  }

  /** The lists as the manager holds them: nil and nameless devices play no part, and the merged
      list holds no nil. */
  lemma MergedSlots(existing: seq<Slot>, scanned: seq<Slot>, configured: seq<Slot>)
    requires scanned != [] || configured != []
    ensures
      var merged, devs :=
        Merge(existing, scanned, configured), MergeNamed(NamedOf(existing), NamedOf(scanned), NamedOf(configured));
      |merged| == |devs| && forall i :: 0 <= i < |devs| ==> merged[i] == Some(devs[i])
  {
    hide MergeNamed;
  }
}
