/** What reaches the journal of a record: its fields arrive, the handler's own ones survive, and
    the attributes' are those of their leaves. */
module JournaldRecords {
  import opened Basics
  import opened Text
  import opened JournaldWire
  import opened JournaldNames
  import opened JournaldHandler

  // ----- arrival -----

  predicate Sendable(name: string) {
    name != "" && Clean(name)
  }

  lemma {:induction false} PairsAreSendable(prefix: string, groups: seq<string>, attr: Attr)
    requires IsNormal(prefix)
    ensures forall f :: f in Pairs(prefix, groups, attr) ==> Sendable(f.name)
    decreases attr
  {
    hide IsNormal, Sendable;
    match attr.value
    case Nil =>
    case Scalar(text) =>
      FieldNamesAreClean(prefix, groups, attr.key);
      NonEmptyIsSendable(FieldName(prefix, groups, attr.key));
    case Group(children) =>
      AllPairsAreSendable(prefix, if attr.key == "" then groups else groups + [attr.key], children);
  }

  lemma NonEmptyIsSendable(name: string)
    requires Clean(name)
    ensures Sendable(name) <==> name != ""
  {
  }

  lemma {:induction false} AllPairsAreSendable(prefix: string, groups: seq<string>, attrs: seq<Attr>)
    requires IsNormal(prefix)
    ensures forall f :: f in PairsAll(prefix, groups, attrs) ==> Sendable(f.name)
    decreases attrs
  {
    hide IsNormal, Sendable;
    if attrs != [] {
      AllPairsAreSendable(prefix, groups, attrs[..|attrs| - 1]);
      PairsAreSendable(prefix, groups, attrs[|attrs| - 1]);
    }
  }

  lemma {:induction false} SetAllKeepsSendable(pairs: seq<Field>)
    requires forall f :: f in pairs ==> Sendable(f.name)
    ensures forall f :: f in SetAll([], pairs) ==> Sendable(f.name)
  {
    hide Sendable, PositionOf;
    if pairs != [] {
      SetAllKeepsSendable(pairs[..|pairs| - 1]);
    }
  }

  lemma HeaderIsSendable(config: Config, record: Record)
    ensures forall f :: f in HeaderFields(config, record) ==> Sendable(f.name)
  {
    hide Sendable, Decimal, PriorityForLevel;
    HeaderNamesAreSendable();
  }

  lemma HeaderNamesAreSendable()
    ensures Sendable("MESSAGE") && Sendable("PRIORITY") && Sendable("SYSLOG_IDENTIFIER")
    ensures Sendable("CODE_FILE") && Sendable("CODE_FUNC") && Sendable("CODE_LINE")
  {
  }

  lemma {:induction false} NonEmptyKeepsNamed(fs: seq<Field>)
    requires forall f :: f in fs ==> f.name != ""
    ensures NonEmpty(fs) == fs
  {
    if fs != [] {
      NonEmptyKeepsNamed(fs[1..]);
    }
  }

  /** Every record the handler sends is read back field by field. */
  lemma RecordArrives(config: Config, record: Record)
    requires IsNormal(config.prefix)
    requires forall f :: f in RecordFields(config, record) ==> |f.value| < U64
    ensures Decode(EncodeAll(RecordFields(config, record))) == Some(RecordFields(config, record))
    ensures UniqueNames(RecordFields(config, record))
  {
    hide IsNormal, HeaderFields, SetAll, EncodeAll, Decode, UniqueNames;
    HeaderIsSendable(config, record);
    AllPairsAreSendable(config.prefix, config.groups, config.attrs);
    AllPairsAreSendable(config.prefix, config.groups, record.attrs);
    SetAllKeepsSendable(RecordPairs(config, record));
    var fs := RecordFields(config, record);
    NonEmptyKeepsNamed(fs);
    RoundTrip(fs);
    SetAllMeans(RecordPairs(config, record));
  }

  lemma {:induction false} PairsAvoidReserved(prefix: string, groups: seq<string>, attr: Attr)
    requires prefix != "" && prefix != "SYSLOG"
    ensures forall f :: f in Pairs(prefix, groups, attr) ==> f.name !in RESERVED
    decreases attr
  {
    match attr.value
    case Nil =>
    case Scalar(text) => ReservedIsSafe(prefix, JoinParts(groups + [attr.key]));
    case Group(children) =>
      AllPairsAvoidReserved(prefix, if attr.key == "" then groups else groups + [attr.key], children);
  }

  lemma {:induction false} AllPairsAvoidReserved(prefix: string, groups: seq<string>, attrs: seq<Attr>)
    requires prefix != "" && prefix != "SYSLOG"
    ensures forall f :: f in PairsAll(prefix, groups, attrs) ==> f.name !in RESERVED
    decreases attrs
  {
    if attrs != [] {
      AllPairsAvoidReserved(prefix, groups, attrs[..|attrs| - 1]);
      PairsAvoidReserved(prefix, groups, attrs[|attrs| - 1]);
    }
  }

  lemma {:induction false} SetAllKeepsOthers(fs: seq<Field>, pairs: seq<Field>, n: nat)
    requires n <= |fs| && forall i :: 0 <= i < n ==> fs[i].name in RESERVED
    requires forall f :: f in pairs ==> f.name !in RESERVED
    ensures var gs := SetAll(fs, pairs); |gs| >= |fs| && gs[..n] == fs[..n]
  {
    if pairs != [] {
      SetAllKeepsOthers(fs, pairs[..|pairs| - 1], n);
      var gs, f := SetAll(fs, pairs[..|pairs| - 1]), pairs[|pairs| - 1];
      assert forall i :: 0 <= i < n ==> gs[i] == gs[..n][i] == fs[..n][i];
      assert PositionOf(gs, f.name) >= n;
    }
  }

  /** Under any prefix but the empty one and SYSLOG, the message, the priority and the identifier
      open the record with the handler's own values, whatever the attributes are. */
  lemma ReservedFieldsSurvive(config: Config, record: Record)
    requires config.prefix != "" && config.prefix != "SYSLOG"
    ensures |RecordFields(config, record)| >= 3
    ensures RecordFields(config, record)[0] == Field("MESSAGE", record.message)
    ensures RecordFields(config, record)[1] == Field("PRIORITY", PriorityForLevel(record.level))
    ensures RecordFields(config, record)[2] == Field("SYSLOG_IDENTIFIER", config.identifier)
  {
    hide SetAll, UniqueNames;
    var header := HeaderFields(config, record);
    assert header[0].name == RESERVED[0] && header[1].name == RESERVED[1] && header[2].name == RESERVED[2];
    AllPairsAvoidReserved(config.prefix, config.groups, config.attrs);
    AllPairsAvoidReserved(config.prefix, config.groups, record.attrs);
    RecordInOrder(config, record);
    var own := SetAll(header, PairsAll(config.prefix, config.groups, config.attrs));
    SetAllKeepsOthers(header, PairsAll(config.prefix, config.groups, config.attrs), 3);
    assert forall i :: 0 <= i < 3 ==> own[i] == own[..3][i] == header[..3][i];
    SetAllKeepsOthers(own, PairsAll(config.prefix, config.groups, record.attrs), 3);
  }

  /** Debug, info, warning and error levels start at -4, 0, 4 and 8; journald's numbers fall. */
  lemma Priorities(level: int)
    ensures level < 0 ==> PriorityForLevel(level) == "7"
    ensures 0 <= level < 4 ==> PriorityForLevel(level) == "6"
    ensures 4 <= level < 8 ==> PriorityForLevel(level) == "4"
    ensures 8 <= level ==> PriorityForLevel(level) == "3"
  {
  }

  /** A record's source is sent part by part, unknown parts left out; without a source, or if it
      is not wanted, nothing of it is. */
  lemma SourceIsSent(config: Config, record: Record)
    ensures
      var rest := HeaderFields(config, record)[3..];
      if !config.addSource || record.source.None? then rest == []
      else
        var source := record.source.value;
        && (forall f :: f in rest <==>
              || (source.file != "" && f == Field("CODE_FILE", source.file))
              || (source.func != "" && f == Field("CODE_FUNC", source.func))
              || (source.line != 0 && f == Field("CODE_LINE", Decimal(source.line))))
  {
    hide PriorityForLevel, Decimal;
  }

  // ----- what flattening means -----

  /** A leaf of an attribute: its text, and the keys on the way to it, empty ones left out on the
      way but not at the end. */
  datatype Leaf = Leaf(path: seq<string>, text: string)

  function LeavesOf(attr: Attr): seq<Leaf>
    decreases attr
  {
    match attr.value
    case Nil => []
    case Scalar(text) => [Leaf([attr.key], text)]
    case Group(children) => Under(attr.key, LeavesOfAll(children))
  }

  function LeavesOfAll(attrs: seq<Attr>): seq<Leaf>
    decreases attrs
  {
    if attrs == [] then [] else LeavesOf(attrs[0]) + LeavesOfAll(attrs[1..])
  }

  function Under(key: string, leaves: seq<Leaf>): (r: seq<Leaf>)
    ensures |r| == |leaves|
  {
    seq(|leaves|, i requires 0 <= i < |leaves| =>
      if key == "" then leaves[i] else Leaf([key] + leaves[i].path, leaves[i].text))
  }

  /** The field of a leaf under a group path; a leaf whose name is empty has none. */
  function FieldOf(prefix: string, groups: seq<string>, leaf: Leaf): seq<Field> {
    var path := groups + leaf.path;
    var name := if path == [] then "" else FieldName(prefix, path[..|path| - 1], path[|path| - 1]);
    if name == "" then [] else [Field(name, leaf.text)]
  }

  function FieldsOf(prefix: string, groups: seq<string>, leaves: seq<Leaf>): seq<Field> {
    if leaves == [] then [] else FieldOf(prefix, groups, leaves[0]) + FieldsOf(prefix, groups, leaves[1..])
  }

  lemma FieldsNext(prefix: string, groups: seq<string>, first: Leaf, rest: seq<Leaf>)
    ensures FieldsOf(prefix, groups, [first] + rest) == FieldOf(prefix, groups, first) + FieldsOf(prefix, groups, rest)
  {
    hide FieldOf;
    assert ([first] + rest)[1..] == rest;
  }

  lemma {:induction false} FieldsJoin(prefix: string, groups: seq<string>, a: seq<Leaf>, b: seq<Leaf>)
    ensures FieldsOf(prefix, groups, a + b) == FieldsOf(prefix, groups, a) + FieldsOf(prefix, groups, b)
  {
    hide FieldOf, FieldsOf;
    if a == [] {
      assert a + b == b;
      FieldsOfNothing(prefix, groups);
    } else {
      var first, rest := a[0], a[1..];
      FieldsJoin(prefix, groups, rest, b);
      assert a == [first] + rest && a + b == [first] + (rest + b);
      FieldsNext(prefix, groups, first, rest + b);
      FieldsNext(prefix, groups, first, rest);
    }
  }

  lemma FieldsOfNothing(prefix: string, groups: seq<string>)
    ensures FieldsOf(prefix, groups, []) == []
  {
  }

  lemma {:induction false} FieldsUnder(prefix: string, groups: seq<string>, key: string, leaves: seq<Leaf>)
    ensures FieldsOf(prefix, groups, Under(key, leaves))
         == FieldsOf(prefix, if key == "" then groups else groups + [key], leaves)
  {
    hide FieldOf;
    if leaves == [] {
      assert Under(key, leaves) == [];
    } else {
      FieldsUnder(prefix, groups, key, leaves[1..]);
      assert Under(key, leaves)[1..] == Under(key, leaves[1..]);
      FieldUnder(prefix, groups, key, leaves[0]);
    }
  }

  lemma FieldUnder(prefix: string, groups: seq<string>, key: string, leaf: Leaf)
    ensures FieldOf(prefix, groups, if key == "" then leaf else Leaf([key] + leaf.path, leaf.text))
         == FieldOf(prefix, if key == "" then groups else groups + [key], leaf)
  {
    hide FieldName;
    assert groups + ([key] + leaf.path) == groups + [key] + leaf.path;
  }

  /** Flattening an attribute yields the fields of its leaves, in order: no leaf is lost, added,
      moved or put under another path. */
  lemma {:induction false} PairsAreLeaves(prefix: string, groups: seq<string>, attr: Attr)
    ensures Pairs(prefix, groups, attr) == FieldsOf(prefix, groups, LeavesOf(attr))
    decreases attr
  {
    hide FieldName;
    match attr.value
    case Nil =>
    case Scalar(text) =>
      var path := groups + [attr.key];
      assert path[..|path| - 1] == groups;
      assert LeavesOf(attr)[1..] == [];
    case Group(children) =>
      AllPairsAreLeaves(prefix, if attr.key == "" then groups else groups + [attr.key], children);
      FieldsUnder(prefix, groups, attr.key, LeavesOfAll(children));
  }

  lemma {:induction false} AllPairsAreLeaves(prefix: string, groups: seq<string>, attrs: seq<Attr>)
    ensures PairsAll(prefix, groups, attrs) == FieldsOf(prefix, groups, LeavesOfAll(attrs))
    decreases attrs
  {
    hide FieldName, Pairs, FieldsOf;
    if attrs == [] {
      NoLeaves(prefix, groups);
    } else {
      AllPairsAreLeaves(prefix, groups, attrs[1..]);
      PairsAreLeaves(prefix, groups, attrs[0]);
      assert attrs == [attrs[0]] + attrs[1..];
      PairsAllConcat(prefix, groups, [attrs[0]], attrs[1..]);
      SinglePair(prefix, groups, attrs[0]);
      FieldsJoin(prefix, groups, LeavesOf(attrs[0]), LeavesOfAll(attrs[1..]));
    }
  }

  lemma NoLeaves(prefix: string, groups: seq<string>)
    ensures PairsAll(prefix, groups, []) == FieldsOf(prefix, groups, LeavesOfAll([]))
  {
  }

  lemma SinglePair(prefix: string, groups: seq<string>, attr: Attr)
    ensures PairsAll(prefix, groups, [attr]) == Pairs(prefix, groups, attr)
  {
    assert [attr][..0] == [];
  }

  lemma {:induction false} PairsAllConcat(prefix: string, groups: seq<string>, a: seq<Attr>, b: seq<Attr>)
    ensures PairsAll(prefix, groups, a + b) == PairsAll(prefix, groups, a) + PairsAll(prefix, groups, b)
  {
    if b == [] {
      assert a + b == a;
    } else {
      PairsAllConcat(prefix, groups, a, b[..|b| - 1]);
      assert (a + b)[..|a + b| - 1] == a + b[..|b| - 1];
    }
  }

  lemma AttributesInOneRow(config: Config, record: Record)
    ensures RecordPairs(config, record)
         == HeaderFields(config, record) + PairsAll(config.prefix, config.groups, config.attrs + record.attrs)
  {
    hide HeaderFields;
    PairsAllConcat(config.prefix, config.groups, config.attrs, record.attrs);
  }

  /** A handler's own attributes stand for attributes in front of the record's. */
  lemma OwnAttributesComeFirst(config: Config, record: Record)
    ensures RecordFields(config, record)
         == RecordFields(config.(attrs := []), record.(attrs := config.attrs + record.attrs))
  {
    hide SetAll, PairsAll, RecordPairs;
    var all := config.attrs + record.attrs;
    assert [] + all == all;
    AttributesInOneRow(config, record);
    AttributesInOneRow(config.(attrs := []), record.(attrs := all));
  }

  lemma GroupAsAttribute(prefix: string, groups: seq<string>, name: string, attrs: seq<Attr>)
    requires name != ""
    ensures PairsAll(prefix, groups, [] + [Attr(name, Group(attrs))]) == PairsAll(prefix, groups + [name], attrs)
  {
    var group := Attr(name, Group(attrs));
    assert ([] + [group])[..0] == [] && ([] + [group])[0] == group;
  }

  /** A handler's group stands for a group around all attributes, those given to the handler
      before the group included. */
  lemma HandlerGroupWrapsEverything(config: Config, record: Record, name: string)
    requires name != ""
    ensures RecordFields(config.(groups := config.groups + [name]), record)
         == RecordFields(config.(attrs := []), record.(attrs := [Attr(name, Group(config.attrs + record.attrs))]))
  {
    hide SetAll, PairsAll, RecordPairs;
    var all := config.attrs + record.attrs;
    AttributesInOneRow(config.(groups := config.groups + [name]), record);
    AttributesInOneRow(config.(attrs := []), record.(attrs := [Attr(name, Group(all))]));
    GroupAsAttribute(config.prefix, config.groups, name, all);
  }
}
