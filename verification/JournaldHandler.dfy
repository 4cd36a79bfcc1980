/** Turning log records into journald fields: attributes are flattened along their group path,
    and a later value replaces an earlier one in place. The group path lives in a growable slice
    whose backing array sibling groups share. */
module JournaldHandler {
  import opened Basics
  import opened JournaldWire
  import opened JournaldNames
  import opened Text

  // ----- the fields of one record -----

  function PositionOf(fs: seq<Field>, name: string): (i: nat)
    ensures i <= |fs| && (i < |fs| ==> fs[i].name == name)
    ensures forall j :: 0 <= j < i ==> fs[j].name != name
  {
    if fs == [] || fs[0].name == name then 0 else 1 + PositionOf(fs[1..], name)
  }

  /** The value at the name's first position, or a new field at the end. */
  function SetField(fs: seq<Field>, name: string, value: string): seq<Field> {
    var i := PositionOf(fs, name);
    if i < |fs| then fs[i := Field(name, value)] else fs + [Field(name, value)]
  }

  /** The field at the end, unless the name is taken. */
  function SetMissing(fs: seq<Field>, f: Field): seq<Field> {
    if PositionOf(fs, f.name) < |fs| then fs else fs + [f]
  }

  function SetAll(fs: seq<Field>, pairs: seq<Field>): seq<Field> {
    if pairs == [] then fs
    else SetField(SetAll(fs, pairs[..|pairs| - 1]), pairs[|pairs| - 1].name, pairs[|pairs| - 1].value)
  }

  predicate UniqueNames(fs: seq<Field>) {
    forall i, j :: 0 <= i < j < |fs| ==> fs[i].name != fs[j].name
  }

  /** Values by name; later pairs win. */
  function LastValues(pairs: seq<Field>): map<string, string> {
    if pairs == [] then map[]
    else LastValues(pairs[..|pairs| - 1])[pairs[|pairs| - 1].name := pairs[|pairs| - 1].value]
  }

  /** Names in the order of their first occurrence. */
  function FirstNames(pairs: seq<Field>): seq<string> {
    if pairs == [] then []
    else
      var before, n := FirstNames(pairs[..|pairs| - 1]), pairs[|pairs| - 1].name;
      if n in before then before else before + [n]
  }

  /** Names are unique, stand where they first occurred, and hold their last value. */
  lemma {:induction false} SetAllMeans(pairs: seq<Field>)
    ensures
      var fs := SetAll([], pairs);
      && UniqueNames(fs)
      && |fs| == |FirstNames(pairs)|
      && (forall i :: 0 <= i < |fs| ==> fs[i].name == FirstNames(pairs)[i])
      && (forall i :: 0 <= i < |fs| ==> fs[i].name in LastValues(pairs) && fs[i].value == LastValues(pairs)[fs[i].name])
      && (forall n :: n in LastValues(pairs) <==> n in FirstNames(pairs))
  {
    if pairs != [] {
      var init, last := pairs[..|pairs| - 1], pairs[|pairs| - 1];
      SetAllMeans(init);
      var before := SetAll([], init);
      var i := PositionOf(before, last.name);
      if i < |before| {
        assert FirstNames(init)[i] == last.name;
      } else {
        assert last.name !in FirstNames(init);
      }
    }
  }

  // ----- growable slices -----

  /** A view of the first elements of an array that other slices may share. */
  datatype Slice = Slice(backing: array<string>, len: nat) {
    ghost predicate Valid() {
      len <= backing.Length
    }

    ghost function View(): (s: seq<string>)
      requires Valid()
      reads backing
      ensures |s| == len
    {
      backing[..len]
    }
  }

  /** Writes into the shared array while there is room past the end of the slice, and moves to a
      larger array otherwise. */
  method Append(s: Slice, x: string) returns (t: Slice)
    requires s.Valid()
    modifies s.backing
    ensures t.Valid() && (t.backing == s.backing || fresh(t.backing))
    ensures t.View() == old(s.View()) + [x] && s.View() == old(s.View())
  {
    if s.len < s.backing.Length {
      s.backing[s.len] := x;
      return Slice(s.backing, s.len + 1);
    }
    var capacity: nat :| capacity > s.len;
    var larger := new string[capacity];
    for i := 0 to s.len
      invariant larger[..i] == s.backing[..i]
      invariant s.View() == old(s.View())
    {
      larger[i] := s.backing[i];
    }
    larger[s.len] := x;
    assert larger[..s.len] == s.View();
    t := Slice(larger, s.len + 1);
  }

  method AppendAll(s: Slice, xs: seq<string>) returns (t: Slice)
    requires s.Valid()
    modifies s.backing
    ensures t.Valid() && (t.backing == s.backing || fresh(t.backing))
    ensures t.View() == old(s.View()) + xs
  {
    t := s;
    for i := 0 to |xs|
      invariant t.Valid() && (t.backing == s.backing || fresh(t.backing))
      invariant t.View() == old(s.View()) + xs[..i]
    {
      t := Append(t, xs[i]);
    }
  }

  // ----- the state of one record -----

  /** The fields, the index from name to position, and the group path. */
  class HandlerState {
    var fields: seq<Field>
    var index: map<string, nat>
    var groups: Slice

    /** The index is a bijection between the names and the positions. */
    ghost predicate Valid()
      reads this
    {
      && (forall n :: n in index ==> index[n] < |fields| && fields[index[n]].name == n)
      && (forall i :: 0 <= i < |fields| ==> fields[i].name in index && index[fields[i].name] == i)
    }

    constructor ()
      ensures Valid() && fields == [] && groups.Valid() && groups.len == 0 && fresh(groups.backing)
    {
      fields, index := [], map[];
      var backing := new string[4];
      groups := Slice(backing, 0);
    }

    /** Empties the state; the array of the group path is kept for the next record. */
    method Reset()
      modifies this
      ensures Valid() && fields == [] && groups == Slice(old(groups).backing, 0)
    {
      fields, index := [], map[];
      groups := Slice(groups.backing, 0);
    }

    method Set(name: string, value: string)
      requires Valid()
      modifies this`fields, this`index
      ensures Valid() && fields == SetField(old(fields), name, value)
    {
      ghost var i := PositionOf(fields, name);
      if name in index {
        var idx := index[name];
        assert i == idx;
        fields := fields[idx := Field(fields[idx].name, value)];
        return;
      }
      index := index[name := |fields|];
      fields := fields + [Field(name, value)];
    }

    method SetIfMissing(name: string, value: string)
      requires Valid()
      modifies this`fields, this`index
      ensures Valid()
      ensures fields == SetMissing(old(fields), Field(name, value))
    {
      if name in index {
        return;
      }
      index := index[name := |fields|];
      fields := fields + [Field(name, value)];
    }
  }

  // ----- attributes -----

  /** A resolved value: no value, text, or a group of attributes. */
  datatype Value = Nil | Scalar(text: string) | Group(children: seq<Attr>)

  datatype Attr = Attr(key: string, value: Value)

  /** The fields an attribute stands for under a group path, in order. */
  function Pairs(prefix: string, groups: seq<string>, attr: Attr): seq<Field>
    decreases attr
  {
    match attr.value
    case Nil => []
    case Scalar(text) =>
      var name := FieldName(prefix, groups, attr.key);
      if name == "" then [] else [Field(name, text)]
    case Group(children) => PairsAll(prefix, if attr.key == "" then groups else groups + [attr.key], children)
  }

  function PairsAll(prefix: string, groups: seq<string>, attrs: seq<Attr>): seq<Field>
    decreases attrs
  {
    if attrs == [] then []
    else PairsAll(prefix, groups, attrs[..|attrs| - 1]) + Pairs(prefix, groups, attrs[|attrs| - 1])
  }

  lemma {:induction false} SetAllConcat(fs: seq<Field>, a: seq<Field>, b: seq<Field>)
    ensures SetAll(SetAll(fs, a), b) == SetAll(fs, a + b)
  {
    if b == [] {
      assert a + b == a;
    } else {
      SetAllConcat(fs, a, b[..|b| - 1]);
      assert (a + b)[..|a + b| - 1] == a + b[..|b| - 1];
    }
  }

  lemma PairsAllNext(prefix: string, groups: seq<string>, attrs: seq<Attr>, i: nat, fs: seq<Field>)
    requires i < |attrs|
    ensures
      SetAll(SetAll(fs, PairsAll(prefix, groups, attrs[..i])), Pairs(prefix, groups, attrs[i]))
      == SetAll(fs, PairsAll(prefix, groups, attrs[..i + 1]))
  {
    hide SetAll, Pairs;
    assert attrs[..i + 1][..i] == attrs[..i];
    SetAllConcat(fs, PairsAll(prefix, groups, attrs[..i]), Pairs(prefix, groups, attrs[i]));
  }

  lemma NothingSet(fs: seq<Field>, prefix: string, groups: seq<string>)
    ensures SetAll(fs, PairsAll(prefix, groups, [])) == fs
  {
  }

  lemma OneSet(fs: seq<Field>, f: Field)
    ensures SetAll(fs, [f]) == SetField(fs, f.name, f.value)
  {
    assert [f][..0] == [];
  }

  /** Sibling and nested groups never disturb each other's path, although they append to one
      array: the fields are those of the pure flattening, and the caller's path is untouched. */
  method AddAttr(prefix: string, state: HandlerState, groups: Slice, attr: Attr)
    requires state.Valid() && groups.Valid()
    modifies state`fields, state`index, groups.backing
    ensures state.Valid() && groups.View() == old(groups.View())
    ensures state.fields == SetAll(old(state.fields), Pairs(prefix, old(groups.View()), attr))
    decreases attr, 1
  {
    hide SetAll, SetField, FieldName;
    if attr == Attr("", Nil) {
      NothingSet(state.fields, prefix, []);
      return;
    }
    if attr.value.Group? {
      var nextGroups := groups;
      if attr.key != "" {
        nextGroups := Append(nextGroups, attr.key);
      }
      AddChildren(prefix, state, groups, nextGroups, attr.value.children);
      return;
    }
    var fieldName := FieldNameForAttr(prefix, groups.backing[..groups.len], attr.key);
    if fieldName == "" || attr.value.Nil? {
      NothingSet(state.fields, prefix, []);
      return;
    }
    OneSet(state.fields, Field(fieldName, attr.value.text));
    state.Set(fieldName, attr.value.text);
  }

  /** The loop over the members of a group, whose path extends the caller's. */
  method AddChildren(prefix: string, state: HandlerState, groups: Slice, nextGroups: Slice, children: seq<Attr>)
    requires state.Valid() && groups.Valid() && nextGroups.Valid()
    requires nextGroups.backing == groups.backing ==> groups.len <= nextGroups.len
    modifies state`fields, state`index, nextGroups.backing
    ensures state.Valid() && groups.View() == old(groups.View()) && nextGroups.View() == old(nextGroups.View())
    ensures state.fields == SetAll(old(state.fields), PairsAll(prefix, old(nextGroups.View()), children))
    decreases children, 0
  {
    hide SetAll, Pairs, PairsAll;
    ghost var fs, path := state.fields, nextGroups.View();
    NothingSet(fs, prefix, path);
    assert children[..0] == [];
    for i := 0 to |children|
      invariant state.Valid() && groups.View() == old(groups.View()) && nextGroups.View() == path
      invariant state.fields == SetAll(fs, PairsAll(prefix, path, children[..i]))
    {
      PairsAllNext(prefix, path, children, i, fs);
      AddAttr(prefix, state, nextGroups, children[i]);
      assert nextGroups.backing == groups.backing ==> groups.View() == nextGroups.View()[..groups.len];
    }
    assert children[..|children|] == children;
  }

  // ----- records -----

  /** Where a record was logged from; empty or zero parts are unknown. */
  datatype Source = Source(file: string, func: string, line: nat)

  datatype Record = Record(message: string, level: int, source: Option<Source>, attrs: seq<Attr>)

  function PriorityForLevel(level: int): string {
    if level < 0 then "7" else if level < 4 then "6" else if level < 8 then "4" else "3"
  }

  function SourcePairs(source: Source): seq<Field> {
    (if source.file == "" then [] else [Field("CODE_FILE", source.file)])
    + (if source.func == "" then [] else [Field("CODE_FUNC", source.func)])
    + (if source.line == 0 then [] else [Field("CODE_LINE", Decimal(source.line))])
  }

  datatype Config = Config(identifier: string, prefix: string, addSource: bool, attrs: seq<Attr>, groups: seq<string>)

  function HeaderFields(config: Config, record: Record): seq<Field> {
    [Field("MESSAGE", record.message), Field("PRIORITY", PriorityForLevel(record.level)),
     Field("SYSLOG_IDENTIFIER", config.identifier)]
    + (if config.addSource && record.source.Some? then SourcePairs(record.source.value) else [])
  }

  /** All assignments one record causes, in order. */
  function RecordPairs(config: Config, record: Record): seq<Field> {
    HeaderFields(config, record)
    + PairsAll(config.prefix, config.groups, config.attrs)
    + PairsAll(config.prefix, config.groups, record.attrs)
  }

  function RecordFields(config: Config, record: Record): seq<Field> {
    SetAll([], RecordPairs(config, record))
  }

  lemma SetNew(fs: seq<Field>, name: string, value: string)
    requires forall f :: f in fs ==> f.name != name
    ensures PositionOf(fs, name) == |fs| && SetField(fs, name, value) == fs + [Field(name, value)]
  {
  }

  lemma HeaderNamesDiffer()
    ensures "MESSAGE" != "PRIORITY" && "SYSLOG_IDENTIFIER" !in ["MESSAGE", "PRIORITY"]
    ensures "CODE_FILE" !in RESERVED && "CODE_FUNC" !in RESERVED && "CODE_LINE" !in RESERVED
    ensures "CODE_FUNC" != "CODE_FILE" && "CODE_LINE" !in ["CODE_FILE", "CODE_FUNC"]
  {
    assert |"MESSAGE"| == 7 && |"PRIORITY"| == 8 && |"SYSLOG_IDENTIFIER"| == 17;
    assert |"CODE_FILE"| == |"CODE_FUNC"| == |"CODE_LINE"| == 9;
    assert "CODE_FILE"[6] == 'I' && "CODE_FUNC"[6] == 'U' && "CODE_LINE"[5] == 'L' && "CODE_FILE"[5] == 'F';
    assert "CODE_FUNC"[5] == 'F';
  }

  method SetReserved(state: HandlerState, record: Record, identifier: string)
    requires state.Valid() && state.fields == []
    modifies state`fields, state`index
    ensures state.Valid()
    ensures state.fields == [Field("MESSAGE", record.message), Field("PRIORITY", PriorityForLevel(record.level)),
                             Field("SYSLOG_IDENTIFIER", identifier)]
  {
    HeaderNamesDiffer();
    hide SetField, PositionOf, PriorityForLevel, HandlerState.Valid;
    SetNew(state.fields, "MESSAGE", record.message);
    state.Set("MESSAGE", record.message);
    SetNew(state.fields, "PRIORITY", PriorityForLevel(record.level));
    state.Set("PRIORITY", PriorityForLevel(record.level));
    SetNew(state.fields, "SYSLOG_IDENTIFIER", identifier);
    state.Set("SYSLOG_IDENTIFIER", identifier);
  }

  function SetAllMissing(fs: seq<Field>, pairs: seq<Field>): seq<Field> {
    if pairs == [] then fs else SetMissing(SetAllMissing(fs, pairs[..|pairs| - 1]), pairs[|pairs| - 1])
  }

  lemma OneMissing(fs: seq<Field>, pairs: seq<Field>, f: Field)
    ensures SetAllMissing(fs, pairs + [f]) == SetMissing(SetAllMissing(fs, pairs), f)
    ensures SetAllMissing(fs, pairs + []) == SetAllMissing(fs, pairs)
  {
    hide SetMissing;
    assert (pairs + [f])[..|pairs|] == pairs && pairs + [] == pairs;
  }

  /** The known parts of a source become fields, in order, unless their names are taken. */
  method AddSourceFields(state: HandlerState, source: Source)
    requires state.Valid()
    modifies state`fields, state`index
    ensures state.Valid() && state.fields == SetAllMissing(old(state.fields), SourcePairs(source))
  {
    hide HandlerState.Valid, SetAllMissing, SetMissing, Decimal;
    ghost var fs, done := state.fields, [];
    NoneMissing(fs);
    if source.file != "" {
      OneMissing(fs, done, Field("CODE_FILE", source.file));
      state.SetIfMissing("CODE_FILE", source.file);
      done := done + [Field("CODE_FILE", source.file)];
    }
    if source.func != "" {
      OneMissing(fs, done, Field("CODE_FUNC", source.func));
      state.SetIfMissing("CODE_FUNC", source.func);
      done := done + [Field("CODE_FUNC", source.func)];
    }
    if source.line != 0 {
      var line := Decimal(source.line);
      OneMissing(fs, done, Field("CODE_LINE", line));
      state.SetIfMissing("CODE_LINE", line);
      done := done + [Field("CODE_LINE", line)];
    }
    assert done == SourcePairs(source);
  }

  lemma NoneMissing(fs: seq<Field>)
    ensures SetAllMissing(fs, []) == fs
  {
  }

  lemma {:induction false} AllMissing(fs: seq<Field>, pairs: seq<Field>)
    requires UniqueNames(fs + pairs)
    ensures SetAllMissing(fs, pairs) == fs + pairs
  {
    if pairs == [] {
      assert fs + pairs == fs;
    } else {
      var init, last := pairs[..|pairs| - 1], pairs[|pairs| - 1];
      var all := fs + init;
      assert fs + pairs == all + [last];
      assert forall i :: 0 <= i < |all| ==> all[i] == (all + [last])[i];
      AllMissing(fs, init);
      assert (all + [last])[|all|] == last;
      SetNew(all, last.name, last.value);
    }
  }

  lemma {:induction false} SetAllNew(fs: seq<Field>)
    requires UniqueNames(fs)
    ensures SetAll([], fs) == fs
  {
    if fs != [] {
      SetAllNew(fs[..|fs| - 1]);
      SetNew(fs[..|fs| - 1], fs[|fs| - 1].name, fs[|fs| - 1].value);
    }
  }

  lemma HeaderIsUnique(config: Config, record: Record)
    ensures UniqueNames(HeaderFields(config, record))
  {
    hide PriorityForLevel;
    HeaderNamesDiffer();
    var fs := HeaderFields(config, record);
    assert forall i :: 3 <= i < |fs| ==> fs[i].name !in RESERVED;
    assert fs[0].name == RESERVED[0] && fs[1].name == RESERVED[1] && fs[2].name == RESERVED[2];
  }

  /** No source field is missing from a record that holds only the reserved fields so far. */
  lemma HeaderIsSet(config: Config, record: Record)
    requires config.addSource && record.source.Some?
    ensures
      var reserved := [Field("MESSAGE", record.message), Field("PRIORITY", PriorityForLevel(record.level)),
                       Field("SYSLOG_IDENTIFIER", config.identifier)];
      SetAllMissing(reserved, SourcePairs(record.source.value)) == HeaderFields(config, record)
  {
    hide UniqueNames, SetAllMissing, SourcePairs, PriorityForLevel;
    HeaderIsUnique(config, record);
    AllMissing(HeaderFields(config, record)[..3], SourcePairs(record.source.value));
  }

  lemma RecordInOrder(config: Config, record: Record)
    ensures
      SetAll(SetAll(HeaderFields(config, record), PairsAll(config.prefix, config.groups, config.attrs)),
             PairsAll(config.prefix, config.groups, record.attrs))
      == RecordFields(config, record)
  {
    hide SetAll, PairsAll, HeaderFields, UniqueNames;
    var header := HeaderFields(config, record);
    var own := PairsAll(config.prefix, config.groups, config.attrs);
    HeaderIsUnique(config, record);
    SetAllNew(header);
    SetAllConcat([], header, own);
    SetAllConcat([], header + own, PairsAll(config.prefix, config.groups, record.attrs));
  }

  /** A handler's spare state, reused from record to record. */
  class StatePool {
    var spare: HandlerState?

    constructor ()
      ensures Valid() && fresh(Footprint() - {this})
    {
      spare := null;
    }

    ghost predicate Valid()
      reads this, spare
    {
      spare != null ==> spare.groups.Valid()
    }

    ghost function Footprint(): set<object>
      reads this, spare
    {
      {this} + if spare == null then {} else {spare, spare.groups.backing}
    }

    /** Any leftovers in the spare state are cleared; the pool may also have lost it. */
    method GetState() returns (state: HandlerState)
      requires Valid()
      modifies Footprint()
      ensures spare == null
      ensures state.Valid() && state.fields == [] && state.groups.Valid() && state.groups.len == 0
      ensures {state, state.groups.backing} <= old(Footprint()) || fresh({state, state.groups.backing})
    {
      var kept: bool := *;
      if spare != null && kept {
        state := spare;
        state.Reset();
      } else {
        state := new HandlerState();
      }
      spare := null;
    }

    method PutState(state: HandlerState)
      requires state.groups.Valid()
      modifies this, state
      ensures Valid() && spare == state && state.groups.backing == old(state.groups.backing)
    {
      state.Reset();
      spare := state;
    }
  }

  class Handler {
    const config: Config
    const pool: StatePool

    constructor (config: Config, pool: StatePool)
      ensures this.config == config && this.pool == pool
    {
      this.config, this.pool := config, pool;
    }

    method WithAttrs(attrs: seq<Attr>) returns (clone: Handler)
      ensures fresh(clone) && clone.config == config.(attrs := config.attrs + attrs) && clone.pool == pool
    {
      clone := new Handler(config.(attrs := config.attrs + attrs), pool);
    }

    method WithGroup(name: string) returns (clone: Handler)
      ensures if name == "" then clone == this
              else fresh(clone) && clone.config == config.(groups := config.groups + [name])
      ensures clone.pool == pool
    {
      if name == "" {
        return this;
      }
      clone := new Handler(config.(groups := config.groups + [name]), pool);
    }

    /** Writes a record's fields into an empty state. */
    method Fill(state: HandlerState, record: Record)
      requires state.Valid() && state.fields == [] && state.groups.Valid() && state.groups.len == 0
      modifies state, state.groups.backing
      ensures state.fields == RecordFields(config, record)
      ensures state.groups.Valid()
      ensures state.groups.backing == old(state.groups.backing) || fresh(state.groups.backing)
    {
      hide SetAll, PairsAll, RecordFields, SourcePairs, PriorityForLevel, SetAllMissing;
      SetReserved(state, record, config.identifier);
      state.groups := AppendAll(state.groups, config.groups);
      if config.addSource && record.source.Some? {
        AddSourceFields(state, record.source.value);
        HeaderIsSet(config, record);
      }
      assert state.fields == HeaderFields(config, record) && state.groups.View() == config.groups;
      hide HeaderFields;
      AddChildren(config.prefix, state, state.groups, state.groups, config.attrs);
      AddChildren(config.prefix, state, state.groups, state.groups, record.attrs);
      RecordInOrder(config, record);
    }

    /** The payload depends on the configuration and the record only: nothing of an earlier
        record in the reused state or the shared group array gets through. */
    method Handle(record: Record) returns (payload: string)
      requires pool.Valid()
      modifies pool.Footprint()
      ensures pool.Valid() && fresh(pool.Footprint() - old(pool.Footprint()))
      ensures payload == EncodeAll(RecordFields(config, record))
    {
      hide EncodeAll, RecordFields, HandlerState.Valid;
      var state := pool.GetState();
      Fill(state, record);
      payload := Send(state.fields);
      pool.PutState(state);
    }
  }

  /** Fails on a blank identifier, and when no sender is given and none can be created; the
      prefix is normalised once and for all. */
  method NewHandler(identifier: string, fieldPrefix: string, addSource: bool, sender: Result<()>)
    returns (r: Result<Handler>)
    ensures r.Err? <==> TrimSpace(identifier) == "" || sender.Err?
    ensures TrimSpace(identifier) != "" && sender.Err? ==> r == Err(sender.message)
    ensures r.Ok? ==> r.value.config == Config(identifier, Normalize(fieldPrefix), addSource, [], [])
    ensures r.Ok? ==> IsNormal(r.value.config.prefix) && fresh(r.value.pool.Footprint())
  {
    if TrimSpace(identifier) == "" {
      return Err("journald handler requires an identifier");
    }
    if sender.Err? {
      return Err(sender.message);
    }
    NormalizeIsNormal(fieldPrefix);
    var pool := new StatePool();
    var handler := new Handler(Config(identifier, Normalize(fieldPrefix), addSource, [], []), pool);
    return Ok(handler);
  }
}
