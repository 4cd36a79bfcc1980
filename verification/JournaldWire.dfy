/** The bytes sent to journald, and a reader for them written from the "Data Format" section of
    systemd's Native Journal Protocol. A string stands for a byte string, one character a byte. */
module JournaldWire {
  import opened Basics

  datatype Field = Field(name: string, value: string)

  function Power256(k: nat): nat {
    if k == 0 then 1 else 256 * Power256(k - 1)
  }

  /** The k low bytes of n, least significant first. */
  function LittleEndian(n: nat, k: nat): (s: string)
    ensures |s| == k
  {
    if k == 0 then "" else [(n % 256) as char] + LittleEndian(n / 256, k - 1)
  }

  function FromLittleEndian(s: string): nat {
    if s == "" then 0 else s[0] as int + 256 * FromLittleEndian(s[1..])
  }

  lemma {:induction false} LittleEndianRoundTrip(n: nat, k: nat)
    requires n < Power256(k)
    ensures FromLittleEndian(LittleEndian(n, k)) == n
  {
    if k > 0 {
      LittleEndianRoundTrip(n / 256, k - 1);
      assert LittleEndian(n, k)[1..] == LittleEndian(n / 256, k - 1);
    }
  }

  /** The sum of the first k bytes, the j-th one counting 256 to the j. */
  function WeightedBytes(s: string, k: nat): nat
    requires k <= |s|
  {
    if k == 0 then 0 else WeightedBytes(s, k - 1) + s[k - 1] as int * Power256(k - 1)
  }

  lemma {:induction false} WeightedTail(s: string, k: nat)
    requires 0 < k <= |s|
    ensures WeightedBytes(s, k) == s[0] as int + 256 * WeightedBytes(s[1..], k - 1)
  {
    if k > 1 {
      WeightedTail(s, k - 1);
      assert s[1..][k - 2] == s[k - 1];
      Weight(s[k - 1] as int, Power256(k - 2));
    }
  }

  lemma Weight(b: int, p: int)
    ensures b * (256 * p) == 256 * (b * p)
  {
  }

  /** The bytes of a number stand for it, the least significant one first. */
  lemma {:induction false} BytesStandFor(n: nat, count: nat)
    requires n < Power256(count)
    ensures WeightedBytes(LittleEndian(n, count), count) == n
  {
    if count > 0 {
      BytesStandFor(n / 256, count - 1);
      var s := LittleEndian(n, count);
      assert s[1..] == LittleEndian(n / 256, count - 1);
      WeightedTail(s, count);
    }
  }

  lemma EightBytes()
    ensures Power256(8) == U64
  {
    assert Power256(2) == 0x1_0000;
    assert Power256(4) == 0x1_0000_0000;
    assert Power256(6) == 0x1_0000_0000_0000;
  }

  // ----- writing -----

  function Encode(f: Field): string {
    if '\n' in f.value
    then f.name + "\n" + LittleEndian(|f.value|, 8) + f.value + "\n"
    else f.name + "=" + f.value + "\n"
  }

  function EncodeAll(fs: seq<Field>): string {
    if fs == [] then "" else (if fs[0].name == "" then "" else Encode(fs[0])) + EncodeAll(fs[1..])
  }

  class Buffer {
    var bytes: string

    constructor ()
      ensures bytes == ""
    {
      bytes := "";
    }

    method Write(s: string)
      modifies this
      ensures bytes == old(bytes) + s
    {
      bytes := bytes + s;
    }

    method AppendField(name: string, value: string)
      modifies this
      ensures '\n' !in value ==> bytes == old(bytes) + name + "=" + value + "\n"
      ensures '\n' in value ==> bytes == old(bytes) + name + "\n" + LittleEndian(|value|, 8) + value + "\n"
      ensures bytes == old(bytes) + Encode(Field(name, value))
    {
      if '\n' in value {
        Write(name);
        Write("\n");
        Write(LittleEndian(|value|, 8));
        Write(value);
        Write("\n");
        return;
      }
      Write(name);
      Write("=");
      Write(value);
      Write("\n");
    }
  }

  /** The payload of one datagram; fields without a name are left out. */
  method Send(fields: seq<Field>) returns (payload: string)
    ensures payload == EncodeAll(fields)
  {
    hide Encode, EncodeAll;
    var buf := new Buffer();
    assert fields[0..] == fields;
    for i := 0 to |fields|
      invariant fresh(buf)
      invariant EncodeAll(fields) == buf.bytes + EncodeAll(fields[i..])
    {
      var field := fields[i];
      EncodeNext(fields, i);
      if field.name == "" {
        continue;
      }
      ghost var before, rest := buf.bytes, EncodeAll(fields[i + 1..]);
      assert before + (Encode(field) + rest) == (before + Encode(field)) + rest;
      buf.AppendField(field.name, field.value);
    }
    NothingToEncode();
    assert fields[|fields|..] == [];
    return buf.bytes;
  }

  lemma EncodeNext(fields: seq<Field>, i: nat)
    requires i < |fields|
    ensures
      var rest := EncodeAll(fields[i + 1..]);
      EncodeAll(fields[i..]) == if fields[i].name == "" then rest else Encode(fields[i]) + rest
  {
    hide Encode;
    assert fields[i..][1..] == fields[i + 1..];
  }

  lemma NothingToEncode()
    ensures EncodeAll([]) == ""
  {
  }

  // ----- reading -----

  predicate IsSeparator(c: char) {
    c == '=' || c == '\n'
  }

  function FirstSeparator(s: string): (i: nat)
    ensures i <= |s| && (i < |s| ==> IsSeparator(s[i]))
  {
    if s == "" || IsSeparator(s[0]) then 0 else 1 + FirstSeparator(s[1..])
  }

  function FirstNewline(s: string): (i: nat)
    ensures i <= |s| && (i < |s| ==> s[i] == '\n')
  {
    if s == "" || s[0] == '\n' then 0 else 1 + FirstNewline(s[1..])
  }

  /** One field off the front: a name, then "=" and a line, or a newline, a 64-bit size, that
      many bytes and a newline. */
  function DecodeField(s: string): (r: Option<(Field, string)>)
    ensures r.Some? ==> |r.value.1| < |s| && FirstSeparator(s) < |s| && r.value.0.name == s[..FirstSeparator(s)]
  {
    var k := FirstSeparator(s);
    if k == 0 || k == |s| then None
    else if s[k] == '=' then
      var n := FirstNewline(s[k + 1..]);
      if k + 1 + n >= |s| then None
      else Some((Field(s[..k], s[k + 1..k + 1 + n]), s[k + 1 + n + 1..]))
    else if |s| < k + 9 then None
    else
      var n := FromLittleEndian(s[k + 1..k + 9]);
      if |s| <= k + 9 + n || s[k + 9 + n] != '\n' then None
      else Some((Field(s[..k], s[k + 9..k + 9 + n]), s[k + 9 + n + 1..]))
  }

  function Decode(s: string): Option<seq<Field>>
    decreases |s|
  {
    if s == "" then Some([])
    else match DecodeField(s)
      case None => None
      case Some((f, rest)) =>
        match Decode(rest)
        case None => None
        case Some(fs) => Some([f] + fs)
  }

  // ----- the round trip -----

  /** Free of the two characters that end a name. */
  predicate Clean(name: string) {
    '=' !in name && '\n' !in name
  }

  lemma {:induction false} SeparatorAfter(name: string, rest: string)
    requires Clean(name) && rest != "" && IsSeparator(rest[0])
    ensures FirstSeparator(name + rest) == |name|
  {
    if name == "" {
      assert name + rest == rest;
    } else {
      assert (name + rest)[1..] == name[1..] + rest;
      SeparatorAfter(name[1..], rest);
    }
  }

  lemma {:induction false} SeparatorInside(name: string, rest: string)
    requires !Clean(name)
    ensures FirstSeparator(name + rest) < |name|
  {
    if !IsSeparator(name[0]) {
      assert (name + rest)[1..] == name[1..] + rest;
      assert name == [name[0]] + name[1..];
      SeparatorInside(name[1..], rest);
    }
  }

  lemma {:induction false} NewlineAfter(value: string, rest: string)
    requires '\n' !in value && rest != "" && rest[0] == '\n'
    ensures FirstNewline(value + rest) == |value|
  {
    if value == "" {
      assert value + rest == rest;
    } else {
      assert (value + rest)[1..] == value[1..] + rest;
      NewlineAfter(value[1..], rest);
    }
  }

  lemma SizedParts(name: string, size: string, value: string, rest: string)
    requires |size| == 8
    ensures
      var s, k, n := name + "\n" + size + value + "\n" + rest, |name|, |value|;
      && |s| == k + n + 10 + |rest|
      && s == name + ("\n" + size + value + "\n" + rest)
      && s[..k] == name && s[k] == '\n' && s[k + 1..k + 9] == size
      && s[k + 9..k + 9 + n] == value && s[k + 9 + n] == '\n' && s[k + 9 + n + 1..] == rest
  {
  }

  lemma SizedRoundTrip(f: Field, rest: string)
    requires f.name != "" && Clean(f.name) && '\n' in f.value && |f.value| < U64
    ensures DecodeField(Encode(f) + rest) == Some((f, rest))
  {
    hide FirstSeparator, LittleEndian, FromLittleEndian, Clean;
    var size := LittleEndian(|f.value|, 8);
    assert Encode(f) + rest == f.name + "\n" + size + f.value + "\n" + rest;
    SizedParts(f.name, size, f.value, rest);
    SeparatorAfter(f.name, "\n" + size + f.value + "\n" + rest);
    EightBytes();
    LittleEndianRoundTrip(|f.value|, 8);
  }

  lemma LineParts(name: string, value: string, rest: string)
    ensures
      var s, k, n := name + "=" + value + "\n" + rest, |name|, |value|;
      && |s| == k + n + 2 + |rest|
      && s == name + ("=" + value + "\n" + rest)
      && s[..k] == name && s[k] == '=' && s[k + 1..] == value + ("\n" + rest)
      && s[k + 1..k + 1 + n] == value && s[k + 1 + n + 1..] == rest
  {
  }

  lemma LineRoundTrip(f: Field, rest: string)
    requires f.name != "" && Clean(f.name) && '\n' !in f.value
    ensures DecodeField(Encode(f) + rest) == Some((f, rest))
  {
    hide FirstSeparator, FirstNewline, FromLittleEndian, Clean;
    LineParts(f.name, f.value, rest);
    SeparatorAfter(f.name, "=" + f.value + "\n" + rest);
    NewlineAfter(f.value, "\n" + rest);
  }

  /** A field with a clean name is read back, whatever its value and whatever follows. */
  lemma FieldRoundTrip(f: Field, rest: string)
    requires f.name != "" && Clean(f.name) && |f.value| < U64
    ensures DecodeField(Encode(f) + rest) == Some((f, rest))
  {
    if '\n' in f.value {
      SizedRoundTrip(f, rest);
    } else {
      LineRoundTrip(f, rest);
    }
  }

  /** A field whose name holds a separator is never read back under its name. */
  lemma DirtyNameIsLost(f: Field, rest: string)
    requires !Clean(f.name)
    ensures
      var r := DecodeField(Encode(f) + rest);
      r.Some? ==> |r.value.0.name| < |f.name|
  {
    hide FirstSeparator;
    var s := Encode(f) + rest;
    var tail := s[|f.name|..];
    assert s == f.name + tail;
    SeparatorInside(f.name, tail);
  }

  function NonEmpty(fs: seq<Field>): seq<Field> {
    if fs == [] then [] else (if fs[0].name == "" then [] else [fs[0]]) + NonEmpty(fs[1..])
  }

  /** For all field lists with values that fit a 64-bit size: the reader recovers exactly the
      named fields, in order, if and only if their names are free of '=' and newline. */
  lemma {:induction false} RoundTrip(fs: seq<Field>)
    requires forall f :: f in fs ==> |f.value| < U64
    ensures Decode(EncodeAll(fs)) == Some(NonEmpty(fs)) <==> forall f :: f in fs ==> Clean(f.name)
  {
    hide Encode, DecodeField, Clean;
    if fs != [] {
      var f, rest := fs[0], fs[1..];
      assert forall g :: g in fs <==> g == f || g in rest;
      RoundTrip(rest);
      if f.name == "" {
        EmptyIsClean();
        assert EncodeAll(fs) == EncodeAll(rest);
        assert NonEmpty(fs) == NonEmpty(rest);
      } else if Clean(f.name) {
        FieldRoundTrip(f, EncodeAll(rest));
        EncodedIsNonEmpty(f);
        assert NonEmpty(fs) == [f] + NonEmpty(rest);
        HeadCancels(f, Decode(EncodeAll(rest)), NonEmpty(rest));
      } else {
        DirtyNameIsLost(f, EncodeAll(rest));
        EncodedIsNonEmpty(f);
        assert NonEmpty(fs)[0] == f;
      }
    }
  }

  lemma EmptyIsClean()
    ensures Clean("")
  {
  }

  lemma EncodedIsNonEmpty(f: Field)
    ensures Encode(f) != ""
  {
  }

  lemma HeadCancels(f: Field, r: Option<seq<Field>>, fs: seq<Field>)
    ensures r.Some? ==> ([f] + r.value == [f] + fs <==> r.value == fs)
  {
    if r.Some? && [f] + r.value == [f] + fs {
      assert ([f] + r.value)[1..] == r.value && ([f] + fs)[1..] == fs;
    }
  }
}
