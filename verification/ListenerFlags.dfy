/** The listener flags of the command line: reading a specification, printing a listener back
    as a specification, and starting a detached process with the printed flags. */
module ListenerFlags {
  import opened Basics
  import opened Text

  datatype Listener = Listener(name: string, address: string, apis: seq<string>)

  const API_SEPARATORS := {'|', '+', ';'}

  // ----- library operations -----

  /** The pieces between separators; always at least one. */
  function SplitOn(s: string, seps: set<char>): (pieces: seq<string>)
    ensures |pieces| > 0
  {
    if s == "" then [""]
    else
      var rest := SplitOn(s[1..], seps);
      if s[0] in seps then [""] + rest else [[s[0]] + rest[0]] + rest[1..]
  }

  function Join(pieces: seq<string>, sep: char): string {
    if pieces == [] then ""
    else if |pieces| == 1 then pieces[0]
    else pieces[0] + [sep] + Join(pieces[1..], sep)
  }

  function FirstEquals(s: string): (i: nat)
    ensures i <= |s| && (i < |s| ==> s[i] == '=')
    ensures forall j :: 0 <= j < i ==> s[j] != '='
  {
    if s == "" || s[0] == '=' then 0 else 1 + FirstEquals(s[1..])
  }

  /** The parts before and after the first '='. */
  function Cut(s: string): (r: Option<(string, string)>)
    ensures r.None? <==> '=' !in s
  {
    var i := FirstEquals(s);
    if i == |s| then None else Some((s[..i], s[i + 1..]))
  }

  predicate Avoids(s: string, seps: set<char>) {
    forall c :: c in s ==> c !in seps
  }

  lemma {:induction false} PiecesAvoid(s: string, seps: set<char>)
    ensures forall p :: p in SplitOn(s, seps) ==> Avoids(p, seps)
    ensures forall p, c :: p in SplitOn(s, seps) && c in p ==> c in s
  {
    if s != "" {
      PiecesAvoid(s[1..], seps);
      var rest := SplitOn(s[1..], seps);
      assert rest[0] in rest;
      assert forall p :: p in rest[1..] ==> p in rest;
    }
  }

  lemma {:induction false} SplitPrefix(p: string, t: string, seps: set<char>)
    requires Avoids(p, seps) && t != "" && t[0] in seps
    ensures SplitOn(p + t, seps) == [p] + SplitOn(t[1..], seps)
  {
    if p == "" {
      assert p + t == t;
    } else {
      assert (p + t)[1..] == p[1..] + t;
      assert p[0] in p && forall c :: c in p[1..] ==> c in p;
      SplitPrefix(p[1..], t, seps);
      assert [p[0]] + p[1..] == p;
    }
  }

  lemma {:induction false} SplitWhole(p: string, seps: set<char>)
    requires Avoids(p, seps)
    ensures SplitOn(p, seps) == [p]
  {
    if p != "" {
      assert p[0] in p && forall c :: c in p[1..] ==> c in p;
      SplitWhole(p[1..], seps);
      assert [p[0]] + p[1..] == p;
    }
  }

  lemma {:induction false} SplitJoined(pieces: seq<string>, sep: char, seps: set<char>)
    requires pieces != [] && sep in seps && forall p :: p in pieces ==> Avoids(p, seps)
    ensures SplitOn(Join(pieces, sep), seps) == pieces
  {
    hide Avoids;
    if |pieces| == 1 {
      SplitWhole(pieces[0], seps);
    } else {
      var t := [sep] + Join(pieces[1..], sep);
      assert Join(pieces, sep) == pieces[0] + t;
      SplitPrefix(pieces[0], t, seps);
      assert t[1..] == Join(pieces[1..], sep);
      SplitJoined(pieces[1..], sep, seps);
    }
  }

  lemma {:induction false} JoinedCharacters(pieces: seq<string>, sep: char, c: char)
    requires c in Join(pieces, sep)
    ensures c == sep || exists p :: p in pieces && c in p
  {
    if |pieces| > 1 && c in Join(pieces[1..], sep) {
      JoinedCharacters(pieces[1..], sep, c);
    }
  }

  // ----- reading -----

  /** The pieces without the white space around them, and without the empty ones. */
  function TrimmedPieces(pieces: seq<string>): seq<string> {
    if pieces == [] then []
    else
      var p := TrimSpace(pieces[|pieces| - 1]);
      TrimmedPieces(pieces[..|pieces| - 1]) + (if p == "" then [] else [p])
  }

  function APIs(raw: string): seq<string> {
    TrimmedPieces(SplitOn(raw, API_SEPARATORS))
  }

  /** What strings.FieldsFunc returns: the pieces that are not empty. */
  function Fields(pieces: seq<string>): seq<string> {
    if pieces == [] then []
    else Fields(pieces[..|pieces| - 1]) + (if pieces[|pieces| - 1] == "" then [] else [pieces[|pieces| - 1]])
  }

  lemma {:induction false} FieldsTrimAlike(pieces: seq<string>)
    ensures TrimmedPieces(Fields(pieces)) == TrimmedPieces(pieces)
  {
    if pieces != [] {
      var init, p := pieces[..|pieces| - 1], pieces[|pieces| - 1];
      FieldsTrimAlike(init);
      if p == "" {
        assert TrimSpace(p) == "" && Fields(pieces) == Fields(init);
      } else {
        assert Fields(pieces)[..|Fields(pieces)| - 1] == Fields(init);
      }
    }
  }

  method SplitListenerAPIs(raw: string) returns (out: seq<string>)
    ensures out == APIs(raw)
  {
    var fields := Fields(SplitOn(raw, API_SEPARATORS));
    out := [];
    for i := 0 to |fields|
      invariant out == TrimmedPieces(fields[..i])
    {
      assert fields[..i + 1][..i] == fields[..i];
      var field := TrimSpace(fields[i]);
      if field != "" {
        out := out + [field];
      }
    }
    assert fields[..|fields|] == fields;
    FieldsTrimAlike(SplitOn(raw, API_SEPARATORS));
  }

  /** One key=value part on top of what the parts before it gave. */
  function ApplyPart(listener: Listener, part: string): Result<Listener> {
    match Cut(part)
    case None => Err("expected key=value in listener spec")
    case Some((rawKey, rawValue)) =>
      var key, value := ToLower(TrimSpace(rawKey)), TrimSpace(rawValue);
      if key == "name" then Ok(listener.(name := value))
      else if key == "address" || key == "addr" then Ok(listener.(address := value))
      else if key == "apis" || key == "api" then Ok(listener.(apis := APIs(value)))
      else Err("unknown listener key")
  }

  /** All parts in order, up to the first error. */
  function ApplyParts(parts: seq<string>): Result<Listener> {
    if parts == [] then Ok(Listener("", "", []))
    else
      match ApplyParts(parts[..|parts| - 1])
      case Err(m) => Err(m)
      case Ok(listener) => ApplyPart(listener, parts[|parts| - 1])
  }

  function Defaults(listener: Listener, position: nat): Result<Listener> {
    if listener.address == "" then Err("listener address is required")
    else Ok(Listener(if listener.name == "" then "listener-" + Decimal(position + 1) else listener.name,
                     listener.address,
                     if listener.apis == [] then ["metrics"] else listener.apis))
  }

  /** The listener a specification stands for when it is the given position's. */
  function ParseSpec(raw: string, position: nat): Result<Listener> {
    match ApplyParts(SplitOn(raw, {','}))
    case Err(m) => Err(m)
    case Ok(listener) => Defaults(listener, position)
  }

  class ListenerListFlag {
    var values: seq<Listener>

    constructor ()
      ensures values == []
    {
      values := [];
    }

    /** Appends the listener or leaves the list alone. */
    method Set(raw: string) returns (r: Result<()>)
      modifies this
      ensures
        match ParseSpec(raw, |old(values)|)
        case Ok(listener) => r == Ok(()) && values == old(values) + [listener]
        case Err(m) => r == Err(m) && values == old(values)
    {
      hide SplitOn, TrimSpace, ToLower, Decimal, APIs, Cut;
      var listener := Listener("", "", []);
      var parts := SplitOn(raw, {','});
      for i := 0 to |parts|
        invariant ApplyParts(parts[..i]) == Ok(listener) && values == old(values)
      {
        PartsInOrder(parts, i);
        var part := parts[i];
        var cut := Cut(part);
        if cut.None? {
          return Err("expected key=value in listener spec");
        }
        var key, value := ToLower(TrimSpace(cut.value.0)), TrimSpace(cut.value.1);
        if key == "name" {
          listener := listener.(name := value);
        } else if key == "address" || key == "addr" {
          listener := listener.(address := value);
        } else if key == "apis" || key == "api" {
          var apis := SplitListenerAPIs(value);
          listener := listener.(apis := apis);
        } else {
          return Err("unknown listener key");
        }
      }
      assert parts[..|parts|] == parts;
      if listener.name == "" {
        listener := listener.(name := "listener-" + Decimal(|values| + 1));
      }
      if listener.address == "" {
        return Err("listener address is required");
      }
      if |listener.apis| == 0 {
        listener := listener.(apis := ["metrics"]);
      }
      values := values + [listener];
      return Ok(());
    }
  }

  /** An error in the first parts is the error of the whole. */
  lemma {:induction false} FirstErrorWins(parts: seq<string>, i: nat)
    requires i <= |parts| && ApplyParts(parts[..i]).Err?
    ensures ApplyParts(parts) == ApplyParts(parts[..i])
  {
    if i < |parts| {
      assert parts[..|parts| - 1][..i] == parts[..i];
      FirstErrorWins(parts[..|parts| - 1], i);
    } else {
      assert parts[..i] == parts;
    }
  }

  lemma PartsInOrder(parts: seq<string>, i: nat)
    requires i < |parts| && ApplyParts(parts[..i]).Ok?
    ensures ApplyParts(parts[..i + 1]) == ApplyPart(ApplyParts(parts[..i]).value, parts[i])
    ensures ApplyParts(parts[..i + 1]).Err? ==> ApplyParts(parts) == ApplyParts(parts[..i + 1])
  {
    hide ApplyPart;
    assert parts[..i + 1][..i] == parts[..i];
    if ApplyParts(parts[..i + 1]).Err? {
      FirstErrorWins(parts, i + 1);
    }
  }

  // ----- printing -----

  function ListenerFlagValue(listener: Listener): string {
    "name=" + listener.name + ",address=" + listener.address + ",apis=" + Join(listener.apis, '|')
  }

  /** What reading a specification always yields. */
  predicate WellFormed(listener: Listener) {
    && PlainText(listener.name) && PlainText(listener.address)
    && listener.apis != []
    && forall api :: api in listener.apis ==> PlainText(api) && Avoids(api, API_SEPARATORS)
  }

  /** Non-empty, without white space at the ends, without a comma. */
  predicate PlainText(s: string) {
    s != "" && Trimmed(s) && Avoids(s, {','})
  }

  lemma {:induction false} TrimmedPiecesArePlain(pieces: seq<string>)
    requires forall p :: p in pieces ==> Avoids(p, API_SEPARATORS) && Avoids(p, {','})
    ensures forall p :: p in TrimmedPieces(pieces) ==> PlainText(p) && Avoids(p, API_SEPARATORS)
  {
    hide TrimSpace, Trimmed;
    if pieces != [] {
      var last := pieces[|pieces| - 1];
      assert last in pieces && forall p :: p in pieces[..|pieces| - 1] ==> p in pieces;
      TrimmedPiecesArePlain(pieces[..|pieces| - 1]);
      TrimSpaceIsTrimmed(last);
    }
  }

  /** The state between two parts: fields not given yet are empty. */
  predicate Partial(listener: Listener) {
    && (listener.name == "" || PlainText(listener.name))
    && (listener.address == "" || PlainText(listener.address))
    && forall api :: api in listener.apis ==> PlainText(api) && Avoids(api, API_SEPARATORS)
  }

  lemma APIsArePlain(value: string)
    requires Avoids(value, {','})
    ensures forall api :: api in APIs(value) ==> PlainText(api) && Avoids(api, API_SEPARATORS)
  {
    hide PlainText;
    PiecesAvoid(value, API_SEPARATORS);
    TrimmedPiecesArePlain(SplitOn(value, API_SEPARATORS));
  }

  lemma PartKeepsPartial(listener: Listener, part: string)
    requires Partial(listener) && Avoids(part, {','})
    ensures var r := ApplyPart(listener, part); r.Ok? ==> Partial(r.value)
  {
    hide APIs, TrimSpace, ToLower, Trimmed;
    var cut := Cut(part);
    if cut.Some? {
      var value := TrimSpace(cut.value.1);
      TrimSpaceIsTrimmed(cut.value.1);
      assert Avoids(value, {','});
      APIsArePlain(value);
    }
  }

  lemma {:induction false} PartsKeepPartial(parts: seq<string>)
    requires forall p :: p in parts ==> Avoids(p, {','})
    ensures ApplyParts(parts).Ok? ==> Partial(ApplyParts(parts).value)
  {
    hide ApplyPart, Avoids;
    if parts != [] {
      PartsKeepPartial(parts[..|parts| - 1]);
      var before := ApplyParts(parts[..|parts| - 1]);
      if before.Ok? {
        PartKeepsPartial(before.value, parts[|parts| - 1]);
      }
    }
  }

  lemma DefaultNameIsPlain(n: nat)
    ensures PlainText("listener-" + Decimal(n))
  {
    var s := "listener-" + Decimal(n);
    assert s[0] == 'l' && '0' <= s[|s| - 1] <= '9';
    assert ',' !in "listener-" && ',' !in Decimal(n);
  }

  lemma ParsedIsWellFormed(raw: string, position: nat)
    requires ParseSpec(raw, position).Ok?
    ensures WellFormed(ParseSpec(raw, position).value)
  {
    hide SplitOn, ApplyParts, PlainText, Decimal;
    PiecesAvoid(raw, {','});
    PartsKeepPartial(SplitOn(raw, {','}));
    DefaultNameIsPlain(position + 1);
    MetricsIsPlain();
  }

  lemma MetricsIsPlain()
    ensures PlainText("metrics") && Avoids("metrics", API_SEPARATORS)
  {
  }

  // ----- the round trip -----

  lemma PlainIsTrimmed(p: string)
    requires PlainText(p)
    ensures p != "" && TrimSpace(p) == p
  {
    hide TrimSpace, Trimmed, Avoids;
    TrimSpaceIsTrimmed(p);
  }

  lemma OneMorePiece(init: seq<string>, last: string)
    requires TrimmedPieces(init) == init && last != "" && TrimSpace(last) == last
    ensures TrimmedPieces(init + [last]) == init + [last]
  {
    hide TrimSpace;
    assert (init + [last])[..|init|] == init;
  }

  lemma {:induction false} PlainPiecesAreKept(pieces: seq<string>)
    requires forall p :: p in pieces ==> PlainText(p)
    ensures TrimmedPieces(pieces) == pieces
  {
    hide TrimSpace, PlainText, TrimmedPieces;
    if pieces == [] {
      NoPieces();
    } else {
      var init, last := pieces[..|pieces| - 1], pieces[|pieces| - 1];
      assert pieces == init + [last];
      PlainPiecesAreKept(init);
      PlainIsTrimmed(last);
      OneMorePiece(init, last);
    }
  }

  lemma NoPieces()
    ensures TrimmedPieces([]) == []
  {
  }

  lemma CutAfter(key: string, value: string)
    requires '=' !in key
    ensures Cut(key + "=" + value) == Some((key, value))
  {
    var s := key + "=" + value;
    assert s[|key|] == '=' && forall j :: 0 <= j < |key| ==> s[j] == key[j];
    assert s[..|key|] == key && s[|key| + 1..] == value;
  }

  lemma {:induction false} JoinedEnds(pieces: seq<string>)
    requires pieces != [] && forall p :: p in pieces ==> p != "" && Trimmed(p)
    ensures var s := Join(pieces, '|'); s != "" && Trimmed(s)
  {
    assert pieces[0] in pieces;
    if |pieces| > 1 {
      assert forall p :: p in pieces[1..] ==> p in pieces;
      JoinedEnds(pieces[1..]);
    }
  }

  lemma KeysAreKnown()
    ensures ToLower(TrimSpace("name")) == "name" && '=' !in "name" && ',' !in "name="
    ensures ToLower(TrimSpace("address")) == "address" && '=' !in "address" && ',' !in "address="
    ensures ToLower(TrimSpace("apis")) == "apis" && '=' !in "apis" && ',' !in "apis="
  {
    TrimSpaceIsTrimmed("name");
    TrimSpaceIsTrimmed("address");
    TrimSpaceIsTrimmed("apis");
  }

  lemma JoinedAPIsAvoidCommas(apis: seq<string>)
    requires forall api :: api in apis ==> Avoids(api, {','})
    ensures Avoids(Join(apis, '|'), {','})
  {
    forall c | c in Join(apis, '|')
      ensures c != ','
    {
      JoinedCharacters(apis, '|', c);
    }
  }

  lemma PrintedParts(listener: Listener)
    requires WellFormed(listener)
    ensures SplitOn(ListenerFlagValue(listener), {','})
         == ["name=" + listener.name, "address=" + listener.address, "apis=" + Join(listener.apis, '|')]
  {
    hide SplitOn, Trimmed, Join;
    JoinedAPIsAvoidCommas(listener.apis);
    KeysAreKnown();
    var a, b, c := "name=" + listener.name, "address=" + listener.address, "apis=" + Join(listener.apis, '|');
    ThreePieces(a, b, c);
    assert ListenerFlagValue(listener) == a + "," + b + "," + c;
  }

  lemma ThreePieces(a: string, b: string, c: string)
    requires Avoids(a, {','}) && Avoids(b, {','}) && Avoids(c, {','})
    ensures SplitOn(a + "," + b + "," + c, {','}) == [a, b, c]
  {
    hide SplitOn, Avoids;
    assert [a, b, c][1..] == [b, c] && [b, c][1..] == [c];
    assert Join([b, c], ',') == b + "," + c;
    assert Join([a, b, c], ',') == a + "," + (b + "," + c);
    assert a + "," + (b + "," + c) == a + "," + b + "," + c;
    SplitJoined([a, b, c], ',', {','});
  }

  lemma PrintedAPIs(apis: seq<string>)
    requires apis != [] && forall api :: api in apis ==> PlainText(api) && Avoids(api, API_SEPARATORS)
    ensures TrimSpace(Join(apis, '|')) == Join(apis, '|') && APIs(Join(apis, '|')) == apis
  {
    hide TrimSpace;
    JoinedEnds(apis);
    TrimSpaceIsTrimmed(Join(apis, '|'));
    SplitJoined(apis, '|', API_SEPARATORS);
    PlainPiecesAreKept(apis);
  }

  /** A printed listener is read back as itself, at any position in the list, if and only if it
      is well formed. */
  lemma PrintedIsReadBack(listener: Listener, position: nat)
    ensures ParseSpec(ListenerFlagValue(listener), position) == Ok(listener) <==> WellFormed(listener)
  {
    hide SplitOn, ApplyParts, WellFormed, ListenerFlagValue;
    if ParseSpec(ListenerFlagValue(listener), position) == Ok(listener) {
      ParsedIsWellFormed(ListenerFlagValue(listener), position);
    }
    if WellFormed(listener) {
      PrintedParts(listener);
      PartsReadBack(listener);
      NoDefaults(listener, position);
    }
  }

  lemma NoDefaults(listener: Listener, position: nat)
    requires WellFormed(listener)
    ensures Defaults(listener, position) == Ok(listener)
  {
  }

  lemma PartReadBack(key: string, value: string, listener: Listener)
    requires '=' !in key && TrimSpace(value) == value && ToLower(TrimSpace(key)) == key
    ensures key == "name" ==> ApplyPart(listener, key + "=" + value) == Ok(listener.(name := value))
    ensures key == "address" ==> ApplyPart(listener, key + "=" + value) == Ok(listener.(address := value))
    ensures key == "apis" ==> ApplyPart(listener, key + "=" + value) == Ok(listener.(apis := APIs(value)))
  {
    hide Cut, TrimSpace, ToLower, APIs;
    CutAfter(key, value);
    assert |"name"| == 4 && |"address"| == 7;
  }

  lemma PartsReadBack(listener: Listener)
    requires WellFormed(listener)
    ensures
      var parts := ["name=" + listener.name, "address=" + listener.address, "apis=" + Join(listener.apis, '|')];
      ApplyParts(parts) == Ok(listener)
  {
    hide ApplyPart, Join, TrimSpace, ToLower, APIs, Trimmed;
    var apis := Join(listener.apis, '|');
    var a, b, c := "name=" + listener.name, "address=" + listener.address, "apis=" + apis;
    KeysAreKnown();
    PrintedAPIs(listener.apis);
    TrimSpaceIsTrimmed(listener.name);
    TrimSpaceIsTrimmed(listener.address);
    PartReadBack("name", listener.name, Listener("", "", []));
    PartReadBack("address", listener.address, Listener(listener.name, "", []));
    PartReadBack("apis", apis, Listener(listener.name, listener.address, []));
    assert "name" + "=" == "name=" && "address" + "=" == "address=" && "apis" + "=" == "apis=";
    ThreeApplied(a, b, c);
  }

  lemma ThreeApplied(a: string, b: string, c: string)
    ensures
      ApplyParts([a, b, c]) ==
      match ApplyPart(Listener("", "", []), a)
      case Err(m) => Err(m)
      case Ok(one) =>
        match ApplyPart(one, b)
        case Err(m) => Err(m)
        case Ok(two) => ApplyPart(two, c)
  {
    hide ApplyPart;
    assert [a, b, c][..2] == [a, b] && [a, b][..1] == [a] && [a][..0] == [];
    assert ApplyParts([a]) == ApplyPart(Listener("", "", []), a);
    assert ApplyParts([a, b, c]) == match ApplyParts([a, b]) case Err(m) => Err(m) case Ok(two) => ApplyPart(two, c);
  }

  // ----- replaying a whole command line -----

  /** The list after giving the specifications one flag at a time. */
  function ParseAll(specs: seq<string>): Result<seq<Listener>> {
    if specs == [] then Ok([])
    else
      match ParseAll(specs[..|specs| - 1])
      case Err(m) => Err(m)
      case Ok(values) =>
        match ParseSpec(specs[|specs| - 1], |values|)
        case Err(m) => Err(m)
        case Ok(listener) => Ok(values + [listener])
  }

  function PrintAll(listeners: seq<Listener>): (specs: seq<string>)
    ensures |specs| == |listeners|
  {
    if listeners == [] then []
    else PrintAll(listeners[..|listeners| - 1]) + [ListenerFlagValue(listeners[|listeners| - 1])]
  }

  lemma {:induction false} ParsedAreWellFormed(specs: seq<string>)
    requires ParseAll(specs).Ok?
    ensures forall l :: l in ParseAll(specs).value ==> WellFormed(l)
  {
    hide ParseSpec, WellFormed;
    if specs != [] {
      ParsedAreWellFormed(specs[..|specs| - 1]);
      ParsedIsWellFormed(specs[|specs| - 1], |ParseAll(specs[..|specs| - 1]).value|);
    }
  }

  /** The printed flags rebuild a list exactly when all its listeners are well formed. */
  lemma {:induction false} PrintedListIsReadBack(listeners: seq<Listener>)
    ensures ParseAll(PrintAll(listeners)) == Ok(listeners) <==> forall l :: l in listeners ==> WellFormed(l)
  {
    hide ParseSpec, WellFormed, ListenerFlagValue, ParseAll, PrintAll;
    if listeners == [] {
      NothingToRead();
    } else {
      var init, last := listeners[..|listeners| - 1], listeners[|listeners| - 1];
      PrintedListIsReadBack(init);
      PrintedIsReadBack(last, |init|);
      assert listeners == init + [last];
      OneMoreListener(init, last);
    }
  }

  lemma NothingToRead()
    ensures ParseAll(PrintAll([])) == Ok([])
  {
  }

  /** A list is read back if and only if all but the last are, and the last one at its place. */
  lemma OneMoreListener(init: seq<Listener>, last: Listener)
    ensures ParseAll(PrintAll(init + [last])) == Ok(init + [last])
       <==> ParseAll(PrintAll(init)) == Ok(init) && ParseSpec(ListenerFlagValue(last), |init|) == Ok(last)
  {
    hide ParseSpec, ListenerFlagValue;
    assert (init + [last])[..|init|] == init;
    var specs := PrintAll(init + [last]);
    assert specs[..|init|] == PrintAll(init);
    var r := ParseAll(PrintAll(init));
    if r.Ok? {
      var next := ParseSpec(ListenerFlagValue(last), |r.value|);
      if next.Ok? {
        LastCancels(r.value, next.value, init, last);
      }
    }
  }

  lemma LastCancels(a: seq<Listener>, x: Listener, b: seq<Listener>, y: Listener)
    ensures a + [x] == b + [y] <==> a == b && x == y
  {
    if a + [x] == b + [y] {
      assert (a + [x])[..|a|] == a && (b + [y])[..|b|] == b;
      assert (a + [x])[|a|] == x && (b + [y])[|b|] == y;
    }
  }

  /** Whatever flags were accepted: printing the listeners and reading them again rebuilds the
      whole list, names given by default included. */
  lemma ReplayRebuilds(specs: seq<string>)
    requires ParseAll(specs).Ok?
    ensures ParseAll(PrintAll(ParseAll(specs).value)) == ParseAll(specs)
  {
    ParsedAreWellFormed(specs);
    PrintedListIsReadBack(ParseAll(specs).value);
  }

  /** The listener part of a detached process's arguments. */
  method DetachedListenerArgs(listeners: seq<Listener>) returns (args: seq<string>)
    ensures |args| == 2 * |listeners|
    ensures forall i :: 0 <= i < |listeners| ==>
              args[2 * i] == "--listener" && args[2 * i + 1] == PrintAll(listeners)[i]
  {
    hide ListenerFlagValue;
    args := [];
    for k := 0 to |listeners|
      invariant |args| == 2 * k
      invariant forall i :: 0 <= i < k ==> args[2 * i] == "--listener" && args[2 * i + 1] == PrintAll(listeners[..k])[i]
    {
      assert listeners[..k + 1][..k] == listeners[..k];
      args := args + ["--listener", ListenerFlagValue(listeners[k])];
    }
    assert listeners[..|listeners|] == listeners;
  }
}
