/** What a listener specification means, said over its comma-separated parts at once: which parts
    are accepted, and which of them name, address and API list come from. */
module ListenerSpecs {
  import opened Basics
  import opened Text
  import opened ListenerFlags

  /** A part of the form key=value whose key, without white space and in lower case, is one of
      these. */
  predicate IsFor(part: string, keys: set<string>) {
    Cut(part).Some? && ToLower(TrimSpace(Cut(part).value.0)) in keys
  }

  function ValueOf(part: string): string {
    if Cut(part).Some? then TrimSpace(Cut(part).value.1) else ""
  }

  /** The last part with one of the keys. */
  predicate LastFor(parts: seq<string>, keys: set<string>, j: int) {
    && 0 <= j < |parts| && IsFor(parts[j], keys)
    && forall k :: j < k < |parts| ==> !IsFor(parts[k], keys)
  }

  predicate NoneFor(parts: seq<string>, keys: set<string>) {
    forall k :: 0 <= k < |parts| ==> !IsFor(parts[k], keys)
  }

  predicate AllKnown(parts: seq<string>) {
    forall k :: 0 <= k < |parts| ==> IsFor(parts[k], {"name", "address", "addr", "apis", "api"})
  }

  ghost predicate TakenFrom(parts: seq<string>, l: Listener) {
    && (forall j :: LastFor(parts, {"name"}, j) ==> l.name == ValueOf(parts[j]))
    && (forall j :: LastFor(parts, {"address", "addr"}, j) ==> l.address == ValueOf(parts[j]))
    && (forall j :: LastFor(parts, {"apis", "api"}, j) ==> l.apis == APIs(ValueOf(parts[j])))
    && (NoneFor(parts, {"name"}) ==> l.name == "")
    && (NoneFor(parts, {"address", "addr"}) ==> l.address == "")
    && (NoneFor(parts, {"apis", "api"}) ==> l.apis == [])
  }

  lemma LastNext(init: seq<string>, part: string, keys: set<string>)
    ensures forall j :: LastFor(init + [part], keys, j) <==>
              if IsFor(part, keys) then j == |init| else LastFor(init, keys, j)
    ensures NoneFor(init + [part], keys) <==> NoneFor(init, keys) && !IsFor(part, keys)
  {
    hide IsFor;
    var all := init + [part];
    assert forall k :: 0 <= k < |init| ==> all[k] == init[k];
    assert all[|init|] == part;
  }

  lemma KnownNext(init: seq<string>, part: string)
    ensures AllKnown(init + [part]) <==> AllKnown(init) && IsFor(part, {"name", "address", "addr", "apis", "api"})
  {
    hide IsFor;
    var all := init + [part];
    assert forall k :: 0 <= k < |init| ==> all[k] == init[k];
    assert all[|init|] == part;
  }

  lemma KeysDiffer()
    ensures "name" !in {"address", "addr"} && "name" !in {"apis", "api"}
    ensures "address" !in {"apis", "api"} && "addr" !in {"apis", "api"}
  {
    assert |"name"| == 4 && |"address"| == 7 && |"addr"| == 4 && |"apis"| == 4 && |"api"| == 3;
    assert "name"[0] == 'n' && "addr"[1] == 'd' && "apis"[1] == 'p';
  }

  lemma OnePart(l: Listener, part: string)
    ensures
      var r := ApplyPart(l, part);
      && (r.Ok? <==> IsFor(part, {"name", "address", "addr", "apis", "api"}))
      && (IsFor(part, {"name"}) ==> r == Ok(l.(name := ValueOf(part))))
      && (IsFor(part, {"address", "addr"}) ==> r == Ok(l.(address := ValueOf(part))))
      && (IsFor(part, {"apis", "api"}) ==> r == Ok(l.(apis := APIs(ValueOf(part)))))
      && (r.Ok? ==> IsFor(part, {"name"}) || IsFor(part, {"address", "addr"}) || IsFor(part, {"apis", "api"}))
    ensures IsFor(part, {"name"}) ==> !IsFor(part, {"address", "addr"}) && !IsFor(part, {"apis", "api"})
    ensures IsFor(part, {"address", "addr"}) ==> !IsFor(part, {"apis", "api"})
  {
    hide Cut, TrimSpace, ToLower, APIs;
    KeysDiffer();
  }

  lemma {:induction false} PartsMean(parts: seq<string>)
    ensures ApplyParts(parts).Ok? <==> AllKnown(parts)
    ensures ApplyParts(parts).Ok? ==> TakenFrom(parts, ApplyParts(parts).value)
  {
    hide ApplyPart, AllKnown, TakenFrom, IsFor, ValueOf;
    if parts == [] {
      NoParts();
    } else {
      var init, part := parts[..|parts| - 1], parts[|parts| - 1];
      PartsMean(init);
      assert parts == init + [part];
      KnownNext(init, part);
      if ApplyParts(init).Ok? {
        TakenNext(init, part, ApplyParts(init).value);
      }
    }
  }

  lemma NoParts()
    ensures AllKnown([]) && TakenFrom([], Listener("", "", []))
  {
  }

  lemma TakenNext(init: seq<string>, part: string, l: Listener)
    requires TakenFrom(init, l)
    ensures ApplyPart(l, part).Ok? <==> IsFor(part, {"name", "address", "addr", "apis", "api"})
    ensures ApplyPart(l, part).Ok? ==> TakenFrom(init + [part], ApplyPart(l, part).value)
  {
    hide ApplyPart, IsFor, ValueOf, LastFor, NoneFor;
    OnePart(l, part);
    LastNext(init, part, {"name"});
    LastNext(init, part, {"address", "addr"});
    LastNext(init, part, {"apis", "api"});
    LastIsInside(init, {"name"});
    LastIsInside(init, {"address", "addr"});
    LastIsInside(init, {"apis", "api"});
    assert forall j :: 0 <= j < |init| ==> (init + [part])[j] == init[j];
    assert (init + [part])[|init|] == part;
  }

  lemma LastIsInside(parts: seq<string>, keys: set<string>)
    ensures forall j :: LastFor(parts, keys, j) ==> 0 <= j < |parts|
  {
    hide IsFor;
  }

  /** A specification is accepted if and only if every part is key=value with a known key and the
      last address given is not blank. */
  lemma AcceptedExactlyWhen(raw: string, position: nat)
    ensures
      var parts := SplitOn(raw, {','});
      ParseSpec(raw, position).Ok? <==>
      AllKnown(parts) && exists j :: LastFor(parts, {"address", "addr"}, j) && ValueOf(parts[j]) != ""
  {
    hide ApplyParts, SplitOn, AllKnown, IsFor, ValueOf, Decimal;
    var parts := SplitOn(raw, {','});
    PartsMean(parts);
    if AllKnown(parts) {
      LastOrNone(parts, {"address", "addr"});
    }
  }

  lemma {:induction false} LastOrNone(parts: seq<string>, keys: set<string>)
    ensures NoneFor(parts, keys) || exists j :: LastFor(parts, keys, j)
  {
    hide IsFor, LastFor, NoneFor;
    if parts == [] {
      NoneOfNothing(keys);
    } else {
      var init, part := parts[..|parts| - 1], parts[|parts| - 1];
      LastOrNone(init, keys);
      assert parts == init + [part];
      LastNext(init, part, keys);
      if IsFor(part, keys) {
        assert LastFor(parts, keys, |init|);
      } else if exists j :: LastFor(init, keys, j) {
        var j :| LastFor(init, keys, j);
        assert LastFor(parts, keys, j);
      }
    }
  }

  lemma NoneOfNothing(keys: set<string>)
    ensures NoneFor([], keys)
  {
  }

  /** Later parts win. A blank name becomes the listener's number, and an empty list of APIs the
      metrics API alone. */
  lemma AcceptedMeans(raw: string, position: nat)
    requires ParseSpec(raw, position).Ok?
    ensures
      var parts, l := SplitOn(raw, {','}), ParseSpec(raw, position).value;
      && (forall j :: LastFor(parts, {"address", "addr"}, j) ==> l.address == ValueOf(parts[j]))
      && (forall j :: LastFor(parts, {"name"}, j) && ValueOf(parts[j]) != "" ==> l.name == ValueOf(parts[j]))
      && (forall j :: LastFor(parts, {"name"}, j) && ValueOf(parts[j]) == "" ==>
            l.name == "listener-" + Decimal(position + 1))
      && (NoneFor(parts, {"name"}) ==> l.name == "listener-" + Decimal(position + 1))
      && (forall j :: LastFor(parts, {"apis", "api"}, j) && APIs(ValueOf(parts[j])) != [] ==>
            l.apis == APIs(ValueOf(parts[j])))
      && (forall j :: LastFor(parts, {"apis", "api"}, j) && APIs(ValueOf(parts[j])) == [] ==> l.apis == ["metrics"])
      && (NoneFor(parts, {"apis", "api"}) ==> l.apis == ["metrics"])
  {
    hide ApplyParts, SplitOn, AllKnown, IsFor, ValueOf, Decimal, APIs, LastFor, NoneFor;
    PartsMean(SplitOn(raw, {','}));
  }

  // ----- APIs -----

  /** APIs are listed with any of the three separators; white space around them and empty ones do
      not count. */
  lemma APIsAreListed(pieces: seq<string>, sep: char)
    requires pieces != [] && sep in {'|', '+', ';'}
    requires forall p :: p in pieces ==> Avoids(p, {'|', '+', ';'})
    ensures APIs(Join(pieces, sep)) == TrimmedPieces(pieces)
  {
    hide Avoids, TrimmedPieces;
    SplitJoined(pieces, sep, {'|', '+', ';'});
  }

  /** Separators may be mixed: a piece in front of a separator is listed before the rest. */
  lemma APIsOfFirst(piece: string, sep: char, rest: string)
    requires sep in {'|', '+', ';'} && Avoids(piece, {'|', '+', ';'})
    ensures APIs(piece) == if TrimSpace(piece) == "" then [] else [TrimSpace(piece)]
    ensures APIs(piece + [sep] + rest) == APIs(piece) + APIs(rest)
  {
    hide TrimSpace, SplitOn;
    var t := [sep] + rest;
    assert piece + [sep] + rest == piece + t && t[1..] == rest;
    SplitPrefix(piece, t, {'|', '+', ';'});
    SplitWhole(piece, {'|', '+', ';'});
    assert [piece][..0] == [];
    PiecesJoin([piece], SplitOn(rest, {'|', '+', ';'}));
  }

  lemma {:induction false} PiecesJoin(a: seq<string>, b: seq<string>)
    ensures TrimmedPieces(a + b) == TrimmedPieces(a) + TrimmedPieces(b)
  {
    hide TrimSpace;
    if b == [] {
      assert a + b == a;
    } else {
      PiecesJoin(a, b[..|b| - 1]);
      assert (a + b)[..|a + b| - 1] == a + b[..|b| - 1];
    }
  }
}
