/** How attribute keys become journald field names: every part of the path is normalised, and
    the non-empty parts are joined by underscores. */
module JournaldNames {
  import opened Text
  import opened JournaldWire

  predicate IsAlphanumeric(c: char) {
    'a' <= c <= 'z' || 'A' <= c <= 'Z' || '0' <= c <= '9'
  }

  function UpperChar(c: char): char {
    if 'a' <= c <= 'z' then ((c as int) - 32) as char else c
  }

  predicate IsNameChar(c: char) {
    'A' <= c <= 'Z' || '0' <= c <= '9' || c == '_'
  }

  function EndsUnderscore(s: string): bool {
    s != "" && s[|s| - 1] == '_'
  }

  /** Upper case letters and digits, with every run of other characters as one underscore. */
  function Squash(s: string): string {
    if s == "" then ""
    else
      var before, c := Squash(s[..|s| - 1]), s[|s| - 1];
      if IsAlphanumeric(c) then before + [UpperChar(c)]
      else if EndsUnderscore(before) then before
      else before + "_"
  }

  function TrimLeftUnderscore(s: string): string {
    if s != "" && s[0] == '_' then TrimLeftUnderscore(s[1..]) else s
  }

  function TrimRightUnderscore(s: string): string {
    if EndsUnderscore(s) then TrimRightUnderscore(s[..|s| - 1]) else s
  }

  function Normalize(component: string): string {
    TrimRightUnderscore(TrimLeftUnderscore(Squash(TrimSpace(component))))
  }

  method NormalizeFieldComponent(component: string) returns (normalized: string)
    ensures normalized == Normalize(component)
  {
    var trimmed := TrimSpace(component);
    if trimmed == "" {
      return "";
    }
    var builder, lastUnderscore := "", false;
    for i := 0 to |trimmed|
      invariant builder == Squash(trimmed[..i]) && lastUnderscore == EndsUnderscore(builder)
    {
      var r := trimmed[i];
      assert trimmed[..i + 1][..i] == trimmed[..i];
      if 'a' <= r <= 'z' {
        builder := builder + [((r as int) - 32) as char];
        lastUnderscore := false;
      } else if 'A' <= r <= 'Z' || '0' <= r <= '9' {
        builder := builder + [r];
        lastUnderscore := false;
      } else if !lastUnderscore {
        builder := builder + "_";
        lastUnderscore := true;
      }
    }
    assert trimmed[..|trimmed|] == trimmed;
    normalized := TrimRightUnderscore(TrimLeftUnderscore(builder));
  }

  /** What every normalised component looks like: name characters only, single underscores, and
      none at the ends. */
  predicate IsNormal(s: string) {
    && (forall i :: 0 <= i < |s| ==> IsNameChar(s[i]))
    && (forall i :: 0 <= i < |s| - 1 ==> !(s[i] == '_' && s[i + 1] == '_'))
    && (s != "" ==> s[0] != '_' && s[|s| - 1] != '_')
  }

  predicate IsSquashed(s: string) {
    && (forall i :: 0 <= i < |s| ==> IsNameChar(s[i]))
    && (forall i :: 0 <= i < |s| - 1 ==> !(s[i] == '_' && s[i + 1] == '_'))
  }

  lemma {:induction false} SquashIsSquashed(s: string)
    ensures IsSquashed(Squash(s))
  {
    if s != "" {
      SquashIsSquashed(s[..|s| - 1]);
    }
  }

  lemma {:induction false} SquashKeepsSquashed(s: string)
    requires IsSquashed(s)
    ensures Squash(s) == s
  {
    if s != "" {
      SquashKeepsSquashed(s[..|s| - 1]);
      assert s == s[..|s| - 1] + [s[|s| - 1]];
    }
  }

  /** The letters and digits of a string, in upper case. */
  function Letters(s: string): string {
    if s == "" then ""
    else Letters(s[..|s| - 1]) + (if IsAlphanumeric(s[|s| - 1]) then [UpperChar(s[|s| - 1])] else "")
  }

  lemma {:induction false} SquashKeepsLetters(s: string)
    ensures Letters(Squash(s)) == Letters(s)
  {
    if s != "" {
      var init, c := s[..|s| - 1], s[|s| - 1];
      SquashKeepsLetters(init);
      var t := Squash(s);
      if IsAlphanumeric(c) || !EndsUnderscore(Squash(init)) {
        assert t[..|t| - 1] == Squash(init);
      }
    }
  }

  lemma {:induction false} LettersOfJoin(a: string, b: string)
    ensures Letters(a + b) == Letters(a) + Letters(b)
  {
    if b == "" {
      assert a + b == a;
    } else {
      assert (a + b)[..|a + b| - 1] == a + b[..|b| - 1];
      LettersOfJoin(a, b[..|b| - 1]);
    }
  }

  lemma {:induction false} TrimLeftUnderscoreIsSuffix(s: string)
    requires IsSquashed(s)
    ensures var t := TrimLeftUnderscore(s); IsSquashed(t) && (t != "" ==> t[0] != '_') && Letters(t) == Letters(s)
  {
    if s != "" && s[0] == '_' {
      TrimLeftUnderscoreIsSuffix(s[1..]);
      assert s == ['_'] + s[1..];
      LettersOfJoin(['_'], s[1..]);
      assert Letters(['_']) == Letters(['_'][..0]) == "";
    }
  }

  lemma {:induction false} TrimRightUnderscoreIsPrefix(s: string)
    requires IsSquashed(s) && (s != "" ==> s[0] != '_')
    ensures IsNormal(TrimRightUnderscore(s)) && Letters(TrimRightUnderscore(s)) == Letters(s)
  {
    if EndsUnderscore(s) {
      TrimRightUnderscoreIsPrefix(s[..|s| - 1]);
    }
  }

  lemma {:induction false} TrimLeftKeepsLetters(s: string)
    ensures Letters(TrimLeft(s)) == Letters(s)
  {
    hide IsSpace;
    if s != "" && IsSpace(s[0]) {
      TrimLeftKeepsLetters(s[1..]);
      assert s == [s[0]] + s[1..];
      LettersOfJoin([s[0]], s[1..]);
      SpaceIsNoLetter(s[0]);
    }
  }

  lemma SpaceIsNoLetter(c: char)
    requires IsSpace(c)
    ensures !IsAlphanumeric(c) && Letters([c]) == ""
  {
    assert [c][..0] == "";
  }

  lemma {:induction false} TrimRightKeepsLetters(s: string)
    ensures Letters(TrimRight(s)) == Letters(s)
  {
    hide IsSpace, IsAlphanumeric;
    if s != "" && IsSpace(s[|s| - 1]) {
      TrimRightKeepsLetters(s[..|s| - 1]);
      SpaceIsNoLetter(s[|s| - 1]);
    }
  }

  /** Normal strings are the fixed points. */
  lemma NormalIsFixed(s: string)
    requires IsNormal(s)
    ensures Normalize(s) == s
  {
    assert Trimmed(s);
    TrimSpaceIsTrimmed(s);
    SquashKeepsSquashed(s);
  }

  /** Normalising always yields a normal string that keeps exactly the letters and digits, and
      doing it twice changes nothing. */
  lemma NormalizeIsNormal(component: string)
    ensures IsNormal(Normalize(component))
    ensures Letters(Normalize(component)) == Letters(component)
    ensures Normalize(Normalize(component)) == Normalize(component)
  {
    hide IsSquashed, Letters, IsNormal;
    var s := TrimSpace(component);
    TrimLeftKeepsLetters(component);
    TrimRightKeepsLetters(TrimLeft(component));
    SquashIsSquashed(s);
    SquashKeepsLetters(s);
    TrimLeftUnderscoreIsSuffix(Squash(s));
    TrimRightUnderscoreIsPrefix(TrimLeftUnderscore(Squash(s)));
    NormalIsFixed(Normalize(component));
  }

  const PASSTHROUGH := {"CODE_FILE", "CODE_FUNC", "CODE_LINE", "DOCUMENTATION", "ERRNO", "MESSAGE_ID", "TID"}

  function FinalFieldName(prefix: string, name: string): string {
    if name == "" then ""
    else if name in PASSTHROUGH || prefix == "" then name
    else prefix + "_" + name
  }

  /** The non-empty normalised parts joined by underscores. */
  function JoinParts(parts: seq<string>): string {
    if parts == [] then ""
    else
      var before, part := JoinParts(parts[..|parts| - 1]), Normalize(parts[|parts| - 1]);
      if part == "" then before else if before == "" then part else before + "_" + part
  }

  function FieldName(prefix: string, groups: seq<string>, key: string): string {
    FinalFieldName(prefix, JoinParts(groups + [key]))
  }

  method FieldNameForAttr(prefix: string, groups: seq<string>, key: string) returns (name: string)
    ensures name == FieldName(prefix, groups, key)
  {
    hide Normalize, FinalFieldName;
    var parts := groups + [key];
    var builder, hasPart := "", false;
    for i := 0 to |parts|
      invariant builder == JoinParts(parts[..i]) && hasPart == (builder != "")
    {
      assert parts[..i + 1][..i] == parts[..i];
      var part := NormalizeFieldComponent(parts[i]);
      if part != "" {
        if hasPart {
          builder := builder + "_";
        }
        builder := builder + part;
        hasPart := true;
      }
    }
    assert parts[..|parts|] == parts;
    if !hasPart {
      EmptyNameIsFinal(prefix);
      return "";
    }
    name := FinalFieldName(prefix, builder);
  }

  lemma EmptyNameIsFinal(prefix: string)
    ensures FinalFieldName(prefix, "") == ""
  {
  }

  lemma JoinIsNormal(a: string, b: string)
    requires IsNormal(a) && IsNormal(b) && a != "" && b != ""
    ensures IsNormal(a + "_" + b)
  {
    var s := a + "_" + b;
    assert forall i :: 0 <= i < |a| ==> s[i] == a[i];
    assert s[|a|] == '_';
    assert forall i :: |a| < i < |s| ==> s[i] == b[i - |a| - 1];
  }

  lemma {:induction false} JoinedIsNormal(parts: seq<string>)
    ensures IsNormal(JoinParts(parts))
  {
    hide IsNormal, Normalize, Letters;
    if parts == [] {
      EmptyIsNormal();
    } else {
      var before, part := JoinParts(parts[..|parts| - 1]), Normalize(parts[|parts| - 1]);
      JoinedIsNormal(parts[..|parts| - 1]);
      NormalizeIsNormal(parts[|parts| - 1]);
      if part != "" && before != "" {
        JoinIsNormal(before, part);
      }
    }
  }

  lemma EmptyIsNormal()
    ensures IsNormal("")
  {
  }

  /** Every name the handler builds is normal, hence safe on the wire. */
  lemma FieldNamesAreClean(prefix: string, groups: seq<string>, key: string)
    requires IsNormal(prefix)
    ensures IsNormal(FieldName(prefix, groups, key)) && Clean(FieldName(prefix, groups, key))
  {
    hide JoinParts;
    JoinedIsNormal(groups + [key]);
    var name := JoinParts(groups + [key]);
    if name != "" && prefix != "" {
      JoinIsNormal(prefix, name);
    }
  }

  // ----- the names the handler sets itself -----

  const RESERVED := ["MESSAGE", "PRIORITY", "SYSLOG_IDENTIFIER"]

  lemma PrefixedIsReserved(prefix: string, name: string)
    requires prefix != "" && prefix + "_" + name in RESERVED
    ensures prefix == "SYSLOG"
  {
    var s, m, p, i := prefix + "_" + name, "MESSAGE", "PRIORITY", "SYSLOG_IDENTIFIER";
    var k := |prefix|;
    assert s[k] == '_' && s[..k] == prefix && k < |s|;
    assert '_' !in m && '_' !in p;
    assert i[..6] == "SYSLOG" && '_' !in i[7..] && '_' !in "SYSLOG";
  }

  lemma SingleName(key: string)
    requires IsNormal(key)
    ensures JoinParts([] + [key]) == key
  {
    NormalIsFixed(key);
    assert [key][..0] == [];
    assert [] + [key] == [key];
  }

  lemma ReservedAreNormal()
    ensures IsNormal("MESSAGE") && IsNormal("IDENTIFIER")
    ensures "MESSAGE" !in PASSTHROUGH && "IDENTIFIER" !in PASSTHROUGH
    ensures "SYSLOG" + "_" + "IDENTIFIER" == "SYSLOG_IDENTIFIER"
  {
    assert |"MESSAGE"| == 7 && |"IDENTIFIER"| == 10;
  }

  /** No attribute can overwrite a field the handler sets itself, if and only if the prefix is
      neither empty nor SYSLOG. */
  lemma ReservedNamesAreSafeExactlyWhen(prefix: string)
    ensures
      (forall groups: seq<string>, key: string :: FieldName(prefix, groups, key) !in RESERVED)
      <==> prefix != "" && prefix != "SYSLOG"
  {
    hide JoinParts, IsNormal;
    ReservedAreNormal();
    SingleName("MESSAGE");
    SingleName("IDENTIFIER");
    if prefix == "" {
      assert FieldName(prefix, [], "MESSAGE") == "MESSAGE" == RESERVED[0];
    } else if prefix == "SYSLOG" {
      assert FieldName(prefix, [], "IDENTIFIER") == "SYSLOG_IDENTIFIER" == RESERVED[2];
    } else {
      forall groups: seq<string>, key: string
        ensures FieldName(prefix, groups, key) !in RESERVED
      {
        ReservedIsSafe(prefix, JoinParts(groups + [key]));
      }
    }
  }

  lemma ReservedIsSafe(prefix: string, name: string)
    requires prefix != "" && prefix != "SYSLOG"
    ensures FinalFieldName(prefix, name) !in RESERVED
  {
    if name != "" && prefix + "_" + name in RESERVED {
      PrefixedIsReserved(prefix, name);
    }
  }
}
