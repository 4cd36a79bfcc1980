/** How field names are spelled, said without the steps that build them: what becomes of the pieces
    of a component, in which order the path is printed, and when the prefix comes first. */
module FieldSpelling {
  import opened Text
  import opened JournaldWire
  import opened JournaldNames

  // ----- one component -----

  /** Squashing goes piece by piece behind a letter or digit. */
  lemma {:induction false} SquashJoin(a: string, b: string)
    requires !EndsUnderscore(Squash(a))
    ensures Squash(a + b) == Squash(a) + Squash(b)
  {
    if b == "" {
      assert a + b == a;
    } else {
      var init, c := b[..|b| - 1], b[|b| - 1];
      SquashJoin(a, init);
      assert (a + b)[..|a + b| - 1] == a + init && (a + b)[|a + b| - 1] == c;
      EndOfJoin(Squash(a), Squash(init));
      if IsAlphanumeric(c) {
        assert Squash(a) + Squash(init) + [UpperChar(c)] == Squash(a) + (Squash(init) + [UpperChar(c)]);
      } else if !EndsUnderscore(Squash(init)) {
        assert Squash(a) + Squash(init) + "_" == Squash(a) + (Squash(init) + "_");
      }
    }
  }

  lemma EndOfJoin(a: string, b: string)
    requires !EndsUnderscore(a)
    ensures EndsUnderscore(a + b) <==> EndsUnderscore(b)
  {
  }

  predicate EndsWithLetter(s: string) {
    s != "" && IsAlphanumeric(s[|s| - 1])
  }

  predicate StartsWithLetter(s: string) {
    s != "" && IsAlphanumeric(s[0])
  }

  predicate NoLetters(s: string) {
    forall i :: 0 <= i < |s| ==> !IsAlphanumeric(s[i])
  }

  lemma SquashEnd(s: string)
    requires EndsWithLetter(s)
    ensures Squash(s) != "" && Squash(s)[|Squash(s)| - 1] == UpperChar(s[|s| - 1]) != '_'
  {
  }

  lemma {:induction false} SquashNoLetters(s: string)
    requires NoLetters(s)
    ensures Squash(s) == if s == "" then "" else "_"
  {
    if s != "" {
      SquashNoLetters(s[..|s| - 1]);
    }
  }

  /** A run of other characters in front of a letter or digit becomes one underscore. */
  lemma {:induction false} SquashBehindGap(sep: string, b: string)
    requires sep != "" && NoLetters(sep) && StartsWithLetter(b)
    ensures Squash(sep + b) == "_" + Squash(b)
  {
    var init, c := b[..|b| - 1], b[|b| - 1];
    assert (sep + b)[..|sep + b| - 1] == sep + init && (sep + b)[|sep + b| - 1] == c;
    if init == "" {
      assert sep + init == sep;
      SquashNoLetters(sep);
    } else {
      SquashBehindGap(sep, init);
      SquashStart(init);
    }
  }

  lemma {:induction false} SquashStart(s: string)
    requires StartsWithLetter(s)
    ensures Squash(s) != "" && Squash(s)[0] == UpperChar(s[0]) != '_'
  {
    if |s| > 1 {
      SquashStart(s[..|s| - 1]);
    }
  }

  function Core(s: string): string {
    TrimRightUnderscore(TrimLeftUnderscore(Squash(s)))
  }

  lemma {:induction false} TrimLeftJoin(a: string, b: string)
    requires a != "" && a[|a| - 1] != '_'
    ensures TrimLeftUnderscore(a + b) == TrimLeftUnderscore(a) + b
    ensures TrimLeftUnderscore(a) != "" && TrimLeftUnderscore(a)[|TrimLeftUnderscore(a)| - 1] == a[|a| - 1]
  {
    if a[0] == '_' {
      assert (a + b)[1..] == a[1..] + b;
      TrimLeftJoin(a[1..], b);
    }
  }

  lemma {:induction false} TrimRightJoin(a: string, b: string)
    requires b != "" && b[0] != '_'
    ensures TrimRightUnderscore(a + b) == a + TrimRightUnderscore(b)
    decreases |b|
  {
    if EndsUnderscore(b) {
      assert (a + b)[..|a + b| - 1] == a + b[..|b| - 1];
      TrimRightJoin(a, b[..|b| - 1]);
    }
  }

  lemma CoreJoin(a: string, gap: string, b: string)
    requires EndsWithLetter(a) && StartsWithLetter(b) && NoLetters(gap)
    ensures Core(a + gap + b) == Core(a) + (if gap == "" then "" else "_") + Core(b)
  {
    hide Squash, IsAlphanumeric, TrimLeftUnderscore, TrimRightUnderscore, EndsUnderscore;
    var x, y := Squash(a), Squash(b);
    var mid := if gap == "" then "" else "_";
    SquashEnd(a);
    SquashStart(b);
    EndsPlain(x);
    assert a + gap + b == a + (gap + b);
    SquashJoin(a, gap + b);
    if gap == "" {
      assert gap + b == b;
      assert mid + y == y;
    } else {
      SquashBehindGap(gap, b);
    }
    assert Squash(a + gap + b) == x + (mid + y);
    TrimLeftJoin(x, mid + y);
    var left := TrimLeftUnderscore(x);
    assert left + (mid + y) == (left + mid) + y;
    TrimRightJoin(left + mid, y);
    EndsPlain(left);
    NothingToTrimLeft(y);
  }

  lemma EndsPlain(s: string)
    requires s != "" && s[|s| - 1] != '_'
    ensures !EndsUnderscore(s) && TrimRightUnderscore(s) == s
  {
  }

  lemma NothingToTrimLeft(s: string)
    requires s != "" && s[0] != '_'
    ensures TrimLeftUnderscore(s) == s
  {
  }

  function AddChar(before: string, c: char): string {
    if IsAlphanumeric(c) then before + [UpperChar(c)] else if EndsUnderscore(before) then before else before + "_"
  }

  lemma SquashNext(s: string, c: char)
    ensures Squash(s + [c]) == AddChar(Squash(s), c)
  {
    assert (s + [c])[..|s|] == s;
  }

  function WithFront(t: string): string {
    if t != "" && t[0] == '_' then t else "_" + t
  }

  lemma AddBehindFront(t: string, c: char)
    ensures AddChar(WithFront(t), c) == WithFront(AddChar(t, c))
  {
    if t != "" && t[0] != '_' {
      assert ("_" + t)[|t|] == t[|t| - 1];
      assert "_" + t + [UpperChar(c)] == "_" + (t + [UpperChar(c)]);
      assert "_" + t + "_" == "_" + (t + "_");
    }
  }

  /** Another character in front is one underscore, unless there is one already. */
  lemma {:induction false} SquashFront(c: char, s: string)
    requires !IsAlphanumeric(c)
    ensures Squash([c] + s) == WithFront(Squash(s))
  {
    hide Squash, AddChar, WithFront;
    if s == "" {
      assert [c] + s == [c];
      SquashOne(c);
    } else {
      var init, d := s[..|s| - 1], s[|s| - 1];
      SquashFront(c, init);
      assert s == init + [d] && [c] + s == ([c] + init) + [d];
      SquashNext(init, d);
      SquashNext([c] + init, d);
      AddBehindFront(Squash(init), d);
    }
  }

  lemma SquashOne(c: char)
    requires !IsAlphanumeric(c)
    ensures Squash([c]) == "_" == WithFront(Squash(""))
  {
    assert [c][..0] == "";
  }

  lemma SpaceInFront(c: char, s: string)
    requires !IsAlphanumeric(c)
    ensures TrimLeftUnderscore(Squash([c] + s)) == TrimLeftUnderscore(Squash(s))
  {
    hide Squash;
    SquashFront(c, s);
    assert ("_" + Squash(s))[1..] == Squash(s);
  }

  lemma {:induction false} CoreOfTrimLeft(s: string)
    ensures Core(TrimLeft(s)) == Core(s)
  {
    hide IsSpace, Squash, IsAlphanumeric;
    if s != "" && IsSpace(s[0]) {
      CoreOfTrimLeft(s[1..]);
      SpaceIsNoLetter(s[0]);
      SpaceInFront(s[0], s[1..]);
      assert s == [s[0]] + s[1..];
    }
  }

  lemma SpaceBehind(s: string, c: char)
    requires !IsAlphanumeric(c)
    ensures Core(s + [c]) == Core(s)
  {
    hide IsAlphanumeric;
    assert (s + [c])[..|s|] == s;
    if !EndsUnderscore(Squash(s)) {
      TrimmedUnderscore(Squash(s));
    }
  }

  lemma TrimmedUnderscore(t: string)
    requires !EndsUnderscore(t)
    ensures TrimRightUnderscore(TrimLeftUnderscore(t + "_")) == TrimRightUnderscore(TrimLeftUnderscore(t))
  {
    if t == "" {
      assert t + "_" == "_";
      assert "_"[1..] == "";
    } else {
      TrimLeftJoin(t, "_");
      var left := TrimLeftUnderscore(t);
      assert (left + "_")[..|left|] == left;
    }
  }

  lemma {:induction false} CoreOfTrimRight(s: string)
    ensures Core(TrimRight(s)) == Core(s)
  {
    hide IsSpace, Core, IsAlphanumeric;
    if s != "" && IsSpace(s[|s| - 1]) {
      CoreOfTrimRight(s[..|s| - 1]);
      SpaceIsNoLetter(s[|s| - 1]);
      SpaceBehind(s[..|s| - 1], s[|s| - 1]);
      assert s == s[..|s| - 1] + [s[|s| - 1]];
    }
  }

  lemma NormalizeIsCore(s: string)
    ensures Normalize(s) == Core(s)
  {
    hide TrimLeft, TrimRight, Squash, TrimLeftUnderscore, TrimRightUnderscore;
    CoreOfTrimLeft(s);
    CoreOfTrimRight(TrimLeft(s));
  }

  /** Pieces of a component that end and start with a letter or digit stay apart by exactly one
      underscore if anything else stands between them, and join if nothing does. */
  lemma PiecesStayApart(a: string, gap: string, b: string)
    requires EndsWithLetter(a) && StartsWithLetter(b) && NoLetters(gap)
    ensures Normalize(a + gap + b) == Normalize(a) + (if gap == "" then "" else "_") + Normalize(b)
  {
    hide Core, Normalize, EndsWithLetter, StartsWithLetter, NoLetters;
    CoreJoin(a, gap, b);
    NormalizeIsCore(a + gap + b);
    NormalizeIsCore(a);
    NormalizeIsCore(b);
  }

  /** What stands before the first and behind the last letter or digit is dropped; a single one is
      spelled in upper case, and without any nothing is left. */
  lemma EndsAreDropped(before: string, s: string, behind: string)
    requires NoLetters(before) && NoLetters(behind) && StartsWithLetter(s) && EndsWithLetter(s)
    ensures Normalize(before + s + behind) == Normalize(s)
    ensures |s| == 1 ==> Normalize(s) == [UpperChar(s[0])]
    ensures Normalize(before) == ""
  {
    hide Normalize, EndsWithLetter, StartsWithLetter, NoLetters;
    NormalizeIsCore(before + s + behind);
    NormalizeIsCore(s);
    NormalizeIsCore(before);
    CoreDropsEnds(before, s, behind);
    if |s| == 1 {
      SingleLetter(s);
    }
    CoreOfNothing(before);
  }

  lemma SingleLetter(s: string)
    requires |s| == 1 && StartsWithLetter(s)
    ensures Core(s) == [UpperChar(s[0])]
  {
    SquashNext("", s[0]);
    assert "" + s == s && s == [s[0]];
    SquashStart(s);
    NothingToTrimLeft([UpperChar(s[0])]);
    EndsPlain([UpperChar(s[0])]);
  }

  lemma CoreOfNothing(s: string)
    requires NoLetters(s)
    ensures Core(s) == ""
  {
    SquashNoLetters(s);
    if s != "" {
      assert "_"[1..] == "";
    }
  }

  lemma {:induction false} CoreDropsEnds(before: string, s: string, behind: string)
    requires NoLetters(before) && NoLetters(behind) && EndsWithLetter(s)
    ensures Core(before + s + behind) == Core(s)
    decreases |before| + |behind|
  {
    hide Core, Squash, IsAlphanumeric;
    if behind != "" {
      CoreDropsEnds(before, s, behind[..|behind| - 1]);
      SpaceBehind(before + s + behind[..|behind| - 1], behind[|behind| - 1]);
      assert before + s + behind == (before + s + behind[..|behind| - 1]) + [behind[|behind| - 1]];
    } else if before != "" {
      CoreDropsEnds(before[1..], s, behind);
      FrontDrops(before[0], before[1..] + s + behind);
      assert before + s + behind == [before[0]] + (before[1..] + s + behind);
    } else {
      assert before + s + behind == s;
    }
  }

  lemma FrontDrops(c: char, s: string)
    requires !IsAlphanumeric(c)
    ensures Core([c] + s) == Core(s)
  {
    hide Squash;
    SpaceInFront(c, s);
  }

  lemma UpperCase(c: char)
    ensures 'a' <= c <= 'z' ==> UpperChar(c) as int == c as int - 'a' as int + 'A' as int
    ensures !('a' <= c <= 'z') ==> UpperChar(c) == c
    ensures IsAlphanumeric(c) <==> 'a' <= c <= 'z' || 'A' <= c <= 'Z' || '0' <= c <= '9'
  {
  }

  // ----- the path -----

  function Glue(a: string, b: string): string {
    if a == "" then b else if b == "" then a else a + "_" + b
  }

  lemma GlueAgain(a: string, b: string, c: string)
    ensures Glue(Glue(a, b), c) == Glue(a, Glue(b, c))
  {
    assert a + "_" + b + "_" + c == a + "_" + (b + "_" + c);
  }

  lemma JoinNext(parts: seq<string>, last: string)
    ensures JoinParts(parts + [last]) == Glue(JoinParts(parts), Normalize(last))
  {
    hide Normalize;
    assert (parts + [last])[..|parts|] == parts;
  }

  lemma {:induction false} JoinFromFront(g: string, parts: seq<string>)
    ensures JoinParts([g] + parts) == Glue(Normalize(g), JoinParts(parts))
  {
    hide Normalize, JoinParts, Glue;
    if parts == [] {
      NothingJoined();
      JoinNext([], g);
      assert [g] + parts == [] + [g];
      GlueNothing(Normalize(g));
    } else {
      var init, last := parts[..|parts| - 1], parts[|parts| - 1];
      JoinFromFront(g, init);
      assert [g] + parts == ([g] + init) + [last] && parts == init + [last];
      JoinNext([g] + init, last);
      JoinNext(init, last);
      GlueAgain(Normalize(g), JoinParts(init), Normalize(last));
    }
  }

  lemma GlueNothing(a: string)
    ensures Glue("", a) == a == Glue(a, "")
  {
  }

  /** A field name spells the path from the outermost group to the key, one underscore between
      its non-empty normalised parts. */
  lemma PathFromOutermost(g: string, groups: seq<string>, key: string)
    ensures FieldName("", [], key) == Normalize(key)
    ensures
      var first, rest := Normalize(g), FieldName("", groups, key);
      FieldName("", [g] + groups, key) == if first == "" then rest else if rest == "" then first else first + "_" + rest
  {
    hide Normalize, JoinParts;
    assert [g] + groups + [key] == [g] + (groups + [key]);
    JoinFromFront(g, groups + [key]);
    JoinFromFront(key, []);
    assert [] + [key] == [key] && [key] + [] == [key];
    NothingJoined();
  }

  lemma NothingJoined()
    ensures JoinParts([]) == ""
  {
  }

  /** The prefix and one underscore stand in front of every name but seven standard ones, and of
      no empty name. */
  lemma PrefixComesFirst(prefix: string, groups: seq<string>, key: string)
    ensures
      var bare := FieldName("", groups, key);
      FieldName(prefix, groups, key) ==
      if prefix == "" ||
         bare in {"", "CODE_FILE", "CODE_FUNC", "CODE_LINE", "DOCUMENTATION", "ERRNO", "MESSAGE_ID", "TID"}
      then bare else prefix + "_" + bare
  {
    hide JoinParts;
  }
}
