/** Points in time that lie a whole number of windows apart, and strictly ascending
    sequences of such points. */
module Congruence {

  predicate Aligned(a: int, b: int, w: int)
    requires w > 0
  {
    (a - b) % w == 0
  }

  lemma DivMod(x: int, w: int)
    requires w > 0
    ensures x == w * (x / w) + x % w && 0 <= x % w < w
  {
  }

  lemma MulBound(k: int, w: int)
    requires w > 0
    ensures k >= 1 ==> k * w >= w
    ensures k <= -1 ==> k * w <= -w
    ensures k <= 0 ==> k * w <= 0
    ensures k >= 0 ==> k * w >= 0
  {
  }

  lemma MultipleIsAligned(k: int, w: int)
    requires w > 0
    ensures (k * w) % w == 0
  {
    DivMod(k * w, w);
    var d := k - (k * w) / w;
    assert (k * w) % w == d * w;
    MulBound(d, w);
  }

  /** How many windows apart two aligned points are. */
  lemma Apart(a: int, b: int, w: int) returns (k: int)
    requires w > 0 && Aligned(a, b, w)
    ensures a == b + k * w
  {
    k := (a - b) / w;
    DivMod(a - b, w);
  }

  lemma AlignedShift(a: int, k: int, w: int)
    requires w > 0
    ensures Aligned(a + k * w, a, w)
  {
    MultipleIsAligned(k, w);
  }

  lemma MulOrder(i: int, j: int, w: int)
    requires w > 0 && i < j
    ensures i * w + w <= j * w
  {
    MulBound(j - i, w);
    assert (j - i) * w == j * w - i * w;
  }

  lemma AlignedTrans(a: int, b: int, c: int, w: int)
    requires w > 0 && Aligned(a, b, w) && Aligned(b, c, w)
    ensures Aligned(a, c, w)
  {
    hide Aligned;
    var i := Apart(a, b, w);
    var j := Apart(b, c, w);
    assert (i + j) * w == i * w + j * w;
    AlignedShift(c, i + j, w);
  }

  lemma AlignedSym(a: int, b: int, w: int)
    requires w > 0 && Aligned(a, b, w)
    ensures Aligned(b, a, w)
  {
    hide Aligned;
    var i := Apart(a, b, w);
    assert (-i) * w == -(i * w);
    AlignedShift(a, -i, w);
  }

  /** Two aligned points are equal or at least one window apart. */
  lemma AlignedGap(a: int, b: int, w: int)
    requires w > 0 && a < b && Aligned(b, a, w)
    ensures b - a >= w
  {
    hide Aligned;
    var k := Apart(b, a, w);
    MulBound(k, w);
  }

  /** Aligned points less than a window apart are equal. */
  lemma AlignedSame(c: int, d: int, base: int, w: int)
    requires w > 0 && Aligned(c, base, w) && Aligned(d, base, w) && -w < c - d < w
    ensures c == d
  {
    hide Aligned;
    AlignedSym(c, base, w);
    AlignedSym(d, base, w);
    AlignedTrans(c, base, d, w);
    AlignedTrans(d, base, c, w);
    if c < d {
      AlignedGap(c, d, w);
    } else if d < c {
      AlignedGap(d, c, w);
    }
  }

  predicate StrictlyAscending(q: seq<int>) {
    forall i, j :: 0 <= i < j < |q| ==> q[i] < q[j]
  }

  /** Consecutive entries are at least `gap` apart. */
  predicate Gapped(q: seq<int>, gap: int) {
    forall i :: 0 <= i < |q| - 1 ==> q[i + 1] - q[i] >= gap
  }

  lemma {:induction false} GappedDistance(q: seq<int>, gap: int, i: nat, j: nat)
    requires gap >= 0 && Gapped(q, gap) && i <= j < |q|
    ensures q[j] - q[i] >= (j - i) * gap
    decreases j - i
  {
    if i < j {
      GappedDistance(q, gap, i, j - 1);
      assert q[j - 1 + 1] - q[j - 1] >= gap;
    }
  }

  function Least(s: set<int>): (m: int)
    requires s != {}
    ensures m in s && forall x :: x in s ==> m <= x
  {
    LeastExists(s);
    var m :| IsLeast(m, s);
    m
  }

  function Greatest(s: set<int>): (m: int)
    requires s != {}
    ensures m in s && forall x :: x in s ==> x <= m
  {
    GreatestExists(s);
    var m :| IsGreatest(m, s);
    m
  }

  predicate IsLeast(m: int, s: set<int>) {
    m in s && forall x :: x in s ==> m <= x
  }

  predicate IsGreatest(m: int, s: set<int>) {
    m in s && forall x :: x in s ==> x <= m
  }

  lemma {:induction false} LeastOf(s: set<int>) returns (m: int)
    requires s != {}
    ensures IsLeast(m, s)
  {
    assert (forall x :: x !in s) ==> s == {};
    m :| m in s;
    var rest := s - {m};
    if rest != {} {
      var k := LeastOf(rest);
      SmallerIsLeast(m, k, s);
      m := if m < k then m else k;
    } else {
      assert s == {m};
    }
  }

  lemma SmallerIsLeast(y: int, k: int, s: set<int>)
    requires y in s && IsLeast(k, s - {y})
    ensures IsLeast(if y < k then y else k, s)
  {
    assert forall x :: x in s ==> x == y || x in s - {y};
  }

  lemma {:induction false} GreatestOf(s: set<int>) returns (m: int)
    requires s != {}
    ensures IsGreatest(m, s)
  {
    assert (forall x :: x !in s) ==> s == {};
    m :| m in s;
    var rest := s - {m};
    if rest != {} {
      var k := GreatestOf(rest);
      LargerIsGreatest(m, k, s);
      m := if k < m then m else k;
    } else {
      assert s == {m};
    }
  }

  lemma LargerIsGreatest(y: int, k: int, s: set<int>)
    requires y in s && IsGreatest(k, s - {y})
    ensures IsGreatest(if k < y then y else k, s)
  {
    assert forall x :: x in s ==> x == y || x in s - {y};
  }

  lemma LeastExists(s: set<int>)
    requires s != {}
    ensures exists m :: IsLeast(m, s)
  {
    var m := LeastOf(s);
  }

  lemma GreatestExists(s: set<int>)
    requires s != {}
    ensures exists m :: IsGreatest(m, s)
  {
    var m := GreatestOf(s);
  }

  /** The members of `s` in ascending order. */
  function Ascending(s: set<int>): (q: seq<int>)
    ensures |q| == |s| && StrictlyAscending(q)
    ensures forall x :: x in q <==> x in s
  {
    if s == {} then []
    else
      var m := Least(s);
      [m] + Ascending(s - {m})
  }

  predicate PairwiseAligned(s: set<int>, w: int)
    requires w > 0
  {
    forall x, y :: x in s && y in s ==> Aligned(x, y, w)
  }

  /** An ascending sequence of pairwise aligned points has gaps of at least one window. */
  lemma AlignedAscendingIsGapped(q: seq<int>, w: int)
    requires w > 0 && StrictlyAscending(q)
    requires forall i, j :: 0 <= i < |q| && 0 <= j < |q| ==> Aligned(q[i], q[j], w)
    ensures Gapped(q, w)
  {
    hide Aligned;
    forall i | 0 <= i < |q| - 1
      ensures q[i + 1] - q[i] >= w
    {
      AlignedGap(q[i], q[i + 1], w);
    }
  }

  /** Pigeonhole: points at least `w` apart inside an interval of length `span`. */
  lemma GappedCount(q: seq<int>, w: int, lo: int, hi: int)
    requires w > 0 && Gapped(q, w)
    requires forall i :: 0 <= i < |q| ==> lo <= q[i] <= hi
    ensures q != [] ==> (|q| - 1) * w <= hi - lo
  {
    if q != [] {
      GappedDistance(q, w, 0, |q| - 1);
    }
  }
}
