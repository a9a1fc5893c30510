// The squared distance transform of mill/old/art.py: every cell of a bitmap
// gets (an upper estimate of) the squared distance to the nearest set cell,
// computed by four in-place scans over a 2-D integer array.

module Art {

  // ---------------------------------------------------------------------
  // The one-dimensional scan as a function of the line's values

  function Sq(d: int): int
  {
    d * d
  }

  /** The offset at which the inner loop of _upscan at position i stops,
      searching from offset j: the first offset past i, or the first whose
      cell holds less than s[i] plus the squared offset. Earlier offsets
      write only to cells the search has already passed, so it reads the
      line as it was before position i. */
  function Reach(s: seq<int>, i: nat, j: nat): (r: nat)
    requires i < |s| && 1 <= j <= i + 1
    ensures j <= r <= i + 1
    decreases i + 1 - j
  {
    if j > i || s[i - j] < s[i] + Sq(j) then j else Reach(s, i, j + 1)
  }

  /** The inner loop goes on exactly while cell i - j holds at least
      s[i] + j*j, and stops at the first offset where it does not. */
  lemma {:induction false} ReachFirst(s: seq<int>, i: nat, j: nat)
    requires i < |s| && 1 <= j <= i + 1
    ensures forall k :: i - Reach(s, i, j) < k <= i - j ==> s[k] >= s[i] + Sq(i - k)
    ensures Reach(s, i, j) <= i ==> s[i - Reach(s, i, j)] < s[i] + Sq(Reach(s, i, j))
    decreases i + 1 - j
  {
    if !(j > i || s[i - j] < s[i] + Sq(j)) {
      ReachFirst(s, i, j + 1);
      assert i - (i - j) == j;
    }
  }

  /** The line with the cells i - j + 1 .. i - 1 set to s[i] plus their
      squared distance to i. */
  function Written(s: seq<int>, i: nat, j: nat): (r: seq<int>)
    requires i < |s|
    ensures |r| == |s|
  {
    seq(|s|, k requires 0 <= k < |s| => if i - j < k < i then s[i] + Sq(i - k) else s[k])
  }

  lemma WrittenNone(s: seq<int>, i: nat)
    requires i < |s|
    ensures Written(s, i, 1) == s
  {
  }

  lemma WrittenDone(s: seq<int>, i: nat, j: nat)
    requires i < |s| && j == i + 1 && Reach(s, i, j) == Reach(s, i, 1)
    ensures Written(s, i, j) == Scan(s, i)
  {
  }

  /** Cell i - j has not been written yet, and the loop goes on from it
      exactly when the search for the stopping offset does. */
  lemma WrittenBelow(s: seq<int>, i: nat, j: nat)
    requires i < |s| && 1 <= j <= i && Reach(s, i, j) == Reach(s, i, 1)
    ensures Written(s, i, j)[i - j] == s[i - j]
    ensures s[i - j] < s[i] + Sq(j) ==> Reach(s, i, j) == j && Written(s, i, j) == Scan(s, i)
    ensures s[i - j] >= s[i] + Sq(j) ==> Reach(s, i, j) == Reach(s, i, j + 1)
  {
  }

  lemma WrittenStep(s: seq<int>, i: nat, j: nat)
    requires i < |s| && 1 <= j <= i
    ensures Written(s, i, j)[i - j := s[i] + Sq(j)] == Written(s, i, j + 1)
  {
    var t := Written(s, i, j)[i - j := s[i] + Sq(j)];
    var u := Written(s, i, j + 1);
    forall k | 0 <= k < |s| ensures t[k] == u[k] {
      if k == i - j {
        assert i - k == j;
      }
    }
  }

  /** The inner loop of _upscan at position i. */
  function Scan(s: seq<int>, i: nat): (r: seq<int>)
    requires i < |s|
    ensures |r| == |s|
  {
    Written(s, i, Reach(s, i, 1))
  }

  /** The scan leaves cell i alone; every other cell either keeps its value
      or, below i, takes s[i] plus its squared distance to i, which is no
      more than it held; and the cells taken form one run ending at i - 1. */
  lemma ScanFacts(s: seq<int>, i: nat)
    requires i < |s|
    ensures Scan(s, i)[i] == s[i]
    ensures forall k :: 0 <= k < |s| ==>
      Scan(s, i)[k] == s[k] || (k < i && Scan(s, i)[k] == s[i] + Sq(i - k) && Scan(s, i)[k] <= s[k])
    ensures forall k, m :: 0 <= k < m < i && Scan(s, i)[k] != s[k] ==> Scan(s, i)[m] == s[i] + Sq(i - m)
  {
    ReachFirst(s, i, 1);
  }

  /** The line after _upscan has handled positions 0 .. i - 1. */
  function Pass(s: seq<int>, i: nat): (r: seq<int>)
    requires i <= |s|
    ensures |r| == |s|
  {
    if i == 0 then s else Scan(Pass(s, i - 1), i - 1)
  }

  /** No entry of the line grows. */
  lemma {:induction false} PassDecreasing(s: seq<int>, i: nat)
    requires i <= |s|
    ensures forall k :: 0 <= k < |s| ==> Pass(s, i)[k] <= s[k]
  {
    if i > 0 {
      PassDecreasing(s, i - 1);
      ScanFacts(Pass(s, i - 1), i - 1);
    }
  }

  predicate NonNegative(s: seq<int>)
  {
    forall k :: 0 <= k < |s| ==> s[k] >= 0
  }

  /** On non-negative values the scan keeps every entry non-negative, and
      an entry is 0 afterwards exactly when it was 0 before. */
  lemma {:induction false} PassZeros(s: seq<int>, i: nat)
    requires i <= |s| && NonNegative(s)
    ensures NonNegative(Pass(s, i))
    ensures forall k :: 0 <= k < |s| ==> (Pass(s, i)[k] == 0 <==> s[k] == 0)
  {
    if i > 0 {
      PassZeros(s, i - 1);
      var p := Pass(s, i - 1);
      ScanFacts(p, i - 1);
      var r := Pass(s, i);
      forall k | 0 <= k < |s|
        ensures r[k] >= 0 && (r[k] == 0 <==> p[k] == 0)
      {
        if r[k] != p[k] {
          assert Sq(i - 1 - k) >= 1 by {
            MulPositive(i - 1 - k);
          }
        }
      }
    }
  }

  lemma MulPositive(d: int)
    requires d >= 1
    ensures d * d >= 1
  {
  }

  // ---------------------------------------------------------------------
  // Views of a 2-D array as a line

  /** The one-dimensional views distance2_transform scans: a row forwards
      (f[r, :]) or backwards (f[r, ::-1]), a column forwards (f[:, c]) or
      backwards (f[::-1, c]). */
  datatype View = Row(r: nat) | RowRev(r: nat) | Col(c: nat) | ColRev(c: nat)
  {
    predicate Fits(h: nat, w: nat)
    {
      match this
      case Row(r) => r < h
      case RowRev(r) => r < h
      case Col(c) => c < w
      case ColRev(c) => c < w
    }

    function Length(h: nat, w: nat): nat
    {
      if Row? || RowRev? then w else h
    }

    /** The cell at position k of the view. */
    function At(h: nat, w: nat, k: nat): (p: (nat, nat))
      requires Fits(h, w) && k < Length(h, w)
      ensures p.0 < h && p.1 < w
    {
      match this
      case Row(r) => (r, k)
      case RowRev(r) => (r, w - 1 - k)
      case Col(c) => (k, c)
      case ColRev(c) => (h - 1 - k, c)
    }

    /** Distinct positions of a view are distinct cells. */
    lemma AtInjective(h: nat, w: nat, k1: nat, k2: nat)
      requires Fits(h, w) && k1 < Length(h, w) && k2 < Length(h, w) && k1 != k2
      ensures At(h, w, k1) != At(h, w, k2)
    {
    }

    /** Whether cell (a, b) lies on the view. */
    predicate Holds(a: nat, b: nat)
    {
      match this
      case Row(r) => a == r
      case RowRev(r) => a == r
      case Col(c) => b == c
      case ColRev(c) => b == c
    }

    /** The position of cell (a, b) on the view. */
    function IndexOf(h: nat, w: nat, a: nat, b: nat): (k: nat)
      requires Fits(h, w) && Holds(a, b) && a < h && b < w
      ensures k < Length(h, w) && At(h, w, k) == (a, b)
    {
      match this
      case Row(_) => b
      case RowRev(_) => w - 1 - b
      case Col(_) => a
      case ColRev(_) => h - 1 - a
    }
  }

  /** The values along a view of f. */
  ghost function Values(f: array2<int>, v: View): (s: seq<int>)
    requires v.Fits(f.Length0, f.Length1)
    reads f
    ensures |s| == v.Length(f.Length0, f.Length1)
  {
    var h, w := f.Length0, f.Length1;
    seq(v.Length(h, w), k requires 0 <= k < v.Length(h, w) reads f => f[v.At(h, w, k).0, v.At(h, w, k).1])
  }

  // ---------------------------------------------------------------------
  // _upscan

  /** The inner loop of _upscan for position i of the line f. */
  method ScanFrom(f: array<int>, i: nat)
    requires i < f.Length
    modifies f
    ensures f[..] == Scan(old(f[..]), i)
  {
    ghost var cur := f[..];
    var fi := f[i];
    var j := 1;
    WrittenNone(cur, i);
    while j <= i
      invariant 1 <= j <= i + 1 && fi == cur[i]
      invariant Reach(cur, i, j) == Reach(cur, i, 1)
      invariant f[..] == Written(cur, i, j)
    {
      var x := fi + j * j;
      assert x == cur[i] + Sq(j);
      WrittenBelow(cur, i, j);
      if f[i - j] < x {
        break;
      }
      WrittenStep(cur, i, j);
      f[i - j] := x;
      j := j + 1;
    }
    if j > i {
      WrittenDone(cur, i, j);
    }
  }

  /** _upscan on the line f: the line becomes the scan of its old values.
      So no entry grows, and on non-negative entries every entry stays
      non-negative and is 0 exactly when it was. */
  method Upscan(f: array<int>)
    modifies f
    ensures f[..] == Pass(old(f[..]), f.Length)
    ensures forall k :: 0 <= k < f.Length ==> f[k] <= old(f[k])
    ensures NonNegative(old(f[..])) ==>
      NonNegative(f[..]) && forall k :: 0 <= k < f.Length ==> (f[k] == 0 <==> old(f[k]) == 0)
  {
    ghost var s0 := f[..];
    for i := 0 to f.Length
      invariant f[..] == Pass(s0, i)
    {
      ScanFrom(f, i);
    }
    PassDecreasing(s0, f.Length);
    if NonNegative(s0) {
      PassZeros(s0, f.Length);
    }
  }

  /** A copy of the values along view v of f. */
  method ReadView(f: array2<int>, v: View) returns (line: array<int>)
    requires v.Fits(f.Length0, f.Length1)
    ensures fresh(line) && line[..] == Values(f, v)
  {
    var h, w := f.Length0, f.Length1;
    line := new int[v.Length(h, w)];
    for k := 0 to line.Length
      invariant forall k' :: 0 <= k' < k ==> line[k'] == Values(f, v)[k']
    {
      var (a, b) := v.At(h, w, k);
      line[k] := f[a, b];
    }
  }

  /** Writes line back along view v of f; cells off the view keep their values. */
  method WriteView(f: array2<int>, v: View, line: array<int>)
    requires v.Fits(f.Length0, f.Length1) && line.Length == v.Length(f.Length0, f.Length1)
    modifies f
    ensures Values(f, v) == line[..]
    ensures forall a, b :: 0 <= a < f.Length0 && 0 <= b < f.Length1 && !v.Holds(a, b) ==> f[a, b] == old(f[a, b])
  {
    var h, w := f.Length0, f.Length1;
    for k := 0 to line.Length
      invariant forall k' :: 0 <= k' < k ==> Values(f, v)[k'] == line[k']
      invariant forall a, b :: 0 <= a < h && 0 <= b < w && !v.Holds(a, b) ==> f[a, b] == old(f[a, b])
    {
      var (a, b) := v.At(h, w, k);
      f[a, b] := line[k];
      forall k' | 0 <= k' < k
        ensures Values(f, v)[k'] == line[k']
      {
        v.AtInjective(h, w, k', k);
      }
    }
  }

  /** _upscan over view v of f (a row or column of f, either way round):
      only the view's cells change, no entry grows, and on non-negative
      entries every entry stays non-negative and is 0 exactly when it was. */
  method UpscanView(f: array2<int>, v: View)
    requires v.Fits(f.Length0, f.Length1)
    modifies f
    ensures Values(f, v) == Pass(old(Values(f, v)), v.Length(f.Length0, f.Length1))
    ensures forall a, b :: 0 <= a < f.Length0 && 0 <= b < f.Length1 && !v.Holds(a, b) ==> f[a, b] == old(f[a, b])
    ensures forall a, b :: 0 <= a < f.Length0 && 0 <= b < f.Length1 ==> f[a, b] <= old(f[a, b])
    ensures (forall a, b :: 0 <= a < f.Length0 && 0 <= b < f.Length1 ==> old(f[a, b]) >= 0) ==>
      forall a, b :: 0 <= a < f.Length0 && 0 <= b < f.Length1 ==> f[a, b] >= 0 && (f[a, b] == 0 <==> old(f[a, b]) == 0)
  {
    var h, w := f.Length0, f.Length1;
    var line := ReadView(f, v);
    ghost var s0 := line[..];
    Upscan(line);
    WriteView(f, v, line);
    ghost var nonNeg := forall a, b :: 0 <= a < h && 0 <= b < w ==> old(f[a, b]) >= 0;
    if nonNeg {
      assert NonNegative(s0) by {
        forall k | 0 <= k < |s0| ensures s0[k] >= 0 {
          var p := v.At(h, w, k);
          assert s0[k] == old(f[p.0, p.1]);
        }
      }
    }
    forall a, b | 0 <= a < h && 0 <= b < w && v.Holds(a, b)
      ensures f[a, b] <= old(f[a, b])
      ensures nonNeg ==> f[a, b] >= 0 && (f[a, b] == 0 <==> old(f[a, b]) == 0)
    {
      var k := v.IndexOf(h, w, a, b);
      assert f[a, b] == Values(f, v)[k] == line[k];
      assert old(f[a, b]) == s0[k];
    }
  }

  // ---------------------------------------------------------------------
  // distance2_transform

  function MinN(a: nat, b: nat): nat
  {
    if a <= b then a else b
  }

  /** The state distance2_transform keeps: every entry lies in [0, top] and
      is 0 exactly on the bitmap's set cells. */
  ghost predicate Bounded(f: array2<int>, bitmap: array2<bool>, top: int)
    requires f.Length0 == bitmap.Length0 && f.Length1 == bitmap.Length1
    reads f, bitmap
  {
    forall a, b :: 0 <= a < f.Length0 && 0 <= b < f.Length1 ==>
      0 <= f[a, b] <= top && (f[a, b] == 0 <==> bitmap[a, b])
  }

  /** distance2_transform: 0 on set cells and min(h, w)^2 elsewhere, then
      each row scanned both ways, then each column both ways. */
  method Distance2Transform(bitmap: array2<bool>) returns (f: array2<int>)
    ensures fresh(f)
    ensures f.Length0 == bitmap.Length0 && f.Length1 == bitmap.Length1
    ensures forall a, b :: 0 <= a < f.Length0 && 0 <= b < f.Length1 ==>
      0 <= f[a, b] <= MinN(bitmap.Length0, bitmap.Length1) * MinN(bitmap.Length0, bitmap.Length1)
    ensures forall a, b :: 0 <= a < f.Length0 && 0 <= b < f.Length1 ==> (f[a, b] == 0 <==> bitmap[a, b])
  {
    var h, w := bitmap.Length0, bitmap.Length1;
    var m := MinN(h, w);
    var top := m * m;
    f := new int[h, w];
    for a := 0 to h
      invariant forall a', b :: 0 <= a' < a && 0 <= b < w ==> f[a', b] == if bitmap[a', b] then 0 else top
    {
      for b := 0 to w
        invariant forall a', b' :: 0 <= a' < a && 0 <= b' < w ==> f[a', b'] == if bitmap[a', b'] then 0 else top
        invariant forall b' :: 0 <= b' < b ==> f[a, b'] == if bitmap[a, b'] then 0 else top
      {
        f[a, b] := if bitmap[a, b] then 0 else top;
      }
    }
    if h > 0 && w > 0 {
      assert top >= 1 by {
        MulPositive(m);
      }
    }
    assert Bounded(f, bitmap, top);
    for i := 0 to h
      invariant Bounded(f, bitmap, top)
    {
      UpscanView(f, Row(i));
      UpscanView(f, RowRev(i));
    }
    for i := 0 to w
      invariant Bounded(f, bitmap, top)
    {
      UpscanView(f, Col(i));
      UpscanView(f, ColRev(i));
    }
  }
}
