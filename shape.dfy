// Polygon loops, object naming and the vertex/face index layout of extruded
// meshes, from demakein/shape.py.

module Shape {
  import opened Common
  import Profiles
  import Cgal

  datatype Point2 = Point2(x: real, y: real)

  // make_name

  /** The module-level NAME_COUNT behind make_name. */
  class NameCounter {
    var count: nat

    constructor ()
      ensures count == 0
    {
      count := 0;
    }

    /** make_name: a non-empty given name is returned as it is and the counter
        is left alone; otherwise the counter advances and names the object.
        An absent name (None) is the empty string here. */
    method MakeName(value: string) returns (name: string)
      modifies this
      ensures value != "" ==> name == value && count == old(count)
      ensures value == "" ==> count == old(count) + 1 && name == "obj" + Decimal(count)
    {
      if value != "" {
        name := value;
      } else {
        count := count + 1;
        name := "obj" + Decimal(count);
      }
    }
  }

  /** Generated names differ whenever the counter values differ. */
  lemma GeneratedNamesDistinct(m: nat, n: nat)
    requires m != n
    ensures "obj" + Decimal(m) != "obj" + Decimal(n)
  {
    DecimalInjective(m, n);
    assert ("obj" + Decimal(m))[3..] == Decimal(m);
    assert ("obj" + Decimal(n))[3..] == Decimal(n);
  }

  // Loop.area

  function Cross2(a: Point2, b: Point2): real
  {
    a.x * b.y - a.y * b.x
  }

  /** The index before i around a closed loop of n points. */
  function Prev(n: nat, i: nat): nat
    requires i < n
  {
    if i == 0 then n - 1 else i - 1
  }

  /** The shoelace terms last[0]*point[1] - last[1]*point[0] of a loop from
      point k on, the term of point i pairing it with the point before it
      around the loop. */
  function EdgesFrom(l: seq<Point2>, k: nat): (r: seq<real>)
    requires |l| >= 1 && k <= |l|
    ensures |r| == |l| - k
    decreases |l| - k
  {
    if k == |l| then [] else [Cross2(l[Prev(|l|, k)], l[k])] + EdgesFrom(l, k + 1)
  }

  /** The shoelace terms of the whole loop, the first one pairing the last
      point with the first. */
  function Edges(l: seq<Point2>): (r: seq<real>)
    requires |l| >= 1
    ensures |r| == |l|
  {
    EdgesFrom(l, 0)
  }

  lemma {:induction false} EdgesFromAt(l: seq<Point2>, k: nat, i: nat)
    requires k <= i < |l|
    ensures EdgesFrom(l, k)[i - k] == Cross2(l[Prev(|l|, i)], l[i])
    decreases i - k
  {
    if i > k {
      EdgesFromAt(l, k + 1, i);
    }
  }

  /** Term i of the shoelace sum pairs point i with the point before it. */
  lemma EdgeAt(l: seq<Point2>, i: nat)
    requires i < |l|
    ensures Edges(l)[i] == Cross2(l[Prev(|l|, i)], l[i])
  {
    EdgesFromAt(l, 0, i);
  }

  /** The signed (shoelace) area. */
  function AreaOf(l: seq<Point2>): real
    requires |l| >= 1
  {
    0.5 * SumR(Edges(l))
  }

  /** Loop.area: the accumulator loop over the points with the previous point
      carried in last. */
  method Area(l: seq<Point2>) returns (area: real)
    requires |l| >= 1
    ensures area == AreaOf(l)
  {
    var total := 0.0;
    var last := l[|l| - 1];
    for i := 0 to |l|
      invariant total == SumR(Edges(l)[..i])
      invariant last == if i == 0 then l[|l| - 1] else l[i - 1]
    {
      var point := l[i];
      total := total + (last.x * point.y - last.y * point.x);
      EdgeAt(l, i);
      SumPrefixStep(Edges(l), i);
      last := point;
    }
    assert Edges(l)[..|l|] == Edges(l);
    area := 0.5 * total;
  }

  // Loop.extent

  datatype Limits2 = Limits2(xMin: real, xMax: real, yMin: real, yMax: real)

  function Xs(l: seq<Point2>): (r: seq<real>)
    ensures |r| == |l| && forall i {:trigger r[i]} :: 0 <= i < |l| ==> r[i] == l[i].x
  {
    seq(|l|, i requires 0 <= i < |l| => l[i].x)
  }

  function Ys(l: seq<Point2>): (r: seq<real>)
    ensures |r| == |l| && forall i {:trigger r[i]} :: 0 <= i < |l| ==> r[i] == l[i].y
  {
    seq(|l|, i requires 0 <= i < |l| => l[i].y)
  }

  /** Every point lies inside the limits and each limit is reached by a point. */
  ghost predicate Encloses(l: seq<Point2>, e: Limits2)
  {
    && (forall i :: 0 <= i < |l| ==> e.xMin <= l[i].x <= e.xMax && e.yMin <= l[i].y <= e.yMax)
    && (exists i :: 0 <= i < |l| && l[i].x == e.xMin)
    && (exists i :: 0 <= i < |l| && l[i].x == e.xMax)
    && (exists i :: 0 <= i < |l| && l[i].y == e.yMin)
    && (exists i :: 0 <= i < |l| && l[i].y == e.yMax)
  }

  /** Loop.extent: per-axis min and max of the points. */
  function Extent(l: seq<Point2>): Limits2
    requires |l| >= 1
  {
    Limits2(MinSeq(Xs(l)), MaxSeq(Xs(l)), MinSeq(Ys(l)), MaxSeq(Ys(l)))
  }

  /** The extent encloses the loop: every point lies inside it and each of
      its four limits is reached by some point. */
  lemma ExtentEncloses(l: seq<Point2>)
    requires |l| >= 1
    ensures Encloses(l, Extent(l))
  {
    var e, xs, ys := Extent(l), Xs(l), Ys(l);
    var i0 :| 0 <= i0 < |l| && xs[i0] == e.xMin;
    var i1 :| 0 <= i1 < |l| && xs[i1] == e.xMax;
    var i2 :| 0 <= i2 < |l| && ys[i2] == e.yMin;
    var i3 :| 0 <= i3 < |l| && ys[i3] == e.yMax;
    assert l[i0].x == e.xMin && l[i1].x == e.xMax && l[i2].y == e.yMin && l[i3].y == e.yMax;
    forall i | 0 <= i < |l|
      ensures e.xMin <= l[i].x <= e.xMax && e.yMin <= l[i].y <= e.yMax
    {
      assert xs[i] == l[i].x && ys[i] == l[i].y;
    }
  }

  /** Limits that enclose a loop are its extent. */
  lemma EnclosesUnique(l: seq<Point2>, e: Limits2)
    requires |l| >= 1 && Encloses(l, e)
    ensures e == Extent(l)
  {
    var xs, ys := Xs(l), Ys(l);
    var i0 :| 0 <= i0 < |l| && l[i0].x == e.xMin;
    var i1 :| 0 <= i1 < |l| && l[i1].x == e.xMax;
    var i2 :| 0 <= i2 < |l| && l[i2].y == e.yMin;
    var i3 :| 0 <= i3 < |l| && l[i3].y == e.yMax;
    MinSeqUnique(xs, e.xMin, i0);
    MaxSeqUnique(xs, e.xMax, i1);
    MinSeqUnique(ys, e.yMin, i2);
    MaxSeqUnique(ys, e.yMax, i3);
  }

  // scale, scale2, offset, flip_x, flip_y

  /** Loop.scale2: x times fx, y times fy. */
  function Scale2(l: seq<Point2>, fx: real, fy: real): (r: seq<Point2>)
    ensures |r| == |l| && forall i {:trigger r[i]} :: 0 <= i < |l| ==> r[i] == Point2(l[i].x * fx, l[i].y * fy)
  {
    seq(|l|, i requires 0 <= i < |l| => Point2(l[i].x * fx, l[i].y * fy))
  }

  /** Loop.scale: both coordinates times f. */
  function Scale(l: seq<Point2>, f: real): (r: seq<Point2>)
    ensures |r| == |l| && forall i {:trigger r[i]} :: 0 <= i < |l| ==> r[i] == Point2(l[i].x * f, l[i].y * f)
  {
    seq(|l|, i requires 0 <= i < |l| => Point2(l[i].x * f, l[i].y * f))
  }

  /** Loop.offset: every point translated by (dx, dy). */
  function Offset(l: seq<Point2>, dx: real, dy: real): (r: seq<Point2>)
    ensures |r| == |l| && forall i {:trigger r[i]} :: 0 <= i < |l| ==> r[i] == Point2(l[i].x + dx, l[i].y + dy)
  {
    seq(|l|, i requires 0 <= i < |l| => Point2(l[i].x + dx, l[i].y + dy))
  }

  /** Loop.flip_x: mirrored in x, in reverse order. */
  function FlipX(l: seq<Point2>): (r: seq<Point2>)
    ensures |r| == |l| && forall i {:trigger r[i]} :: 0 <= i < |l| ==> r[i] == Point2(-l[|l| - 1 - i].x, l[|l| - 1 - i].y)
  {
    seq(|l|, i requires 0 <= i < |l| => Point2(-l[|l| - 1 - i].x, l[|l| - 1 - i].y))
  }

  /** Loop.flip_y: mirrored in y, in reverse order. */
  function FlipY(l: seq<Point2>): (r: seq<Point2>)
    ensures |r| == |l| && forall i {:trigger r[i]} :: 0 <= i < |l| ==> r[i] == Point2(l[|l| - 1 - i].x, -l[|l| - 1 - i].y)
  {
    seq(|l|, i requires 0 <= i < |l| => Point2(l[|l| - 1 - i].x, -l[|l| - 1 - i].y))
  }

  lemma ScaleIsScale2(l: seq<Point2>, f: real)
    ensures Scale(l, f) == Scale2(l, f, f)
  {
  }

  lemma Cross2Scaled(a: Point2, b: Point2, fx: real, fy: real)
    ensures Cross2(Point2(a.x * fx, a.y * fy), Point2(b.x * fx, b.y * fy)) == (fx * fy) * Cross2(a, b)
  {
    assert a.x * fx * (b.y * fy) == (fx * fy) * (a.x * b.y);
    assert a.y * fy * (b.x * fx) == (fx * fy) * (a.y * b.x);
  }

  lemma EdgesScale2(l: seq<Point2>, fx: real, fy: real)
    requires |l| >= 1
    ensures forall i :: 0 <= i < |l| ==> Edges(Scale2(l, fx, fy))[i] == (fx * fy) * Edges(l)[i]
  {
    var r := Scale2(l, fx, fy);
    forall i | 0 <= i < |l|
      ensures Edges(r)[i] == (fx * fy) * Edges(l)[i]
    {
      var j := Prev(|l|, i);
      EdgeAt(l, i);
      EdgeAt(r, i);
      Cross2Scaled(l[j], l[i], fx, fy);
    }
  }

  /** Loops whose shoelace terms are termwise c times another's have c times
      its area. */
  lemma AreaFromEdgesScaled(l: seq<Point2>, r: seq<Point2>, c: real)
    requires |l| >= 1 && |r| == |l|
    requires forall i :: 0 <= i < |l| ==> Edges(r)[i] == c * Edges(l)[i]
    ensures AreaOf(r) == c * AreaOf(l)
  {
    SumScale(Edges(l), Edges(r), c);
  }

  /** Scaling x by fx and y by fy scales the signed area by fx * fy. */
  lemma AreaScale2(l: seq<Point2>, fx: real, fy: real)
    requires |l| >= 1
    ensures AreaOf(Scale2(l, fx, fy)) == (fx * fy) * AreaOf(l)
  {
    EdgesScale2(l, fx, fy);
    AreaFromEdgesScaled(l, Scale2(l, fx, fy), fx * fy);
  }

  /** Loop.scale(f) scales the area by f squared. */
  lemma AreaScale(l: seq<Point2>, f: real)
    requires |l| >= 1
    ensures AreaOf(Scale(l, f)) == (f * f) * AreaOf(l)
  {
    ScaleIsScale2(l, f);
    AreaScale2(l, f, f);
  }

  /** The differences v[i] - v[i - 1] around a closed loop (the first one
      taken from the last element). */
  function LoopDiffs(v: seq<real>): (r: seq<real>)
    requires |v| >= 1
    ensures |r| == |v|
    ensures r[0] == v[0] - v[|v| - 1]
    ensures forall i {:trigger r[i]} :: 1 <= i < |v| ==> r[i] == v[i] - v[i - 1]
    ensures forall i {:trigger r[i]} :: 0 <= i < |v| ==> r[i] == v[i] - v[Prev(|v|, i)]
  {
    seq(|v|, i requires 0 <= i < |v| => v[i] - v[Prev(|v|, i)])
  }

  lemma {:induction false} LoopDiffsPrefix(v: seq<real>, k: nat)
    requires 1 <= k <= |v|
    ensures SumR(LoopDiffs(v)[..k]) == v[k - 1] - v[|v| - 1]
  {
    var d := LoopDiffs(v);
    if k == 1 {
      assert d[..1][..0] == [];
    } else {
      LoopDiffsPrefix(v, k - 1);
      assert d[..k][..k - 1] == d[..k - 1];
    }
  }

  /** Differences around a closed loop telescope to zero. */
  lemma LoopDiffsSum(v: seq<real>)
    requires |v| >= 1
    ensures SumR(LoopDiffs(v)) == 0.0
  {
    LoopDiffsPrefix(v, |v|);
    assert LoopDiffs(v)[..|v|] == LoopDiffs(v);
  }

  /** Termwise c * v[i]. */
  function Times(v: seq<real>, c: real): (r: seq<real>)
    ensures |r| == |v| && forall i {:trigger r[i]} :: 0 <= i < |v| ==> r[i] == c * v[i]
  {
    seq(|v|, i requires 0 <= i < |v| => c * v[i])
  }

  lemma Cross2Offset(a: Point2, b: Point2, dx: real, dy: real)
    ensures Cross2(Point2(a.x + dx, a.y + dy), Point2(b.x + dx, b.y + dy))
      == (Cross2(a, b) + (dx * b.y - dx * a.y)) + (-dy * b.x - -dy * a.x)
  {
  }

  /** Each shoelace term of a translated loop is the original term plus the
      loop differences of the scaled coordinates. */
  lemma EdgesOffset(l: seq<Point2>, dx: real, dy: real)
    requires |l| >= 1
    ensures forall i :: 0 <= i < |l| ==>
      Edges(Offset(l, dx, dy))[i] == (Edges(l)[i] + LoopDiffs(Times(Ys(l), dx))[i]) + LoopDiffs(Times(Xs(l), -dy))[i]
  {
    var r := Offset(l, dx, dy);
    forall i | 0 <= i < |l|
      ensures Edges(r)[i] == (Edges(l)[i] + LoopDiffs(Times(Ys(l), dx))[i]) + LoopDiffs(Times(Xs(l), -dy))[i]
    {
      var j := Prev(|l|, i);
      EdgeAt(l, i);
      EdgeAt(r, i);
      Cross2Offset(l[j], l[i], dx, dy);
    }
  }

  /** The sum of termwise e + u + w. */
  lemma {:induction false} SumPlusTwo(e: seq<real>, u: seq<real>, w: seq<real>, er: seq<real>)
    requires |e| == |u| == |w| == |er|
    requires forall i :: 0 <= i < |er| ==> er[i] == (e[i] + u[i]) + w[i]
    ensures SumR(er) == (SumR(e) + SumR(u)) + SumR(w)
    decreases |er|
  {
    if |er| > 0 {
      var n := |er| - 1;
      SumPlusTwo(e[..n], u[..n], w[..n], er[..n]);
    }
  }

  /** Loop.offset leaves the signed area unchanged. */
  lemma AreaOffset(l: seq<Point2>, dx: real, dy: real)
    requires |l| >= 1
    ensures AreaOf(Offset(l, dx, dy)) == AreaOf(l)
  {
    EdgesOffset(l, dx, dy);
    LoopDiffsSum(Times(Ys(l), dx));
    LoopDiffsSum(Times(Xs(l), -dy));
    SumPlusTwo(Edges(l), LoopDiffs(Times(Ys(l), dx)), LoopDiffs(Times(Xs(l), -dy)), Edges(Offset(l, dx, dy)));
  }

  /** Shoelace terms that keep the first term and take the others in reverse
      order. */
  lemma EdgesFlipped(e: seq<real>, er: seq<real>)
    requires |e| >= 1 && |er| == |e|
    requires er[0] == e[0]
    requires forall i :: 1 <= i < |er| ==> er[i] == e[|e| - i]
    ensures er == [e[0]] + Reverse(e[1..])
  {
    var want := [e[0]] + Reverse(e[1..]);
    forall i | 1 <= i < |e|
      ensures er[i] == want[i]
    {
      assert want[i] == Reverse(e[1..])[i - 1] == e[1..][|e| - 1 - i];
    }
  }

  /** Edge terms in the order [e0] + reverse(rest) sum like the original. */
  lemma SumFlippedEdges(e: seq<real>)
    requires |e| >= 1
    ensures SumR([e[0]] + Reverse(e[1..])) == SumR(e)
  {
    SumAppend([e[0]], Reverse(e[1..]));
    SumAppend([e[0]], e[1..]);
    SumReverse(e[1..]);
    assert [e[0]] + e[1..] == e;
  }

  /** flip_x mirrors and reverses the points, so the signed area is preserved. */
  lemma AreaFlipX(l: seq<Point2>)
    requires |l| >= 1
    ensures AreaOf(FlipX(l)) == AreaOf(l)
  {
    var n := |l|;
    var e, er := Edges(l), Edges(FlipX(l));
    EdgeAt(l, 0);
    EdgeAt(FlipX(l), 0);
    forall i | 1 <= i < n
      ensures er[i] == e[n - i]
    {
      EdgeAt(l, n - i);
      EdgeAt(FlipX(l), i);
    }
    EdgesFlipped(e, er);
    SumFlippedEdges(e);
  }

  /** flip_y mirrors and reverses the points, so the signed area is preserved. */
  lemma AreaFlipY(l: seq<Point2>)
    requires |l| >= 1
    ensures AreaOf(FlipY(l)) == AreaOf(l)
  {
    var n := |l|;
    var e, er := Edges(l), Edges(FlipY(l));
    EdgeAt(l, 0);
    EdgeAt(FlipY(l), 0);
    forall i | 1 <= i < n
      ensures er[i] == e[n - i]
    {
      EdgeAt(l, n - i);
      EdgeAt(FlipY(l), i);
    }
    EdgesFlipped(e, er);
    SumFlippedEdges(e);
  }

  /** Limits that enclose a loop, translated, enclose the translated loop. */
  lemma EnclosesOffset(l: seq<Point2>, e: Limits2, dx: real, dy: real)
    requires Encloses(l, e)
    ensures Encloses(Offset(l, dx, dy), Limits2(e.xMin + dx, e.xMax + dx, e.yMin + dy, e.yMax + dy))
  {
    var r := Offset(l, dx, dy);
    var i0 :| 0 <= i0 < |l| && l[i0].x == e.xMin;
    var i1 :| 0 <= i1 < |l| && l[i1].x == e.xMax;
    var i2 :| 0 <= i2 < |l| && l[i2].y == e.yMin;
    var i3 :| 0 <= i3 < |l| && l[i3].y == e.yMax;
    assert r[i0].x == e.xMin + dx && r[i1].x == e.xMax + dx;
    assert r[i2].y == e.yMin + dy && r[i3].y == e.yMax + dy;
  }

  /** Translating a loop translates its extent. */
  lemma ExtentOffset(l: seq<Point2>, dx: real, dy: real)
    requires |l| >= 1
    ensures Extent(Offset(l, dx, dy)) == Limits2(Extent(l).xMin + dx, Extent(l).xMax + dx, Extent(l).yMin + dy, Extent(l).yMax + dy)
  {
    var e := Extent(l);
    ExtentEncloses(l);
    EnclosesOffset(l, e, dx, dy);
    EnclosesUnique(Offset(l, dx, dy), Limits2(e.xMin + dx, e.xMax + dx, e.yMin + dy, e.yMax + dy));
  }

  // square, rectangle

  /** rectangle(x0, x1, y0, y1): the four corners, counter-clockwise when
      x0 < x1 and y0 < y1. */
  function Rectangle(x0: real, x1: real, y0: real, y1: real): seq<Point2>
  {
    [Point2(x0, y0), Point2(x1, y0), Point2(x1, y1), Point2(x0, y1)]
  }

  /** square(size): corners at +-size. */
  function Square(size: real): seq<Point2>
  {
    [Point2(size, size), Point2(-size, size), Point2(-size, -size), Point2(size, -size)]
  }

  lemma SumFour(s: seq<real>)
    requires |s| == 4
    ensures SumR(s) == s[0] + s[1] + s[2] + s[3]
  {
    SumPrefixStep(s, 0);
    SumPrefixStep(s, 1);
    SumPrefixStep(s, 2);
    SumPrefixStep(s, 3);
    assert s[..0] == [] && s[..4] == s;
  }

  /** The rectangle's signed area is (x1 - x0)(y1 - y0): positive exactly when
      the corners run counter-clockwise. */
  lemma RectangleArea(x0: real, x1: real, y0: real, y1: real)
    ensures AreaOf(Rectangle(x0, x1, y0, y1)) == (x1 - x0) * (y1 - y0)
  {
    var l := Rectangle(x0, x1, y0, y1);
    var e := Edges(l);
    EdgeAt(l, 0);
    EdgeAt(l, 1);
    EdgeAt(l, 2);
    EdgeAt(l, 3);
    SumFour(e);
    assert e[0] == x0 * y0 - y1 * x0 && e[1] == x0 * y0 - y0 * x1;
    assert e[2] == x1 * y1 - y0 * x1 && e[3] == x1 * y1 - y1 * x0;
  }

  /** square(s) is the rectangle from (s, s) to (-s, -s), of area 4 s^2. */
  lemma SquareArea(size: real)
    ensures Square(size) == Rectangle(size, -size, size, -size)
    ensures AreaOf(Square(size)) == 4.0 * size * size
  {
    RectangleArea(size, -size, size, -size);
  }

  // extrusion

  /** A 2-D point lifted to height z. */
  function Lift(p: Point2, z: real): Cgal.Point3
  {
    (p.x, p.y, z)
  }

  /** Index of point j of ring i when every ring has n points. */
  function At(n: nat, i: nat, j: nat): nat
  {
    i * n + j
  }

  /** The index after i around a ring of n points, (i + 1) % n. */
  function Next(n: nat, i: nat): (r: nat)
    requires i < n
    ensures r < n && r == (if i + 1 == n then 0 else i + 1)
  {
    (i + 1) % n
  }

  lemma AtNext(n: nat, i: nat)
    ensures At(n, i + 1, 0) == At(n, i, 0) + n
  {
  }

  /** Ring i lies below ring k, and inside the first m rings, when i < k <= m. */
  lemma AtBelow(n: nat, i: nat, j: nat, k: nat, m: nat)
    requires i < k <= m && j < n
    ensures At(n, i, j) < At(n, k, 0) <= At(n, m, 0)
  {
    var d, e := k - i, m - k;
    MulNonnegInt(d - 1, n);
    MulNonnegInt(e, n);
    assert k * n == i * n + (d - 1) * n + n;
    assert m * n == k * n + e * n;
  }

  lemma MulNonnegInt(a: int, b: int)
    requires a >= 0 && b >= 0
    ensures a * b >= 0
  {
  }

  predicate FaceIn(t: Cgal.Tri, n: nat)
  {
    t.0 < n && t.1 < n && t.2 < n
  }

  predicate Distinct3(t: Cgal.Tri)
  {
    t.0 != t.1 && t.1 != t.2 && t.0 != t.2
  }

  /** Every face of the list indexes below n, and has three distinct corners
      when the rings have at least two points. */
  ghost predicate FacesOk(faces: seq<Cgal.Tri>, n: nat, nshape: nat)
  {
    forall k :: 0 <= k < |faces| ==> FaceIn(faces[k], n) && (nshape >= 2 ==> Distinct3(faces[k]))
  }

  /** The two triangles of the quad between point j of ring i and the next
      point around ring i + 1. */
  lemma SideFacesOk(n: nat, i: nat, j: nat, nz: nat)
    requires i + 1 < nz && j < n
    ensures FaceIn((At(n, i + 1, j), At(n, i, j), At(n, i, Next(n, j))), At(n, nz, 0))
    ensures FaceIn((At(n, i + 1, j), At(n, i, Next(n, j)), At(n, i + 1, Next(n, j))), At(n, nz, 0))
    ensures n >= 2 ==> Distinct3((At(n, i + 1, j), At(n, i, j), At(n, i, Next(n, j))))
    ensures n >= 2 ==> Distinct3((At(n, i + 1, j), At(n, i, Next(n, j)), At(n, i + 1, Next(n, j))))
  {
    var j1 := Next(n, j);
    AtBelow(n, i, j, i + 1, nz);
    AtBelow(n, i, j1, i + 1, nz);
    AtBelow(n, i + 1, j, nz, nz);
    AtBelow(n, i + 1, j1, nz, nz);
    assert At(n, i + 1, 0) <= At(n, i + 1, j);
    assert n >= 2 ==> j1 != j;
  }

  /** The two fan triangles of point i of the first and last rings, the last
      ring starting at index last. */
  lemma CapFacesOk(n: nat, i: nat, nz: nat, last: nat)
    requires 1 <= nz && i < n && last == n * (nz - 1)
    ensures FaceIn((Next(n, i), i, At(n, nz, 0)), At(n, nz, 0) + 2)
    ensures FaceIn((i + last, Next(n, i) + last, At(n, nz, 0) + 1), At(n, nz, 0) + 2)
    ensures n >= 2 ==> Distinct3((Next(n, i), i, At(n, nz, 0)))
    ensures n >= 2 ==> Distinct3((i + last, Next(n, i) + last, At(n, nz, 0) + 1))
  {
    var i1 := Next(n, i);
    assert last == At(n, nz - 1, 0);
    AtBelow(n, nz - 1, i, nz, nz);
    AtBelow(n, nz - 1, i1, nz, nz);
    AtBelow(n, 0, i, nz, nz);
    AtBelow(n, 0, i1, nz, nz);
  }

  /** The vertex list of extrusion(zs, shapes): ring i is shapes[i] lifted to
      zs[i], stored at At(nshape, i, j); the two end centroids follow. */
  method ExtrusionVerts(zs: seq<real>, shapes: seq<seq<Point2>>, centroid0: Point2, centroid1: Point2)
    returns (verts: seq<Cgal.Point3>)
    requires 1 <= |zs| <= |shapes|
    requires forall i :: 0 <= i < |zs| ==> |shapes[i]| == |shapes[0]|
    ensures |verts| == At(|shapes[0]|, |zs|, 0) + 2
    ensures forall i, j {:trigger At(|shapes[0]|, i, j)} :: 0 <= i < |zs| && 0 <= j < |shapes[0]| ==>
      At(|shapes[0]|, i, j) < |verts| - 2 && verts[At(|shapes[0]|, i, j)] == Lift(shapes[i][j], zs[i])
    ensures verts[|verts| - 2] == Lift(centroid0, zs[0])
    ensures verts[|verts| - 1] == Lift(centroid1, zs[|zs| - 1])
  {
    var nz := |zs|;
    var nshape := |shapes[0]|;
    verts := [];
    for i := 0 to nz
      invariant |verts| == At(nshape, i, 0)
      invariant forall a, b {:trigger At(nshape, a, b)} :: 0 <= a < i && 0 <= b < nshape ==>
        At(nshape, a, b) < |verts| && verts[At(nshape, a, b)] == Lift(shapes[a][b], zs[a])
    {
      ghost var before := verts;
      for j := 0 to nshape
        invariant |verts| == At(nshape, i, j)
        invariant verts[..|before|] == before
        invariant forall b :: 0 <= b < j ==> verts[At(nshape, i, b)] == Lift(shapes[i][b], zs[i])
      {
        verts := verts + [Lift(shapes[i][j], zs[i])];
      }
      AtNext(nshape, i);
      forall a, b | 0 <= a < i + 1 && 0 <= b < nshape
        ensures At(nshape, a, b) < |verts| && verts[At(nshape, a, b)] == Lift(shapes[a][b], zs[a])
      {
        if a < i {
          AtBelow(nshape, a, b, i, i);
          assert verts[At(nshape, a, b)] == before[At(nshape, a, b)];
        }
      }
    }
    verts := verts + [Lift(centroid0, zs[0])];
    verts := verts + [Lift(centroid1, zs[nz - 1])];
  }

  /** The side faces of extrusion for nz rings of nshape points: two
      triangles per quad between consecutive rings, all on ring vertices. */
  method ExtrusionSides(nz: nat, nshape: nat) returns (faces: seq<Cgal.Tri>)
    requires 1 <= nz
    ensures |faces| == 2 * At(nshape, nz - 1, 0)
    ensures FacesOk(faces, At(nshape, nz, 0), nshape)
  {
    faces := [];
    for i := 0 to nz - 1
      invariant |faces| == 2 * At(nshape, i, 0)
      invariant FacesOk(faces, At(nshape, nz, 0), nshape)
    {
      for j := 0 to nshape
        invariant |faces| == 2 * At(nshape, i, j)
        invariant FacesOk(faces, At(nshape, nz, 0), nshape)
      {
        SideFacesOk(nshape, i, j, nz);
        faces := faces + [(At(nshape, i + 1, j), At(nshape, i, j), At(nshape, i, Next(nshape, j)))];
        faces := faces + [(At(nshape, i + 1, j), At(nshape, i, Next(nshape, j)), At(nshape, i + 1, Next(nshape, j)))];
      }
      AtNext(nshape, i);
    }
  }

  /** The end faces of extrusion: for each point of the first ring a triangle
      with the first centroid end0, and for each point of the last ring one
      with the second centroid end0 + 1, where end0 = At(nshape, nz, 0). */
  method ExtrusionEnds(nz: nat, nshape: nat) returns (faces: seq<Cgal.Tri>)
    requires 1 <= nz
    ensures EndsOk(faces, At(nshape, nz, 0), nshape, nshape)
  {
    var end0 := At(nshape, nz, 0);
    var end1 := end0 + 1;
    var last := nshape * (nz - 1);
    faces := [];
    for i := 0 to nshape
      invariant EndsOk(faces, end0, nshape, i)
    {
      var i1 := Next(nshape, i);
      EndsStep(faces, nz, nshape, i, last);
      faces := faces + [(i1, i, end0), (i + last, i1 + last, end1)];
    }
  }

  /** The end faces so far: two per ring point, indexing below end0 + 2, the
      third corner of each being a centroid. */
  ghost predicate EndsOk(faces: seq<Cgal.Tri>, end0: nat, nshape: nat, i: nat)
  {
    && |faces| == 2 * i
    && FacesOk(faces, end0 + 2, nshape)
    && forall k :: 0 <= k < |faces| ==> faces[k].2 >= end0
  }

  lemma EndsStep(faces: seq<Cgal.Tri>, nz: nat, nshape: nat, i: nat, last: nat)
    requires 1 <= nz && i < nshape && last == nshape * (nz - 1)
    requires EndsOk(faces, At(nshape, nz, 0), nshape, i)
    ensures EndsOk(faces + [(Next(nshape, i), i, At(nshape, nz, 0)), (i + last, Next(nshape, i) + last, At(nshape, nz, 0) + 1)],
      At(nshape, nz, 0), nshape, i + 1)
  {
    var end0 := At(nshape, nz, 0);
    var low, high := (Next(nshape, i), i, end0), (i + last, Next(nshape, i) + last, end0 + 1);
    CapFacesOk(nshape, i, nz, last);
    FacesOkAppend(faces, [low, high], end0 + 2, nshape);
    var r := faces + [low, high];
    assert r[|faces|] == low && r[|faces| + 1] == high;
    forall k | 0 <= k < |r|
      ensures r[k].2 >= end0
    {
      if k < |faces| {
        assert r[k] == faces[k];
      }
    }
  }

  /** A face list that indexes below a smaller bound also does below a larger one. */
  lemma FacesOkWeaken(faces: seq<Cgal.Tri>, n: nat, m: nat, nshape: nat)
    requires FacesOk(faces, n, nshape) && n <= m
    ensures FacesOk(faces, m, nshape)
  {
  }

  lemma FacesOkAppend(a: seq<Cgal.Tri>, b: seq<Cgal.Tri>, n: nat, nshape: nat)
    requires FacesOk(a, n, nshape) && FacesOk(b, n, nshape)
    ensures FacesOk(a + b, n, nshape)
  {
    forall k | 0 <= k < |a + b|
      ensures FaceIn((a + b)[k], n) && (nshape >= 2 ==> Distinct3((a + b)[k]))
    {
      if k >= |a| {
        assert (a + b)[k] == b[k - |a|];
      }
    }
  }

  /** extrusion(zs, shapes): nz * nshape + 2 vertices and 2 * nshape * nz
      triangles, every index below the vertex count. The centroids of the
      first and last shapes are passed in. */
  method Extrusion(zs: seq<real>, shapes: seq<seq<Point2>>, centroid0: Point2, centroid1: Point2)
    returns (verts: seq<Cgal.Point3>, faces: seq<Cgal.Tri>)
    requires 1 <= |zs| <= |shapes|
    requires forall i :: 0 <= i < |zs| ==> |shapes[i]| == |shapes[0]|
    ensures |verts| == |zs| * |shapes[0]| + 2
    ensures |faces| == 2 * |shapes[0]| * |zs|
    ensures FacesOk(faces, |verts|, |shapes[0]|)
  {
    var nz, nshape := |zs|, |shapes[0]|;
    verts := ExtrusionVerts(zs, shapes, centroid0, centroid1);
    var sides := ExtrusionSides(nz, nshape);
    var ends := ExtrusionEnds(nz, nshape);
    assert |ends| == 2 * nshape && FacesOk(ends, At(nshape, nz, 0) + 2, nshape);
    faces := sides + ends;
    FacesOkWeaken(sides, At(nshape, nz, 0), |verts|, nshape);
    FacesOkAppend(sides, ends, |verts|, nshape);
    AtNext(nshape, nz - 1);
  }

  // block

  /** Bit c (1, 2 or 4) of vertex index v: which end of the y, x or z range
      the vertex sits at. */
  function Bit(v: nat, c: nat): nat
    requires c > 0
  {
    (v / c) % 2
  }

  /** All three corners share bit c with value h: the triangle lies on one
      side of the box. */
  predicate OnSide(t: Cgal.Tri, c: nat, h: nat)
    requires c > 0
  {
    Bit(t.0, c) == h && Bit(t.1, c) == h && Bit(t.2, c) == h
  }

  /** The side of the box each face of block lies on, as (bit, value): the
      two z sides, then the two x sides, then the two y sides, two triangles
      each. */
  const BoxSides: seq<(nat, nat)> := [(4, 0), (4, 0), (4, 1), (4, 1), (2, 0), (2, 0), (2, 1), (2, 1), (1, 0), (1, 0), (1, 1), (1, 1)]

  /** Face k of block: corners among the eight vertices, distinct, and all
      on side BoxSides[k]. */
  predicate BoxFace(t: Cgal.Tri, k: nat)
    requires k < 12
  {
    FaceIn(t, 8) && Distinct3(t) && BoxSides[k].0 > 0 && OnSide(t, BoxSides[k].0, BoxSides[k].1)
  }

  ghost predicate BlockFacesOk(faces: seq<Cgal.Tri>, q: nat)
  {
    && q <= 3
    && |faces| == 4 * q
    && forall k :: 0 <= k < |faces| ==> BoxFace(faces[k], k)
  }

  /** quad(a, b, c, d): the triangles (a, b, c) and (a, c, d). */
  function Quad(a: nat, b: nat, c: nat, d: nat): seq<Cgal.Tri>
  {
    [(a, b, c), (a, c, d)]
  }

  /** The four triangles of the q-th pair of quads lie on their sides. */
  lemma QuadFaces(q: nat, added: seq<Cgal.Tri>)
    requires q < 3
    requires added == [
      [(0, 1, 3), (0, 3, 2), (6, 7, 5), (6, 5, 4)],
      [(0, 4, 5), (0, 5, 1), (3, 7, 6), (3, 6, 2)],
      [(0, 2, 6), (0, 6, 4), (5, 7, 3), (5, 3, 1)]][q]
    ensures forall m :: 0 <= m < 4 ==> BoxFace(added[m], 4 * q + m)
  {
    if q == 0 {
      assert BoxFace(added[0], 0) && BoxFace(added[1], 1) && BoxFace(added[2], 2) && BoxFace(added[3], 3);
    } else if q == 1 {
      assert BoxFace(added[0], 4) && BoxFace(added[1], 5) && BoxFace(added[2], 6) && BoxFace(added[3], 7);
    } else {
      assert BoxFace(added[0], 8) && BoxFace(added[1], 9) && BoxFace(added[2], 10) && BoxFace(added[3], 11);
    }
  }

  lemma BlockStep(faces: seq<Cgal.Tri>, q: nat, a: nat, b: nat, c: nat)
    requires q < 3 && (a, b, c) == [(1, 2, 4), (4, 1, 2), (2, 4, 1)][q]
    requires BlockFacesOk(faces, q)
    ensures BlockFacesOk(faces + Quad(0, a, a + b, b) + Quad(c + b, c + a + b, c + a, c + 0), q + 1)
  {
    var added := Quad(0, a, a + b, b) + Quad(c + b, c + a + b, c + a, c + 0);
    QuadFaces(q, added);
    var r := faces + added;
    assert r == faces + Quad(0, a, a + b, b) + Quad(c + b, c + a + b, c + a, c + 0);
    forall k | 0 <= k < |r|
      ensures BoxFace(r[k], k)
    {
      if k < |faces| {
        assert r[k] == faces[k];
      } else {
        assert r[k] == added[k - 4 * q];
      }
    }
  }

  /** block(x1, x2, y1, y2, z1, z2, ramp): the eight corners of a box, the top
      four pushed out by ramp, and twelve triangles, two on each side. */
  method Block(x1: real, x2: real, y1: real, y2: real, z1: real, z2: real, ramp: real)
    returns (verts: seq<Cgal.Point3>, faces: seq<Cgal.Tri>)
    ensures |verts| == 8
    ensures forall v :: 0 <= v < 8 ==>
      verts[v] == (
        if Bit(v, 2) == 0 then (if v < 4 then x1 else x1 - ramp) else (if v < 4 then x2 else x2 + ramp),
        if Bit(v, 1) == 0 then (if v < 4 then y1 else y1 - ramp) else (if v < 4 then y2 else y2 + ramp),
        if v < 4 then z1 else z2)
    ensures BlockFacesOk(faces, 3)
  {
    verts := [];
    var bottomX, bottomY := [x1, x2], [y1, y2];
    for i := 0 to 2
      invariant |verts| == 2 * i
      invariant forall v :: 0 <= v < |verts| ==> verts[v] == (bottomX[v / 2], bottomY[v % 2], z1)
    {
      for j := 0 to 2
        invariant |verts| == 2 * i + j
        invariant forall v :: 0 <= v < |verts| ==> verts[v] == (bottomX[v / 2], bottomY[v % 2], z1)
      {
        verts := verts + [(bottomX[i], bottomY[j], z1)];
      }
    }
    var topX, topY := [x1 - ramp, x2 + ramp], [y1 - ramp, y2 + ramp];
    for i := 0 to 2
      invariant |verts| == 4 + 2 * i
      invariant forall v :: 0 <= v < 4 ==> verts[v] == (bottomX[v / 2], bottomY[v % 2], z1)
      invariant forall v :: 4 <= v < |verts| ==> verts[v] == (topX[(v - 4) / 2], topY[v % 2], z2)
    {
      for j := 0 to 2
        invariant |verts| == 4 + 2 * i + j
        invariant forall v :: 0 <= v < 4 ==> verts[v] == (bottomX[v / 2], bottomY[v % 2], z1)
        invariant forall v :: 4 <= v < |verts| ==> verts[v] == (topX[(v - 4) / 2], topY[v % 2], z2)
      {
        verts := verts + [(topX[i], topY[j], z2)];
      }
    }

    faces := [];
    var triples := [(1, 2, 4), (4, 1, 2), (2, 4, 1)];
    for q := 0 to 3
      invariant BlockFacesOk(faces, q)
    {
      var (a, b, c) := triples[q];
      BlockStep(faces, q, a, b, c);
      faces := faces + Quad(0, a, a + b, b);
      faces := faces + Quad(c + b, c + a + b, c + a, c + 0);
    }
  }

  // extrude_profile

  /** x placed into a strictly increasing list that may already hold it. */
  function Insert(s: seq<real>, x: real): (r: seq<real>)
    requires StrictlySorted(s)
    ensures StrictlySorted(r)
    ensures forall y :: y in r <==> y in s || y == x
    decreases |s|
  {
    if |s| == 0 then [x]
    else if x == s[0] then s
    else if x < s[0] then ConsSorted(x, s); [x] + s
    else
      var rest := Insert(s[1..], x);
      ConsSorted(s[0], rest);
      [s[0]] + rest
  }

  /** A value below every element of a strictly increasing list extends it. */
  lemma ConsSorted(x: real, s: seq<real>)
    requires StrictlySorted(s) && forall y :: y in s ==> x < y
    ensures StrictlySorted([x] + s)
  {
    var r := [x] + s;
    forall i, j | 0 <= i < j < |r|
      ensures r[i] < r[j]
    {
      assert r[j] == s[j - 1] && s[j - 1] in s;
      if i > 0 {
        assert r[i] == s[i - 1];
      }
    }
  }

  /** The breakpoints of all the profiles, as a set that is then sorted. */
  method SortedPositions(profiles: seq<Profiles.Profile>) returns (pos: seq<real>)
    ensures StrictlySorted(pos)
    ensures forall x :: x in pos <==> exists k :: 0 <= k < |profiles| && x in profiles[k].pos
  {
    pos := [];
    for k := 0 to |profiles|
      invariant StrictlySorted(pos)
      invariant forall x :: x in pos <==> exists k' :: 0 <= k' < k && x in profiles[k'].pos
    {
      var item := profiles[k].pos;
      for j := 0 to |item|
        invariant StrictlySorted(pos)
        invariant forall x :: x in pos <==> (exists k' :: 0 <= k' < k && x in profiles[k'].pos) || x in item[..j]
      {
        pos := Insert(pos, item[j]);
        assert item[..j + 1] == item[..j] + [item[j]];
      }
      assert item[..|item|] == item;
    }
  }

  predicate AllWellFormed(profiles: seq<Profiles.Profile>)
  {
    forall k :: 0 <= k < |profiles| ==> Profiles.WellFormed(profiles[k])
  }

  /** The diameters of all the profiles at z, approached from below. */
  function Lows(profiles: seq<Profiles.Profile>, z: real): (r: seq<real>)
    requires AllWellFormed(profiles)
    ensures |r| == |profiles|
  {
    seq(|profiles|, k requires 0 <= k < |profiles| => Profiles.Eval(profiles[k], z, false))
  }

  /** The diameters of all the profiles at z, leaving above. */
  function Highs(profiles: seq<Profiles.Profile>, z: real): (r: seq<real>)
    requires AllWellFormed(profiles)
    ensures |r| == |profiles|
  {
    seq(|profiles|, k requires 0 <= k < |profiles| => Profiles.Eval(profiles[k], z, true))
  }

  /** Position i gets a second cross-section: it is interior and some profile
      jumps there. */
  predicate Doubled(profiles: seq<Profiles.Profile>, pos: seq<real>, i: nat)
    requires AllWellFormed(profiles) && i < |pos|
  {
    0 < i < |pos| - 1 && Lows(profiles, pos[i]) != Highs(profiles, pos[i])
  }

  /** The z values extrude_profile emits for the first n positions. */
  function ZsUpTo(profiles: seq<Profiles.Profile>, pos: seq<real>, n: nat): (r: seq<real>)
    requires AllWellFormed(profiles) && n <= |pos|
  {
    if n == 0 then []
    else ZsUpTo(profiles, pos, n - 1) + (if Doubled(profiles, pos, n - 1) then [pos[n - 1], pos[n - 1]] else [pos[n - 1]])
  }

  /** The diameter lists handed to cross_section for the first n positions:
      the first position leaving above; every later one approached from
      below, followed by leaving above where Doubled. */
  function SectionsUpTo(profiles: seq<Profiles.Profile>, pos: seq<real>, n: nat): (r: seq<seq<real>>)
    requires AllWellFormed(profiles) && n <= |pos|
  {
    if n == 0 then []
    else
      var i, z := n - 1, pos[n - 1];
      SectionsUpTo(profiles, pos, i)
      + (if i > 0 then [Lows(profiles, z)] else [])
      + (if i == 0 || Doubled(profiles, pos, i) then [Highs(profiles, z)] else [])
  }

  /** extrude_profile: the z list and the diameters of each cross-section
      passed on to extrusion (cross_section and extrusion themselves are
      applied to this output). */
  method ExtrudeProfile(profiles: seq<Profiles.Profile>)
    returns (pos: seq<real>, zs: seq<real>, sections: seq<seq<real>>)
    requires AllWellFormed(profiles)
    ensures StrictlySorted(pos)
    ensures forall x :: x in pos <==> exists k :: 0 <= k < |profiles| && x in profiles[k].pos
    ensures zs == ZsUpTo(profiles, pos, |pos|)
    ensures sections == SectionsUpTo(profiles, pos, |pos|)
    ensures |sections| == |zs| && Sorted(zs)
    ensures forall i :: 0 <= i < |pos| ==> multiset(zs)[pos[i]] == (if Doubled(profiles, pos, i) then 2 else 1)
  {
    pos := SortedPositions(profiles);
    zs, sections := [], [];
    for i := 0 to |pos|
      invariant zs == ZsUpTo(profiles, pos, i)
      invariant sections == SectionsUpTo(profiles, pos, i)
    {
      var z := pos[i];
      var lows := seq(|profiles|, k requires 0 <= k < |profiles| => Profiles.Eval(profiles[k], z, false));
      var highs := seq(|profiles|, k requires 0 <= k < |profiles| => Profiles.Eval(profiles[k], z, true));
      assert lows == Lows(profiles, z) && highs == Highs(profiles, z);
      if i > 0 {
        zs := zs + [z];
        sections := sections + [lows];
      }
      if i == 0 || (i < |pos| - 1 && lows != highs) {
        zs := zs + [z];
        sections := sections + [highs];
      }
    }
    SectionsMatchZs(profiles, pos, |pos|);
    ZsUpToSorted(profiles, pos, |pos|);
    forall i | 0 <= i < |pos|
      ensures multiset(zs)[pos[i]] == (if Doubled(profiles, pos, i) then 2 else 1)
    {
      ZsUpToCount(profiles, pos, |pos|, i);
    }
  }

  /** Every emitted z is one of the first n positions, so at most pos[n - 1]. */
  lemma {:induction false} ZsUpToBounded(profiles: seq<Profiles.Profile>, pos: seq<real>, n: nat)
    requires AllWellFormed(profiles) && n <= |pos| && StrictlySorted(pos)
    ensures forall k :: 0 <= k < |ZsUpTo(profiles, pos, n)| ==> exists j :: 0 <= j < n && ZsUpTo(profiles, pos, n)[k] == pos[j]
  {
    if n > 0 {
      ZsUpToBounded(profiles, pos, n - 1);
      var a := ZsUpTo(profiles, pos, n - 1);
      var r := ZsUpTo(profiles, pos, n);
      forall k | 0 <= k < |r|
        ensures exists j :: 0 <= j < n && r[k] == pos[j]
      {
        if k < |a| {
          var j :| 0 <= j < n - 1 && a[k] == pos[j];
          assert r[k] == pos[j];
        } else {
          assert r[k] == pos[n - 1];
        }
      }
    } else {
      assert ZsUpTo(profiles, pos, n) == [];
    }
  }

  /** The z list is non-decreasing. */
  lemma {:induction false} ZsUpToSorted(profiles: seq<Profiles.Profile>, pos: seq<real>, n: nat)
    requires AllWellFormed(profiles) && n <= |pos| && StrictlySorted(pos)
    ensures Sorted(ZsUpTo(profiles, pos, n))
  {
    if n > 0 {
      ZsUpToSorted(profiles, pos, n - 1);
      ZsUpToBounded(profiles, pos, n - 1);
      var a := ZsUpTo(profiles, pos, n - 1);
      var r := ZsUpTo(profiles, pos, n);
      forall k, m | 0 <= k < m < |r|
        ensures r[k] <= r[m]
      {
        if m >= |a| {
          assert r[m] == pos[n - 1];
          if k < |a| {
            assert r[k] == a[k];
            var j :| 0 <= j < n - 1 && a[k] == pos[j];
          }
        } else {
          assert r[k] == a[k] && r[m] == a[m];
        }
      }
    }
  }

  /** How often position i appears among the emitted z values: twice where
      Doubled, once otherwise (the first and last positions once). */
  lemma {:induction false} ZsUpToCount(profiles: seq<Profiles.Profile>, pos: seq<real>, n: nat, i: nat)
    requires AllWellFormed(profiles) && n <= |pos| && StrictlySorted(pos) && i < |pos|
    ensures multiset(ZsUpTo(profiles, pos, n))[pos[i]] == (if i >= n then 0 else if Doubled(profiles, pos, i) then 2 else 1)
  {
    if n > 0 {
      ZsUpToCount(profiles, pos, n - 1, i);
      var a := ZsUpTo(profiles, pos, n - 1);
      var tail := if Doubled(profiles, pos, n - 1) then [pos[n - 1], pos[n - 1]] else [pos[n - 1]];
      assert ZsUpTo(profiles, pos, n) == a + tail;
      assert multiset(a + tail) == multiset(a) + multiset(tail);
      if i != n - 1 {
        assert pos[i] != pos[n - 1];
      }
    }
  }

  /** Both lists have one entry per cross-section. */
  lemma {:induction false} SectionsMatchZs(profiles: seq<Profiles.Profile>, pos: seq<real>, n: nat)
    requires AllWellFormed(profiles) && n <= |pos|
    ensures |SectionsUpTo(profiles, pos, n)| == |ZsUpTo(profiles, pos, n)|
  {
    if n > 0 {
      SectionsMatchZs(profiles, pos, n - 1);
    }
  }
}
