// Integer toolpath geometry of mill/path.py: rasterised lines and discs, the
// morphological dilate/erode of a boolean mask, and the Miller that turns
// contours into a path of (point, fast) moves. Positions are in units of
// 1/res mm; the numpy masks are rectangular grids of booleans.

module MillPath {
  import opened Common

  type Point2 = (int, int)
  type Point3 = (int, int, int)

  // ---------------------------------------------------------------------
  // line_points2

  /** The number of steps of a line: the larger of the two axis deltas. */
  function Steps(x1: int, y1: int, x2: int, y2: int): (r: nat)
    ensures r >= IAbs(x2 - x1) && r >= IAbs(y2 - y1)
    ensures r == IAbs(x2 - x1) || r == IAbs(y2 - y1)
  {
    if IAbs(x2 - x1) >= IAbs(y2 - y1) then IAbs(x2 - x1) else IAbs(y2 - y1)
  }

  /** One coordinate of step i of a line: the start plus the delta scaled by
      i/steps, rounded half up with floor division. */
  function Along(start: int, d: int, steps: nat, i: int): int
    requires steps > 0
  {
    start + (d * i + steps / 2) / steps
  }

  function LinePoint(x1: int, y1: int, x2: int, y2: int, i: int): Point2
    requires Steps(x1, y1, x2, y2) > 0
  {
    var s := Steps(x1, y1, x2, y2);
    (Along(x1, x2 - x1, s, i), Along(y1, y2 - y1, s, i))
  }

  /** The points of line_points2, from (x1, y1) to (x2, y2). */
  function Line(x1: int, y1: int, x2: int, y2: int): (r: seq<Point2>)
    ensures |r| == Steps(x1, y1, x2, y2) + 1
  {
    var s := Steps(x1, y1, x2, y2);
    if s == 0 then [(x1, y1)]
    else seq(s + 1, i requires 0 <= i <= s => LinePoint(x1, y1, x2, y2, i))
  }

  /** (q*s + h) // s == q when 0 <= h < s. */
  lemma DivExact(q: int, h: int, s: int)
    requires s > 0 && 0 <= h < s
    ensures (q * s + h) / s == q
  {
    var a := q * s + h;
    assert a == (a / s) * s + a % s;
    var k := a / s - q;
    assert k * s == h - a % s;
  }

  /** Adding a delta of at most one divisor moves the floor quotient by at
      most one, in the direction of the delta. */
  lemma DivStep(a: int, d: int, s: int)
    requires s > 0 && -s <= d <= s
    ensures d >= 0 ==> 0 <= (a + d) / s - a / s <= 1
    ensures d <= 0 ==> -1 <= (a + d) / s - a / s <= 0
  {
    var q, m := a / s, a % s;
    var qs := q * s;
    assert a == qs + m;
    if 0 <= m + d < s {
      DivIs(a + d, q, m + d, s, qs);
    } else if m + d >= s {
      MulShift(q, s, qs, 1);
      DivIs(a + d, q + 1, m + d - s, s, qs + s);
    } else {
      MulShift(q, s, qs, -1);
      DivIs(a + d, q - 1, m + d + s, s, qs - s);
    }
  }

  lemma DivIs(b: int, q: int, h: int, s: int, qs: int)
    requires s > 0 && 0 <= h < s && qs == q * s && b == qs + h
    ensures b / s == q
  {
    DivExact(q, h, s);
  }

  lemma MulShift(q: int, s: int, qs: int, k: int)
    requires qs == q * s
    ensures (q + k) * s == qs + k * s
  {
  }

  /** The line starts at (x1, y1) and ends exactly at (x2, y2). */
  lemma LineEnds(x1: int, y1: int, x2: int, y2: int)
    ensures Line(x1, y1, x2, y2)[0] == (x1, y1)
    ensures Line(x1, y1, x2, y2)[Steps(x1, y1, x2, y2)] == (x2, y2)
  {
    var s := Steps(x1, y1, x2, y2);
    if s > 0 {
      DivExact(0, s / 2, s);
      assert (x2 - x1) * 0 + s / 2 == 0 * s + s / 2;
      assert (y2 - y1) * 0 + s / 2 == 0 * s + s / 2;
      DivExact(x2 - x1, s / 2, s);
      DivExact(y2 - y1, s / 2, s);
    } else {
      assert x1 == x2 && y1 == y2;
    }
  }

  /** Consecutive points of a line are neighbours: each coordinate moves by
      at most one, towards the end point. */
  lemma LineAdjacent(x1: int, y1: int, x2: int, y2: int, i: nat)
    requires i < Steps(x1, y1, x2, y2)
    ensures var p, q := Line(x1, y1, x2, y2)[i], Line(x1, y1, x2, y2)[i + 1];
      && (x2 >= x1 ==> 0 <= q.0 - p.0 <= 1) && (x2 <= x1 ==> -1 <= q.0 - p.0 <= 0)
      && (y2 >= y1 ==> 0 <= q.1 - p.1 <= 1) && (y2 <= y1 ==> -1 <= q.1 - p.1 <= 0)
  {
    var s := Steps(x1, y1, x2, y2);
    var dx, dy := x2 - x1, y2 - y1;
    assert dx * (i + 1) + s / 2 == (dx * i + s / 2) + dx;
    assert dy * (i + 1) + s / 2 == (dy * i + s / 2) + dy;
    DivStep(dx * i + s / 2, dx, s);
    DivStep(dy * i + s / 2, dy, s);
  }

  /** A coordinate whose delta is the full step count advances one unit per step. */
  lemma AlongMajor(start: int, d: int, s: nat, i: nat)
    requires s > 0 && IAbs(d) == s
    ensures Along(start, d, s, i) == (if d >= 0 then start + i else start - i)
  {
    var q: int := if d >= 0 then i as int else -(i as int);
    assert d * i == q * s;
    DivExact(q, s / 2, s);
  }

  /** Along the longer axis every step advances exactly one unit. */
  lemma LineMajorAxis(x1: int, y1: int, x2: int, y2: int, i: nat)
    requires i <= Steps(x1, y1, x2, y2)
    ensures IAbs(x2 - x1) == Steps(x1, y1, x2, y2) ==>
      Line(x1, y1, x2, y2)[i].0 == (if x2 >= x1 then x1 + i else x1 - i)
    ensures IAbs(y2 - y1) == Steps(x1, y1, x2, y2) ==>
      Line(x1, y1, x2, y2)[i].1 == (if y2 >= y1 then y1 + i else y1 - i)
  {
    var s := Steps(x1, y1, x2, y2);
    if s > 0 {
      if IAbs(x2 - x1) == s {
        AlongMajor(x1, x2 - x1, s, i);
      }
      if IAbs(y2 - y1) == s {
        AlongMajor(y1, y2 - y1, s, i);
      }
    }
  }

  /** line_points2: the loop appending one point per step. */
  method LinePoints2(x1: int, y1: int, x2: int, y2: int) returns (result: seq<Point2>)
    ensures result == Line(x1, y1, x2, y2)
  {
    var steps := Steps(x1, y1, x2, y2);
    if steps == 0 {
      return [(x1, y1)];
    }
    result := [];
    var rounder := steps / 2;
    for i := 0 to steps + 1
      invariant |result| == i
      invariant forall k :: 0 <= k < i ==> result[k] == LinePoint(x1, y1, x2, y2, k)
    {
      result := result + [(x1 + ((x2 - x1) * i + rounder) / steps, y1 + ((y2 - y1) * i + rounder) / steps)];
    }
  }

  // ---------------------------------------------------------------------
  // circle_points, end_mill

  /** The offsets circle_points keeps: inside the square of half-side
      int(radius) and within the radius. */
  predicate InDisk(dx: int, dy: int, radius: real)
  {
    var n := Trunc(radius);
    -n <= dx <= n && -n <= dy <= n && (dy * dy + dx * dx) as real <= radius * radius
  }

  predicate OnDisk(x: int, y: int, radius: real)
  {
    (y * y + x * x) as real <= radius * radius
  }

  /** Row y of the disc, for x from -int(radius) up to but excluding x. */
  function RowUpTo(radius: real, y: int, x: int): (r: seq<Point2>)
    decreases x + Trunc(radius)
  {
    if x <= -Trunc(radius) then []
    else RowUpTo(radius, y, x - 1) + (if OnDisk(x - 1, y, radius) then [(x - 1, y)] else [])
  }

  /** The rows of the disc from -int(radius) up to but excluding y. */
  function RowsUpTo(radius: real, y: int): (r: seq<Point2>)
    decreases y + Trunc(radius)
  {
    if y <= -Trunc(radius) then []
    else RowsUpTo(radius, y - 1) + RowUpTo(radius, y - 1, Trunc(radius) + 1)
  }

  /** The points of circle_points, row by row. */
  function Disk(radius: real): seq<Point2>
  {
    RowsUpTo(radius, Trunc(radius) + 1)
  }

  lemma {:induction false} RowMembers(radius: real, y: int, x: int, p: Point2)
    ensures p in RowUpTo(radius, y, x) <==> p.1 == y && -Trunc(radius) <= p.0 < x && OnDisk(p.0, p.1, radius)
    decreases x + Trunc(radius)
  {
    if x > -Trunc(radius) {
      RowMembers(radius, y, x - 1, p);
    }
  }

  lemma {:induction false} RowsMembers(radius: real, y: int, p: Point2)
    ensures p in RowsUpTo(radius, y) <==>
      -Trunc(radius) <= p.1 < y && -Trunc(radius) <= p.0 <= Trunc(radius) && OnDisk(p.0, p.1, radius)
    decreases y + Trunc(radius)
  {
    if y > -Trunc(radius) {
      RowsMembers(radius, y - 1, p);
      RowMembers(radius, y - 1, Trunc(radius) + 1, p);
    }
  }

  /** circle_points holds exactly the lattice points of the disc. */
  lemma DiskMembers(radius: real, p: Point2)
    ensures p in Disk(radius) <==> InDisk(p.0, p.1, radius)
  {
    RowsMembers(radius, Trunc(radius) + 1, p);
  }

  /** p comes before q in row-major order (by y, then by x). */
  predicate RowMajorBefore(p: Point2, q: Point2)
  {
    p.1 < q.1 || (p.1 == q.1 && p.0 < q.0)
  }

  predicate RowMajor(s: seq<Point2>)
  {
    forall i, j :: 0 <= i < j < |s| ==> RowMajorBefore(s[i], s[j])
  }

  lemma {:induction false} RowOrdered(radius: real, y: int, x: int)
    ensures RowMajor(RowUpTo(radius, y, x))
    ensures forall k :: 0 <= k < |RowUpTo(radius, y, x)| ==>
      RowUpTo(radius, y, x)[k].1 == y && RowUpTo(radius, y, x)[k].0 < x
    decreases x + Trunc(radius)
  {
    if x > -Trunc(radius) {
      RowOrdered(radius, y, x - 1);
    }
  }

  lemma {:induction false} RowsOrdered(radius: real, y: int)
    ensures RowMajor(RowsUpTo(radius, y))
    ensures forall k :: 0 <= k < |RowsUpTo(radius, y)| ==> RowsUpTo(radius, y)[k].1 < y
    decreases y + Trunc(radius)
  {
    if y > -Trunc(radius) {
      RowsOrdered(radius, y - 1);
      RowOrdered(radius, y - 1, Trunc(radius) + 1);
    }
  }

  /** circle_points lists its points row by row, each row left to right, so
      no point appears twice. */
  lemma DiskRowMajor(radius: real)
    ensures RowMajor(Disk(radius))
    ensures forall i, j :: 0 <= i < j < |Disk(radius)| ==> Disk(radius)[i] != Disk(radius)[j]
  {
    RowsOrdered(radius, Trunc(radius) + 1);
  }

  /** circle_points: nested loops over y, then x, in [-int(radius), int(radius)]. */
  method CirclePoints(radius: real) returns (points: seq<Point2>)
    ensures points == Disk(radius)
  {
    var n := Trunc(radius);
    points := [];
    var y := -n;
    while y < n + 1
      invariant n >= 0 ==> -n <= y <= n + 1
      invariant n < 0 ==> y == -n
      invariant points == RowsUpTo(radius, y)
      decreases n + 1 - y
    {
      var x := -n;
      while x < n + 1
        invariant -n <= x <= n + 1
        invariant points == RowsUpTo(radius, y) + RowUpTo(radius, y, x)
        decreases n + 1 - x
      {
        assert RowUpTo(radius, y, x + 1) == RowUpTo(radius, y, x) + (if OnDisk(x, y, radius) then [(x, y)] else []);
        if (y * y + x * x) as real <= radius * radius {
          points := points + [(x, y)];
        }
        x := x + 1;
      }
      assert RowsUpTo(radius, y + 1) == RowsUpTo(radius, y) + RowUpTo(radius, y, n + 1);
      y := y + 1;
    }
  }

  /** end_mill: the disc of circle_points at height 0. */
  method EndMill(radius: real) returns (r: seq<Point3>)
    ensures |r| == |Disk(radius)|
    ensures forall k :: 0 <= k < |r| ==> r[k] == (Disk(radius)[k].0, Disk(radius)[k].1, 0)
  {
    var points := CirclePoints(radius);
    r := seq(|points|, k requires 0 <= k < |points| => (points[k].0, points[k].1, 0));
  }

  // ---------------------------------------------------------------------
  // dilate, erode

  /** A numpy boolean mask: rows of cells. */
  type Grid = seq<seq<bool>>

  predicate Shaped(g: Grid, sy: nat, sx: nat)
  {
    |g| == sy && forall i :: 0 <= i < sy ==> |g[i]| == sx
  }

  /** The cell at row i, column j; false outside the grid. */
  predicate Cell(g: Grid, i: int, j: int)
  {
    0 <= i < |g| && 0 <= j < |g[i]| && g[i][j]
  }

  /** The cell at offset (dy, dx) from (i, j). */
  predicate Hit(g: Grid, i: int, j: int, dy: int, dx: int)
  {
    Cell(g, i + dy, j + dx)
  }

  /** numpy.zeros(shape, bool). */
  function Zeros(sy: nat, sx: nat): (r: Grid)
    ensures Shaped(r, sy, sx)
    ensures forall i, j :: 0 <= i < sy && 0 <= j < sx ==> !r[i][j]
  {
    seq(sy, i => seq(sx, j => false))
  }

  /** g[r0:r1, c0:c1] |= h[r0+dy:r1+dy, c0+dx:c1+dx], both windows inside
      the grid. */
  function OrWindow(g: Grid, h: Grid, sy: nat, sx: nat, r0: nat, r1: nat, c0: nat, c1: nat, dy: int, dx: int): (r: Grid)
    requires Shaped(g, sy, sx) && Shaped(h, sy, sx)
    requires r0 <= r1 <= sy && c0 <= c1 <= sx
    requires 0 <= r0 + dy && r1 + dy <= sy && 0 <= c0 + dx && c1 + dx <= sx
    ensures Shaped(r, sy, sx)
    ensures forall i, j :: 0 <= i < sy && 0 <= j < sx ==>
      r[i][j] == (g[i][j] || (r0 <= i < r1 && c0 <= j < c1 && h[i + dy][j + dx]))
  {
    seq(sy, i requires 0 <= i < sy => seq(sx, j requires 0 <= j < sx =>
      g[i][j] || (r0 <= i < r1 && c0 <= j < c1 && h[i + dy][j + dx])))
  }

  /** int(math.sqrt(v)) for v >= 0: the integer square root. */
  function FloorSqrt(v: real): (r: nat)
    requires v >= 0.0
    ensures (r * r) as real <= v < ((r + 1) * (r + 1)) as real
  {
    SqrtFrom(v, 0)
  }

  function SqrtFrom(v: real, k: nat): (r: nat)
    requires (k * k) as real <= v
    ensures k <= r && (r * r) as real <= v < ((r + 1) * (r + 1)) as real
    decreases v.Floor - k
  {
    assert k <= k * k;
    if ((k + 1) * (k + 1)) as real > v then k
    else
      assert k + 1 <= (k + 1) * (k + 1);
      SqrtFrom(v, k + 1)
  }

  lemma FloorSqrtMonotone(v: real, w: real)
    requires 0.0 <= v <= w
    ensures FloorSqrt(v) <= FloorSqrt(w)
  {
    var a, b := FloorSqrt(v), FloorSqrt(w);
    if a > b {
      MulMonotone(b + 1, a);
      assert false;
    }
  }

  lemma MulMonotone(a: nat, b: nat)
    requires a <= b
    ensures a * a <= b * b
  {
  }

  /** 0 <= t <= int(radius) puts t inside the radius. */
  lemma RowInside(radius: real, t: nat)
    requires t <= Trunc(radius)
    ensures (t * t) as real <= radius * radius
    ensures radius >= 0.0 ==> t as real <= radius
    ensures radius < 0.0 ==> t == 0
  {
    if radius >= 0.0 {
      assert t as real <= radius;
      RealMulMonotone(t as real, radius);
    }
  }

  lemma RealMulStrict(a: real, b: real)
    requires 0.0 <= a < b
    ensures a * a < b * b
  {
    assert b * b - a * a == (b - a) * (b + a);
    PositiveProduct(b - a, b + a);
  }

  lemma PositiveProduct(p: real, q: real)
    requires p > 0.0 && q > 0.0
    ensures p * q > 0.0
  {
  }

  lemma RealMulMonotone(a: real, b: real)
    requires 0.0 <= a <= b
    ensures a * a <= b * b
  {
    assert a * a <= a * b <= b * b;
  }

  /** The half-width of the dilation at row offset t:
      int(sqrt(radius*radius - t*t)). */
  function Reach(radius: real, t: nat): (r: nat)
    requires t <= Trunc(radius)
    ensures (r * r + t * t) as real <= radius * radius
    ensures radius * radius < ((r + 1) * (r + 1) + t * t) as real
  {
    RowInside(radius, t);
    FloorSqrt(radius * radius - (t * t) as real)
  }

  /** The reach never exceeds int(radius) and shrinks away from the centre row. */
  lemma ReachBounds(radius: real, t: nat)
    requires t < Trunc(radius)
    ensures Reach(radius, t + 1) <= Reach(radius, t) <= Trunc(radius)
  {
    RowInside(radius, t);
    RowInside(radius, t + 1);
    FloorSqrtMonotone(radius * radius - ((t + 1) * (t + 1)) as real, radius * radius - (t * t) as real);
    ReachAtMost(radius, t);
  }

  lemma ReachAtMost(radius: real, t: nat)
    requires t <= Trunc(radius)
    ensures Reach(radius, t) <= Trunc(radius)
  {
    var a := Reach(radius, t);
    RowInside(radius, t);
    assert (a * a) as real == (a as real) * (a as real);
    if radius >= 0.0 {
      if a as real > radius {
        RealMulStrict(radius, a as real);
        assert false;
      }
    } else {
      assert radius > -1.0;
      assert radius * radius < 1.0 by {
        assert -radius < 1.0;
        assert (-radius) * (-radius) <= (-radius) * 1.0;
      }
      assert t == 0;
      assert (a * a) as real <= radius * radius;

    }
  }

  /** Row offset dy, column offsets -a..a: the cells ORed into a dilation of
      amount a. */
  predicate HSpan(g: Grid, i: int, j: int, dy: int, a: nat)
  {
    if a == 0 then Hit(g, i, j, dy, 0)
    else HSpan(g, i, j, dy, a - 1) || Hit(g, i, j, dy, a) || Hit(g, i, j, dy, -(a as int))
  }

  /** Row offsets of magnitude t..int(radius): the cells ORed into dilate's
      result by the passes for those rows. */
  predicate VSpan(g: Grid, i: int, j: int, radius: real, t: nat)
    decreases if t > Trunc(radius) then 0 else Trunc(radius) + 1 - t
  {
    if t > Trunc(radius) then false
    else VSpan(g, i, j, radius, t + 1) || HSpan(g, i, j, t, Reach(radius, t)) || HSpan(g, i, j, -(t as int), Reach(radius, t))
  }

  /** The cell (i, j) is within the disc of radius of some set cell. */
  ghost predicate Dilated(g: Grid, i: int, j: int, radius: real)
  {
    exists dy, dx :: InDisk(dx, dy, radius) && Hit(g, i, j, dy, dx)
  }

  lemma {:induction false} HSpanIff(g: Grid, i: int, j: int, dy: int, a: nat)
    ensures HSpan(g, i, j, dy, a) <==> exists dx: int :: -(a as int) <= dx <= a as int && Hit(g, i, j, dy, dx)
  {
    if a > 0 {
      HSpanIff(g, i, j, dy, a - 1);
      if exists dx: int :: -(a as int) <= dx <= a as int && Hit(g, i, j, dy, dx) {
        var dx: int :| -(a as int) <= dx <= a as int && Hit(g, i, j, dy, dx);
        if -(a as int) < dx < a {
          assert -(a - 1) <= dx <= a - 1;
        }
      }
    }
  }

  /** Seen from the row below, the span of a row is the row offset by one. */
  lemma {:induction false} HSpanShift(g: Grid, i: int, j: int, dy: int, i2: int, a: nat)
    requires i2 == i + dy
    ensures HSpan(g, i2, j, 0, a) == HSpan(g, i, j, dy, a)
  {
    if a > 0 {
      HSpanShift(g, i, j, dy, i2, a - 1);
    }
  }

  lemma {:induction false} HSpanOutside(g: Grid, i: int, j: int, dy: int, a: nat)
    requires !(0 <= i + dy < |g|)
    ensures !HSpan(g, i, j, dy, a)
  {
    if a > 0 {
      HSpanOutside(g, i, j, dy, a - 1);
    }
  }

  lemma SquareAbs(x: int)
    ensures x * x == IAbs(x) * IAbs(x)
  {
  }

  /** At row offset dy, the columns within the reach are exactly the disc. */
  lemma ReachIff(radius: real, dy: int, dx: int)
    requires IAbs(dy) <= Trunc(radius)
    ensures -(Reach(radius, IAbs(dy)) as int) <= dx <= Reach(radius, IAbs(dy)) <==> InDisk(dx, dy, radius)
  {
    var t := IAbs(dy);
    var a := Reach(radius, t);
    ReachAtMost(radius, t);
    SquareAbs(dy);
    SquareAbs(dx);
    if IAbs(dx) <= a {
      MulMonotone(IAbs(dx), a);
    } else {
      MulMonotone(a + 1, IAbs(dx));
    }
  }

  /** A set cell within the disc is in the span of its row offset. */
  lemma DiskInRow(g: Grid, i: int, j: int, radius: real, dy: int, dx: int)
    requires InDisk(dx, dy, radius) && Hit(g, i, j, dy, dx)
    ensures HSpan(g, i, j, dy, Reach(radius, IAbs(dy)))
  {
    ReachIff(radius, dy, dx);
    HSpanIff(g, i, j, dy, Reach(radius, IAbs(dy)));
  }

  /** A set cell in the span of row offset dy is within the disc. */
  lemma RowInDisk(g: Grid, i: int, j: int, radius: real, dy: int, t: nat)
    requires t == IAbs(dy) && t <= Trunc(radius) && HSpan(g, i, j, dy, Reach(radius, t))
    ensures exists dx :: InDisk(dx, dy, radius) && Hit(g, i, j, dy, dx)
  {
    var a := Reach(radius, t);
    HSpanIff(g, i, j, dy, a);
    var dx: int :| -(a as int) <= dx <= a as int && Hit(g, i, j, dy, dx);
    ReachIff(radius, dy, dx);
  }

  lemma {:induction false} VSpanIff(g: Grid, i: int, j: int, radius: real, t: nat)
    ensures VSpan(g, i, j, radius, t) <==>
      exists dy, dx :: t <= IAbs(dy) && InDisk(dx, dy, radius) && Hit(g, i, j, dy, dx)
    decreases if t > Trunc(radius) then 0 else Trunc(radius) + 1 - t
  {
    if t <= Trunc(radius) {
      VSpanIff(g, i, j, radius, t + 1);
      if exists dy, dx :: t <= IAbs(dy) && InDisk(dx, dy, radius) && Hit(g, i, j, dy, dx) {
        var dy, dx :| t <= IAbs(dy) && InDisk(dx, dy, radius) && Hit(g, i, j, dy, dx);
        if IAbs(dy) == t {
          DiskInRow(g, i, j, radius, dy, dx);
          assert dy == t || dy == -(t as int);
        }
      }
      if VSpan(g, i, j, radius, t) && !VSpan(g, i, j, radius, t + 1) {
        if HSpan(g, i, j, t, Reach(radius, t)) {
          RowInDisk(g, i, j, radius, t, t);
        } else {
          RowInDisk(g, i, j, radius, -(t as int), t);
        }
      }
    }
  }

  /** The widening loop of dilate: OR the mask shifted left and right by
      each further amount, up to target. */
  method Widen(mask: Grid, sx: nat, dilation: Grid, amount: nat, target: nat) returns (wider: Grid, reached: nat)
    requires Shaped(mask, |mask|, sx) && Shaped(dilation, |mask|, sx)
    requires amount <= target <= sx
    requires forall i, j :: 0 <= i < |mask| && 0 <= j < sx ==> dilation[i][j] == HSpan(mask, i, j, 0, amount)
    ensures reached == target && Shaped(wider, |mask|, sx)
    ensures forall i, j :: 0 <= i < |mask| && 0 <= j < sx ==> wider[i][j] == HSpan(mask, i, j, 0, target)
  {
    var sy := |mask|;
    wider, reached := dilation, amount;
    while reached < target
      invariant reached <= target
      invariant Shaped(wider, sy, sx)
      invariant forall i, j :: 0 <= i < sy && 0 <= j < sx ==> wider[i][j] == HSpan(mask, i, j, 0, reached)
    {
      reached := reached + 1;
      wider := OrWindow(wider, mask, sy, sx, 0, sy, 0, sx - reached, 0, reached);
      wider := OrWindow(wider, mask, sy, sx, 0, sy, reached, sx, 0, -(reached as int));
    }
  }

  /** One cell of the row passes for offset y: the cells y rows below and
      above (iu and id), each dilated by the reach of row y. */
  lemma RowPassCell(mask: Grid, radius: real, y: nat, i: int, j: int, iu: int, id: int, cell: bool)
    requires y <= Trunc(radius) && iu == i + y && id == i - y
    requires cell == (VSpan(mask, i, j, radius, y + 1)
      || (iu < |mask| && HSpan(mask, iu, j, 0, Reach(radius, y)))
      || (id >= 0 && HSpan(mask, id, j, 0, Reach(radius, y))))
    requires i >= 0
    ensures cell == VSpan(mask, i, j, radius, y)
  {
    var a := Reach(radius, y);
    if iu < |mask| {
      HSpanShift(mask, i, j, y, iu, a);
    } else {
      HSpanOutside(mask, i, j, y, a);
    }
    if id >= 0 {
      HSpanShift(mask, i, j, -(y as int), id, a);
    } else {
      HSpanOutside(mask, i, j, -(y as int), a);
    }
  }

  /** The two windows of a row pass, cell by cell. */
  lemma TwoWindows(sy: nat, sx: nat, y: nat, dilation: Grid, before: Grid, mid: Grid, after: Grid, i: nat, j: nat)
    requires Shaped(dilation, sy, sx) && Shaped(before, sy, sx)
    requires y <= sy && i < sy && j < sx
    requires mid == OrWindow(before, dilation, sy, sx, 0, sy - y, 0, sx, y, 0)
    requires after == OrWindow(mid, dilation, sy, sx, y, sy, 0, sx, -(y as int), 0)
    ensures after[i][j] == (before[i][j] || (i + y < sy && dilation[i + y][j]) || (i >= y && dilation[i - y][j]))
  {
    assert mid[i][j] == (before[i][j] || (i < sy - y && dilation[i + y][j + 0]));
  }

  /** The two row passes for offset y OR the dilation into the result
      shifted up and down by y. */
  lemma RowPass(mask: Grid, sx: nat, radius: real, y: nat, next: nat, dilation: Grid, before: Grid, mid: Grid, after: Grid)
    requires Shaped(mask, |mask|, sx) && Shaped(dilation, |mask|, sx) && Shaped(before, |mask|, sx)
    requires y <= Trunc(radius) && y <= |mask| && next == y + 1
    requires forall i, j :: 0 <= i < |mask| && 0 <= j < sx ==> dilation[i][j] == HSpan(mask, i, j, 0, Reach(radius, y))
    requires forall i, j :: 0 <= i < |mask| && 0 <= j < sx ==> before[i][j] == VSpan(mask, i, j, radius, next)
    requires mid == OrWindow(before, dilation, |mask|, sx, 0, |mask| - y, 0, sx, y, 0)
    requires after == OrWindow(mid, dilation, |mask|, sx, y, |mask|, 0, sx, -(y as int), 0)
    ensures Shaped(after, |mask|, sx)
    ensures forall i, j :: 0 <= i < |mask| && 0 <= j < sx ==> after[i][j] == VSpan(mask, i, j, radius, y)
  {
    var sy := |mask|;
    var a := Reach(radius, y);
    forall i, j | 0 <= i < sy && 0 <= j < sx
      ensures after[i][j] == VSpan(mask, i, j, radius, y)
    {
      var iu, id := i + y, i - y;
      TwoWindows(sy, sx, y, dilation, before, mid, after, i, j);
      var up := iu < sy && dilation[iu][j];
      var down := id >= 0 && dilation[id][j];
      assert up == (iu < sy && HSpan(mask, iu, j, 0, a));
      assert down == (id >= 0 && HSpan(mask, id, j, 0, a));
      assert after[i][j] == (VSpan(mask, i, j, radius, next) || up || down);
      RowPassCell(mask, radius, y, i, j, iu, id, after[i][j]);
    }
  }

  /** dilate: for each row offset y from int(radius) down to 0, widen the
      horizontal dilation to int(sqrt(radius^2 - y^2)) and OR it into the
      result shifted up and down by y. */
  method Dilate(mask: Grid, sx: nat, radius: real) returns (result: Grid)
    requires Shaped(mask, |mask|, sx)
    requires Trunc(radius) <= |mask| && Trunc(radius) <= sx
    ensures Shaped(result, |mask|, sx)
    ensures forall i, j :: 0 <= i < |mask| && 0 <= j < sx ==> (result[i][j] <==> Dilated(mask, i, j, radius))
  {
    var sy := |mask|;
    var dilation := mask;
    var amount: nat := 0;
    result := Zeros(sy, sx);
    var y := Trunc(radius);
    ghost var next: nat := if y < 0 then 0 else y + 1;
    while y >= 0
      invariant y <= Trunc(radius) && (y >= -1 || y == Trunc(radius))
      invariant next == if y < 0 && y == Trunc(radius) then 0 else y + 1
      invariant Shaped(dilation, sy, sx) && Shaped(result, sy, sx)
      invariant amount == if y == Trunc(radius) then 0 else Reach(radius, y + 1)
      invariant forall i, j :: 0 <= i < sy && 0 <= j < sx ==> dilation[i][j] == HSpan(mask, i, j, 0, amount)
      invariant forall i, j :: 0 <= i < sy && 0 <= j < sx ==> result[i][j] == VSpan(mask, i, j, radius, next)
    {
      RowInside(radius, y);
      var x := FloorSqrt(radius * radius - (y * y) as real);
      assert x == Reach(radius, y);
      ReachAtMost(radius, y);
      if y < Trunc(radius) {
        ReachBounds(radius, y);
      }
      dilation, amount := Widen(mask, sx, dilation, amount, x);
      var before := result;
      result := OrWindow(result, dilation, sy, sx, 0, sy - y, 0, sx, y, 0);
      var mid := result;
      result := OrWindow(result, dilation, sy, sx, y, sy, 0, sx, -y, 0);
      RowPass(mask, sx, radius, y, next, dilation, before, mid, result);
      y := y - 1;
      next := y + 1;
    }
    forall i, j | 0 <= i < sy && 0 <= j < sx
      ensures result[i][j] <==> Dilated(mask, i, j, radius)
    {
      VSpanIff(mask, i, j, radius, 0);
    }
  }

  /** The centre offset is in the disc when int(radius) >= 0. */
  lemma CentreInDisk(radius: real)
    requires radius > -1.0
    ensures InDisk(0, 0, radius)
  {
  }

  /** For radius > -1, dilate's result contains its input. */
  lemma DilatedContains(mask: Grid, i: int, j: int, radius: real)
    requires radius > -1.0 && Cell(mask, i, j)
    ensures Dilated(mask, i, j, radius)
  {
    CentreInDisk(radius);
    assert Hit(mask, i, j, 0, 0);
  }

  /** ~mask. */
  function Complement(g: Grid): (r: Grid)
    ensures |r| == |g|
    ensures forall i :: 0 <= i < |g| ==> |r[i]| == |g[i]|
    ensures forall i, j :: 0 <= i < |g| && 0 <= j < |g[i]| ==> r[i][j] == !g[i][j]
  {
    seq(|g|, i requires 0 <= i < |g| => seq(|g[i]|, j requires 0 <= j < |g[i]| => !g[i][j]))
  }

  /** An unset cell of the grid at offset (dy, dx) from (i, j). */
  predicate Gap(g: Grid, i: int, j: int, dy: int, dx: int)
  {
    0 <= i + dy < |g| && 0 <= j + dx < |g[i + dy]| && !g[i + dy][j + dx]
  }

  /** The cell (i, j) has no unset grid cell within the disc of radius. */
  ghost predicate Eroded(g: Grid, i: int, j: int, radius: real)
  {
    !exists dy, dx :: InDisk(dx, dy, radius) && Gap(g, i, j, dy, dx)
  }

  lemma ErodedIsUndilated(g: Grid, i: int, j: int, radius: real)
    ensures Eroded(g, i, j, radius) <==> !Dilated(Complement(g), i, j, radius)
  {
    forall dy, dx ensures Gap(g, i, j, dy, dx) == Hit(Complement(g), i, j, dy, dx) {
    }
  }

  /** erode: the complement of the dilation of the complement. A cell
      survives when every grid cell within the disc around it is set, so for
      radius > -1 the erosion lies inside the mask. */
  method Erode(mask: Grid, sx: nat, radius: real) returns (result: Grid)
    requires Shaped(mask, |mask|, sx)
    requires Trunc(radius) <= |mask| && Trunc(radius) <= sx
    ensures Shaped(result, |mask|, sx)
    ensures forall i, j :: 0 <= i < |mask| && 0 <= j < sx ==> (result[i][j] <==> Eroded(mask, i, j, radius))
    ensures radius > -1.0 ==> forall i, j :: 0 <= i < |mask| && 0 <= j < sx && result[i][j] ==> mask[i][j]
  {
    var d := Dilate(Complement(mask), sx, radius);
    result := Complement(d);
    forall i, j | 0 <= i < |mask| && 0 <= j < sx
      ensures result[i][j] <==> Eroded(mask, i, j, radius)
    {
      ErodedIsUndilated(mask, i, j, radius);
    }
    if radius > -1.0 {
      forall i, j | 0 <= i < |mask| && 0 <= j < sx && result[i][j]
        ensures mask[i][j]
      {
        CentreInDisk(radius);
      }
    }
  }

  // ---------------------------------------------------------------------
  // Miller

  /** One path entry: a position and whether the move is fast. */
  type Move = (Point3, bool)

  /** int(res * v + 0.5): rounding half up for values of at least -0.5,
      truncation toward zero below that. */
  function ResRound(res: int, v: real): (r: int)
    ensures (res as real) * v >= -0.5 ==> r == RoundHalfUp((res as real) * v)
    ensures (res as real) * v < -0.5 ==> r as real - 1.0 < (res as real) * v + 0.5 <= r as real
  {
    Trunc((res as real) * v + 0.5)
  }

  /** max(1, int(res * v + 0.5)): the finishing step is at least one unit. */
  function ResStep(res: int, v: real): (r: int)
    ensures r >= 1 && r >= ResRound(res, v)
    ensures r == 1 || r == ResRound(res, v)
  {
    MaxI(1, ResRound(res, v))
  }

  /** The i-th edge of a closed contour, rasterised, from point i to the next. */
  function EdgeLine(points: seq<Point2>, i: nat): seq<Point2>
    requires i < |points|
  {
    var j := (i + 1) % |points|;
    Line(points[i].0, points[i].1, points[j].0, points[j].1)
  }

  function Next(points: seq<Point2>, i: nat): (j: nat)
    requires i < |points|
    ensures j < |points|
  {
    (i + 1) % |points|
  }

  /** Candidate (e, k) comes before (e2, k2) in the scan of cut_contour. */
  predicate ScannedBefore(e: nat, k: nat, e2: nat, k2: nat)
  {
    e < e2 || (e == e2 && k < k2)
  }

  lemma SquareSum(a: int, b: int)
    ensures a * a + b * b >= 0
    ensures a * a + b * b == 0 <==> a == 0 && b == 0
  {
    if a != 0 {
      assert a * a > 0;
    }
    if b != 0 {
      assert b * b > 0;
    }
  }

  lemma Inverse(x: real)
    requires x >= 1.0
    ensures 0.0 < 1.0 / x <= 1.0
    ensures 1.0 / x == 1.0 <==> x == 1.0
  {
    var r := 1.0 / x;
    assert r * x == 1.0;
  }

  /** 1 / (squared distance + 1): how close p is to an earlier drill point q. */
  function Closeness(q: Point2, p: Point2): (r: real)
    ensures 0.0 < r <= 1.0
    ensures r == 1.0 <==> p == q
  {
    var d := (p.0 - q.0) * (p.0 - q.0) + (p.1 - q.1) * (p.1 - q.1);
    SquareSum(p.0 - q.0, p.1 - q.1);
    Inverse((d + 1) as real);
    1.0 / (d + 1) as real
  }

  /** The sum of closeness to every earlier drill point. */
  function DrillScore(drills: seq<Point2>, p: Point2): (r: real)
    ensures 0.0 <= r <= |drills| as real
    ensures |drills| > 0 ==> r > 0.0
  {
    if |drills| == 0 then 0.0 else Closeness(drills[0], p) + DrillScore(drills[1..], p)
  }

  /** A point already drilled scores at least one. */
  lemma {:induction false} DrilledScoresHigh(drills: seq<Point2>, p: Point2)
    requires p in drills
    ensures DrillScore(drills, p) >= 1.0
  {
    if drills[0] != p {
      DrilledScoresHigh(drills[1..], p);
    }
  }

  /** How cut_contour scores a candidate start point: for an exterior
      contour, closeness to the earlier drill points weighted by the
      caller's point score; otherwise the squared distance from the last
      position. */
  datatype Scoring =
    | Exterior(drills: seq<Point2>, pointScore: (int, int, int) -> real, z: int)
    | Travel(last: Point3)

  function Score(scoring: Scoring, p: Point2): real
  {
    match scoring
    case Exterior(drills, pointScore, z) => DrillScore(drills, p) * pointScore(p.0, p.1, z)
    case Travel(last) => TravelScore(last, p)
  }

  /** The squared distance from the last position. */
  function TravelScore(last: Point3, p: Point2): (r: real)
    ensures r >= 0.0
    ensures r == 0.0 <==> p == (last.0, last.1)
  {
    var d := (last.0 - p.0) * (last.0 - p.0) + (last.1 - p.1) * (last.1 - p.1);
    SquareSum(last.0 - p.0, last.1 - p.1);
    d as real
  }

  /** The scan state after the candidates before (i, k): the best so far is
      the first candidate of least score below 1e30, or points[0] (the end
      of the last edge) with best 0 when none scores below 1e30. */
  ghost predicate Chosen(points: seq<Point2>, scoring: Scoring, i: nat, k: nat,
                         best: nat, bestPoint: Point2, bestScore: real, edge: nat, index: nat)
  {
    && |points| > 0 && i <= |points|
    && edge < |points| && index < |EdgeLine(points, edge)|
    && bestPoint == EdgeLine(points, edge)[index] && best == Next(points, edge)
    && bestScore <= 1e30
    && (bestScore == 1e30 ==> best == 0 && bestPoint == points[0])
    && (bestScore < 1e30 ==> bestScore == Score(scoring, bestPoint) && ScannedBefore(edge, index, i, k))
    && (forall e, k2 :: 0 <= e < |points| && 0 <= k2 < |EdgeLine(points, e)| && ScannedBefore(e, k2, i, k) ==>
          bestScore <= Score(scoring, EdgeLine(points, e)[k2]))
    && (bestScore < 1e30 ==> forall e, k2 :: (0 <= e < |points| && 0 <= k2 < |EdgeLine(points, e)|
          && ScannedBefore(e, k2, edge, index)) ==> bestScore < Score(scoring, EdgeLine(points, e)[k2]))
  }

  lemma ChosenStart(points: seq<Point2>, scoring: Scoring)
    requires |points| > 0
    ensures Chosen(points, scoring, 0, 0, 0, points[0], 1e30, |points| - 1, |EdgeLine(points, |points| - 1)| - 1)
  {
    var n := |points|;
    LineEnds(points[n - 1].0, points[n - 1].1, points[0].0, points[0].1);
    assert (n - 1 + 1) % n == 0;
  }

  lemma ChosenStep(points: seq<Point2>, scoring: Scoring, i: nat, k: nat,
                   best: nat, bestPoint: Point2, bestScore: real, edge: nat, index: nat)
    requires Chosen(points, scoring, i, k, best, bestPoint, bestScore, edge, index)
    requires i < |points| && k < |EdgeLine(points, i)|
    ensures var p := EdgeLine(points, i)[k];
      if Score(scoring, p) < bestScore
      then Chosen(points, scoring, i, k + 1, Next(points, i), p, Score(scoring, p), i, k)
      else Chosen(points, scoring, i, k + 1, best, bestPoint, bestScore, edge, index)
  {
  }

  lemma ChosenNextEdge(points: seq<Point2>, scoring: Scoring, i: nat,
                       best: nat, bestPoint: Point2, bestScore: real, edge: nat, index: nat)
    requires i < |points|
    requires Chosen(points, scoring, i, |EdgeLine(points, i)|, best, bestPoint, bestScore, edge, index)
    ensures Chosen(points, scoring, i + 1, 0, best, bestPoint, bestScore, edge, index)
  {
  }

  lemma ChosenDone(points: seq<Point2>, scoring: Scoring,
                   best: nat, bestPoint: Point2, bestScore: real, edge: nat, index: nat)
    requires Chosen(points, scoring, |points|, 0, best, bestPoint, bestScore, edge, index)
    ensures forall e, k :: 0 <= e < |points| && 0 <= k < |EdgeLine(points, e)| ==>
      bestScore <= Score(scoring, EdgeLine(points, e)[k])
  {
    forall e, k | 0 <= e < |points| && 0 <= k < |EdgeLine(points, e)|
      ensures bestScore <= Score(scoring, EdgeLine(points, e)[k])
    {
      assert ScannedBefore(e, k, |points|, 0);
    }
  }

  /** The inner loop of the scan: the points of edge i, in order. */
  method ScanEdge(points: seq<Point2>, scoring: Scoring, i: nat, line: seq<Point2>,
                  best0: nat, bestPoint0: Point2, bestScore0: real, ghost edge0: nat, ghost index0: nat)
    returns (best: nat, bestPoint: Point2, bestScore: real, ghost edge: nat, ghost index: nat)
    requires i < |points| && line == EdgeLine(points, i)
    requires Chosen(points, scoring, i, 0, best0, bestPoint0, bestScore0, edge0, index0)
    ensures Chosen(points, scoring, i + 1, 0, best, bestPoint, bestScore, edge, index)
  {
    var j := (i + 1) % |points|;
    best, bestPoint, bestScore, edge, index := best0, bestPoint0, bestScore0, edge0, index0;
    for k := 0 to |line|
      invariant Chosen(points, scoring, i, k, best, bestPoint, bestScore, edge, index)
    {
      var s := Score(scoring, line[k]);
      ChosenStep(points, scoring, i, k, best, bestPoint, bestScore, edge, index);
      if s < bestScore {
        best, bestPoint, bestScore := j, line[k], s;
        edge, index := i, k;
      }
    }
    ChosenNextEdge(points, scoring, i, best, bestPoint, bestScore, edge, index);
  }

  /** The start-point scan of cut_contour: every rasterised point of every
      edge is scored, and the first with the least score below 1e30 wins;
      best is the index of the contour point after it. Without a winner the
      start is points[0] with best 0, which is the last point of the last
      edge. */
  method ChooseStart(points: seq<Point2>, scoring: Scoring)
    returns (best: nat, bestPoint: Point2, bestScore: real, ghost edge: nat, ghost index: nat)
    requires |points| > 0
    ensures edge < |points| && index < |EdgeLine(points, edge)|
    ensures bestPoint == EdgeLine(points, edge)[index] && best == Next(points, edge)
    ensures bestScore <= 1e30
    ensures forall e, k :: 0 <= e < |points| && 0 <= k < |EdgeLine(points, e)| ==>
      bestScore <= Score(scoring, EdgeLine(points, e)[k])
    ensures bestScore < 1e30 ==> bestScore == Score(scoring, bestPoint)
    ensures bestScore < 1e30 ==> forall e, k :: (0 <= e < |points| && 0 <= k < |EdgeLine(points, e)|
      && ScannedBefore(e, k, edge, index)) ==> bestScore < Score(scoring, EdgeLine(points, e)[k])
    ensures bestScore == 1e30 ==> best == 0 && bestPoint == points[0]
  {
    var n := |points|;
    best, bestPoint, bestScore := 0, points[0], 1e30;
    edge := n - 1;
    index := |EdgeLine(points, n - 1)| - 1;
    ChosenStart(points, scoring);
    for i := 0 to n
      invariant Chosen(points, scoring, i, 0, best, bestPoint, bestScore, edge, index)
    {
      var j := (i + 1) % n;
      var line := LinePoints2(points[i].0, points[i].1, points[j].0, points[j].1);
      best, bestPoint, bestScore, edge, index := ScanEdge(points, scoring, i, line, best, bestPoint, bestScore, edge, index);
    }
    ChosenDone(points, scoring, best, bestPoint, bestScore, edge, index);
  }

  /** The start lies on edge `edge` and no candidate scores below it (or
      below 1e30). */
  ghost predicate BestStart(points: seq<Point2>, scoring: Scoring, start: Point2, edge: nat)
  {
    && edge < |points| && start in EdgeLine(points, edge)
    && forall e, k :: 0 <= e < |points| && 0 <= k < |EdgeLine(points, e)| ==>
         MinR(Score(scoring, start), 1e30) <= Score(scoring, EdgeLine(points, e)[k])
  }

  /** The chosen start, followed by the contour rotated to the point after it. */
  method StartContour(points: seq<Point2>, scoring: Scoring) returns (pts: seq<Point2>, ghost edge: nat)
    requires |points| > 0
    ensures |pts| == |points| + 1
    ensures BestStart(points, scoring, pts[0], edge)
    ensures pts == Rotated(points, pts[0], Next(points, edge))
  {
    var best, bestPoint, bestScore, e, k := ChooseStart(points, scoring);
    edge := e;
    pts := [bestPoint] + points[best..] + points[..best];
  }

  /** The moves of one contour at depth z: two fast moves down to just
      above the start, a slow move to every point, a slow return to the
      start and a fast retract to the tool-up height. */
  function ContourMoves(cut: seq<Point2>, z: int, up: int): (r: seq<Move>)
    requires |cut| > 0
    ensures |r| == |cut| + 4
    ensures r[0] == ((cut[0].0, cut[0].1, up), true) && r[1] == ((cut[0].0, cut[0].1, MaxI(0, z + up)), true)
    ensures forall k :: 0 <= k < |cut| ==> r[k + 2] == ((cut[k].0, cut[k].1, z), false)
    ensures r[|cut| + 2] == ((cut[0].0, cut[0].1, z), false) && r[|cut| + 3] == ((cut[0].0, cut[0].1, up), true)
  {
    [((cut[0].0, cut[0].1, up), true), ((cut[0].0, cut[0].1, MaxI(0, z + up)), true)]
    + seq(|cut|, k requires 0 <= k < |cut| => ((cut[k].0, cut[k].1, z), false))
    + [((cut[0].0, cut[0].1, z), false), ((cut[0].0, cut[0].1, up), true)]
  }

  /** Every slow move of a contour is at the cutting depth, and the slow moves
      form a closed loop through the contour points. */
  lemma ContourMovesCut(cut: seq<Point2>, z: int, up: int)
    requires |cut| > 0
    ensures forall k :: 0 <= k < |ContourMoves(cut, z, up)| && !ContourMoves(cut, z, up)[k].1 ==>
      ContourMoves(cut, z, up)[k].0.2 == z
    ensures |ContourMoves(cut, z, up)| - 2 == |cut| + 2
    ensures ContourMoves(cut, z, up)[2].0 == ContourMoves(cut, z, up)[|cut| + 2].0
  {
    var r := ContourMoves(cut, z, up);
    forall k | 0 <= k < |r| && !r[k].1 ensures r[k].0.2 == z {
      if 2 <= k < |cut| + 2 {
        assert r[(k - 2) + 2] == ((cut[k - 2].0, cut[k - 2].1, z), false);
      }
    }
  }

  /** The z-reset move: fast, half way between the last position and the
      start, at the z-reset height. */
  function ResetMove(last: Point3, start: Point2, zreset: int): (m: Move)
    ensures m.1 && m.0.2 == zreset
  {
    (((start.0 + last.0) / 2, (start.1 + last.1) / 2, zreset), true)
  }

  /** The start point and the contour after it: the start followed by the
      contour rotated to begin at point best. */
  function Rotated(points: seq<Point2>, start: Point2, best: nat): (r: seq<Point2>)
    requires best <= |points|
    ensures |r| == |points| + 1 && r[0] == start
    ensures multiset(r[1..]) == multiset(points)
  {
    var r := [start] + points[best..] + points[..best];
    assert r[1..] == points[best..] + points[..best];
    assert points == points[..best] + points[best..];
    r
  }

  /** The Miller: settings in units of 1/res mm and the path it accumulates. */
  class Miller {
    const res: int
    const toolUp: real
    const toolZreset: real
    const zresetPer: int
    const cuttingDepth: real
    const finishingStep: real

    var path: seq<Move>
    var drillPoints: seq<Point2>
    var cutCount: int

    constructor (res: int, toolUp: real, toolZreset: real, zresetPer: int, cuttingDepth: real, finishingStep: real)
      ensures this.res == res && this.toolUp == toolUp && this.toolZreset == toolZreset
      ensures this.zresetPer == zresetPer && this.cuttingDepth == cuttingDepth && this.finishingStep == finishingStep
      ensures path == [] && drillPoints == [] && cutCount == 0
    {
      this.res := res;
      this.toolUp := toolUp;
      this.toolZreset := toolZreset;
      this.zresetPer := zresetPer;
      this.cuttingDepth := cuttingDepth;
      this.finishingStep := finishingStep;
      path := [];
      drillPoints := [];
      cutCount := 0;
    }

    function ResToolUp(): int
    {
      ResRound(res, toolUp)
    }

    function ResToolZreset(): int
    {
      ResRound(res, toolZreset)
    }

    function ResCuttingDepth(): int
    {
      ResRound(res, cuttingDepth)
    }

    function ResFinishingStep(): int
    {
      ResStep(res, finishingStep)
    }

    /** move_to: one more entry on the path. */
    method MoveTo(point: Point3, fast: bool)
      modifies this`path
      ensures path == old(path) + [(point, fast)]
    {
      path := path + [(point, fast)];
    }

    /** The moves of one contour from its start point. */
    method CutFrom(pts: seq<Point2>, z: int)
      requires |pts| > 0
      modifies this`path
      ensures path == old(path) + ContourMoves(pts, z, ResToolUp())
    {
      ghost var before := path;
      MoveTo((pts[0].0, pts[0].1, ResToolUp()), true);
      MoveTo((pts[0].0, pts[0].1, MaxI(0, z + ResToolUp())), true);
      for k := 0 to |pts|
        invariant path == before + ContourMoves(pts, z, ResToolUp())[..k + 2]
      {
        MoveTo((pts[k].0, pts[k].1, z), false);
      }
      MoveTo((pts[0].0, pts[0].1, z), false);
      MoveTo((pts[0].0, pts[0].1, ResToolUp()), true);
    }

    /** cut_contour: choose where to start (far from earlier drill points
        for an exterior contour, near the last position otherwise), count
        the cut, home z every zresetPer-th cut, then cut the contour.
        cut is the contour as cut, edge the edge its start lies on. */
    method CutContour(z: int, points: seq<Point2>, isExterior: bool, pointScore: (int, int, int) -> real)
      returns (ghost cut: seq<Point2>, ghost edge: nat)
      requires |points| > 0 && zresetPer != 0
      modifies this`path, this`drillPoints, this`cutCount
      ensures |cut| > 0
      ensures cutCount == old(cutCount) + 1
      ensures !isExterior && |old(path)| == 0 ==> cut == points
      ensures isExterior ==> BestStart(points, Exterior(old(drillPoints), pointScore, z), cut[0], edge)
      ensures !isExterior && |old(path)| > 0 ==>
        BestStart(points, Travel(old(path)[|old(path)| - 1].0), cut[0], edge)
      ensures isExterior || |old(path)| > 0 ==> edge < |points| && cut == Rotated(points, cut[0], Next(points, edge))
      ensures isExterior ==> drillPoints == old(drillPoints) + [cut[0]]
      ensures !isExterior ==> drillPoints == old(drillPoints)
      ensures path == old(path)
        + (if cutCount % zresetPer == 0 && |old(path)| > 0
           then [ResetMove(old(path)[|old(path)| - 1].0, cut[0], ResToolZreset())] else [])
        + ContourMoves(cut, z, ResToolUp())
    {
      var pts := points;
      edge := 0;
      if isExterior {
        pts, edge := StartContour(points, Exterior(drillPoints, pointScore, z));
        drillPoints := drillPoints + [pts[0]];
      } else if |path| > 0 {
        pts, edge := StartContour(points, Travel(path[|path| - 1].0));
      }
      cut := pts;
      cutCount := cutCount + 1;
      assert path == old(path);
      ghost var reset := if cutCount % zresetPer == 0 && |path| > 0
        then [ResetMove(path[|path| - 1].0, pts[0], ResToolZreset())] else [];
      if cutCount % zresetPer == 0 && |path| > 0 {
        var last := path[|path| - 1].0;
        MoveTo(((pts[0].0 + last.0) / 2, (pts[0].1 + last.1) / 2, ResToolZreset()), true);
      }
      assert path == old(path) + reset;
      CutFrom(pts, z);
    }
  }
}
