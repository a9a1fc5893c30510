// The older raster milling planner of mill/old/raster-old.py: offset slice
// windows, 3-D line rasterisation, the breadth-first Searcher over disc
// offsets, and the path builder that merges straight runs of moves. Its
// line_points2 and circle_points are the same code as in mill/path.py and
// are the MillPath members.

module RasterOld {
  import opened Common
  import MillPath

  type Point2 = MillPath.Point2
  type Point3 = MillPath.Point3

  // ---------------------------------------------------------------------
  // offset_slices

  /** A half-open range [lo, hi) of indices. */
  datatype Range = Range(lo: nat, hi: nat)
  {
    function Size(): nat
    {
      if hi >= lo then hi - lo else 0
    }
  }

  /** A 2-D window of an array: a row range and a column range. */
  datatype Window = Window(rows: Range, cols: Range)

  /** One bound of a Python slice over n items: negative bounds count from
      the end, and the result is clamped to [0, n]. */
  function SliceBound(n: nat, i: int): (r: nat)
    ensures r <= n
    ensures 0 <= i <= n ==> r == i
    ensures -(n as int) <= i < 0 ==> r == n + i
  {
    if i < 0 then (if i + n < 0 then 0 else i + n) else if i > n then n else i
  }

  /** The range a[i:j] of a sequence of n items selects. */
  function Slice(n: nat, i: int, j: int): (r: Range)
    ensures r.hi <= n && r.lo <= n
  {
    Range(SliceBound(n, i), SliceBound(n, j))
  }

  /** offset_slices: the windows of mata and matb (both sy by sx) that pair
      each cell (r, c) of the first with (r + y, c + x) of the second. */
  function OffsetSlices(sy: nat, sx: nat, x: int, y: int): (r: (Window, Window))
  {
    var (ax1, ax2, bx1, bx2) := if x >= 0 then (0, sx - x, x, sx) else (-x, sx, 0, sx + x);
    var (ay1, ay2, by1, by2) := if y >= 0 then (0, sy - y, y, sy) else (-y, sy, 0, sy + y);
    (Window(Slice(sy, ay1, ay2), Slice(sx, ax1, ax2)), Window(Slice(sy, by1, by2), Slice(sx, bx1, bx2)))
  }

  /** For offsets no larger than the array, both windows are
      (sy - |y|) by (sx - |x|), and the second is the first moved by (y, x). */
  lemma OffsetSlicesPair(sy: nat, sx: nat, x: int, y: int)
    requires IAbs(x) <= sx && IAbs(y) <= sy
    ensures var (a, b) := OffsetSlices(sy, sx, x, y);
      && a.rows.Size() == b.rows.Size() == sy - IAbs(y)
      && a.cols.Size() == b.cols.Size() == sx - IAbs(x)
      && b.rows.lo == a.rows.lo + y && b.cols.lo == a.cols.lo + x
      && a.rows.hi <= sy && b.rows.hi <= sy && a.cols.hi <= sx && b.cols.hi <= sx
  {
  }

  /** An offset wider than the array but less than twice its width makes
      the column windows differ in size: the negative end bound of the
      first window wraps round. */
  lemma OffsetSlicesTooWide(sy: nat, sx: nat, x: int)
    requires sx < x < 2 * sx
    ensures var (a, b) := OffsetSlices(sy, sx, x, 0);
      a.cols.Size() == 2 * sx - x && b.cols.Size() == 0
  {
  }

  // ---------------------------------------------------------------------
  // line_points3

  function Steps3(x1: int, y1: int, z1: int, x2: int, y2: int, z2: int): (r: nat)
    ensures r >= IAbs(x2 - x1) && r >= IAbs(y2 - y1) && r >= IAbs(z2 - z1)
    ensures r == IAbs(x2 - x1) || r == IAbs(y2 - y1) || r == IAbs(z2 - z1)
  {
    MaxI(MaxI(IAbs(x2 - x1), IAbs(y2 - y1)), IAbs(z2 - z1))
  }

  function LinePoint3(x1: int, y1: int, z1: int, x2: int, y2: int, z2: int, i: int): Point3
    requires Steps3(x1, y1, z1, x2, y2, z2) > 0
  {
    var s := Steps3(x1, y1, z1, x2, y2, z2);
    (MillPath.Along(x1, x2 - x1, s, i), MillPath.Along(y1, y2 - y1, s, i), MillPath.Along(z1, z2 - z1, s, i))
  }

  /** The points of line_points3. */
  function Line3(x1: int, y1: int, z1: int, x2: int, y2: int, z2: int): (r: seq<Point3>)
    ensures |r| == Steps3(x1, y1, z1, x2, y2, z2) + 1
  {
    var s := Steps3(x1, y1, z1, x2, y2, z2);
    if s == 0 then [(x1, y1, z1)]
    else seq(s + 1, i requires 0 <= i <= s => LinePoint3(x1, y1, z1, x2, y2, z2, i))
  }

  lemma AlongEnds(start: int, d: int, s: nat)
    requires s > 0
    ensures MillPath.Along(start, d, s, 0) == start
    ensures MillPath.Along(start, d, s, s) == start + d
  {
    assert d * 0 + s / 2 == 0 * s + s / 2;
    MillPath.DivExact(0, s / 2, s);
    MillPath.DivExact(d, s / 2, s);
  }

  /** The 3-D line starts at the first point and ends exactly at the second. */
  lemma Line3Ends(x1: int, y1: int, z1: int, x2: int, y2: int, z2: int)
    ensures Line3(x1, y1, z1, x2, y2, z2)[0] == (x1, y1, z1)
    ensures Line3(x1, y1, z1, x2, y2, z2)[Steps3(x1, y1, z1, x2, y2, z2)] == (x2, y2, z2)
  {
    var s := Steps3(x1, y1, z1, x2, y2, z2);
    if s > 0 {
      AlongEnds(x1, x2 - x1, s);
      AlongEnds(y1, y2 - y1, s);
      AlongEnds(z1, z2 - z1, s);
    }
  }

  lemma AlongAdjacent(start: int, d: int, s: nat, i: int)
    requires s > 0 && IAbs(d) <= s
    ensures IAbs(MillPath.Along(start, d, s, i + 1) - MillPath.Along(start, d, s, i)) <= 1
  {
    assert d * (i + 1) + s / 2 == (d * i + s / 2) + d;
    MillPath.DivStep(d * i + s / 2, d, s);
  }

  /** Consecutive points of a 3-D line differ by at most one on each axis. */
  lemma Line3Adjacent(x1: int, y1: int, z1: int, x2: int, y2: int, z2: int, i: nat)
    requires i < Steps3(x1, y1, z1, x2, y2, z2)
    ensures var p, q := Line3(x1, y1, z1, x2, y2, z2)[i], Line3(x1, y1, z1, x2, y2, z2)[i + 1];
      IAbs(q.0 - p.0) <= 1 && IAbs(q.1 - p.1) <= 1 && IAbs(q.2 - p.2) <= 1
  {
    var s := Steps3(x1, y1, z1, x2, y2, z2);
    AlongAdjacent(x1, x2 - x1, s, i);
    AlongAdjacent(y1, y2 - y1, s, i);
    AlongAdjacent(z1, z2 - z1, s, i);
  }

  /** line_points3: one point per step of the longest axis. */
  method LinePoints3(x1: int, y1: int, z1: int, x2: int, y2: int, z2: int) returns (result: seq<Point3>)
    ensures result == Line3(x1, y1, z1, x2, y2, z2)
  {
    var steps := Steps3(x1, y1, z1, x2, y2, z2);
    if steps == 0 {
      return [(x1, y1, z1)];
    }
    result := [];
    var rounder := steps / 2;
    for i := 0 to steps + 1
      invariant |result| == i
      invariant forall k :: 0 <= k < i ==> result[k] == LinePoint3(x1, y1, z1, x2, y2, z2, k)
    {
      result := result + [(
        x1 + ((x2 - x1) * i + rounder) / steps,
        y1 + ((y2 - y1) * i + rounder) / steps,
        z1 + ((z2 - z1) * i + rounder) / steps)];
    }
  }

  // ---------------------------------------------------------------------
  // Searcher

  predicate NoDup(s: seq<Point2>)
  {
    forall a, b :: 0 <= a < b < |s| ==> s[a] != s[b]
  }

  function Elements(s: seq<Point2>): set<Point2>
  {
    set p | p in s
  }

  /** The points (x + dx, y + dy) for the offsets (dx, dy) of ext. */
  function Offsets(ext: seq<Point2>, x: int, y: int): (r: seq<Point2>)
    ensures |r| == |ext|
  {
    seq(|ext|, k requires 0 <= k < |ext| => (x + ext[k].0, y + ext[k].1))
  }

  /** The items appended by good, in order: each item not yet seen and not
      earlier in the list. */
  function Unseen(items: seq<Point2>, seen: set<Point2>): seq<Point2>
  {
    if |items| == 0 then []
    else
      var front, last := items[..|items| - 1], items[|items| - 1];
      Unseen(front, seen) + (if last in seen || last in front then [] else [last])
  }

  /** The appended items are new, distinct, and together with what was seen
      cover every item. */
  lemma {:induction false} UnseenFacts(items: seq<Point2>, seen: set<Point2>)
    ensures forall p :: p in Unseen(items, seen) ==> p !in seen && p in items
    ensures NoDup(Unseen(items, seen))
    ensures seen + Elements(Unseen(items, seen)) == seen + Elements(items)
  {
    if |items| > 0 {
      var front, last := items[..|items| - 1], items[|items| - 1];
      UnseenFacts(front, seen);
      assert items == front + [last];
      assert Elements(items) == Elements(front) + {last};
      var u := Unseen(front, seen);
      if !(last in seen || last in front) {
        assert Elements(u + [last]) == Elements(u) + {last};
      }
    }
  }

  /** The Searcher: the disc offsets blat to try first, the offsets ext to
      add around a good point, and the work list with its seen set. */
  class Searcher {
    ghost const radius: real
    const blat: seq<Point2>
    const ext: seq<Point2>
    var todo: seq<Point2>
    var seen: set<Point2>
    var i: nat

    /** The work list has no repeats, seen is exactly its items, and the
        cursor is within it. */
    predicate Valid()
      reads this
    {
      seen == Elements(todo) && NoDup(todo) && i <= |todo|
    }

    constructor (r: real, rExt: real)
      ensures radius == r && blat == MillPath.Disk(r) && ext == MillPath.Disk(rExt)
    {
      var b := MillPath.CirclePoints(r);
      var e := MillPath.CirclePoints(rExt);
      radius, blat, ext := r, b, e;
    }

    /** reset: start again from a copy of blat. */
    method Reset()
      requires blat == MillPath.Disk(radius)
      modifies this`todo, this`seen, this`i
      ensures todo == blat && seen == Elements(blat) && i == 0
      ensures Valid()
    {
      todo := blat;
      seen := Elements(todo);
      i := 0;
      MillPath.DiskRowMajor(radius);
    }

    /** next: the item under the cursor, or None (StopIteration) at the end. */
    method Next() returns (item: Option<Point2>)
      requires i <= |todo|
      modifies this`i
      ensures old(i) == |todo| ==> item == None && i == old(i)
      ensures old(i) < |todo| ==> item == Some(todo[old(i)]) && i == old(i) + 1
      ensures old(Valid()) ==> Valid()
    {
      if i == |todo| {
        return None;
      }
      item := Some(todo[i]);
      i := i + 1;
    }

    /** good: queue every offset around (x, y) that has not been seen. */
    method Good(x: int, y: int)
      modifies this`todo, this`seen
      ensures todo == old(todo) + Unseen(Offsets(ext, x, y), old(seen))
      ensures seen == old(seen) + Elements(Offsets(ext, x, y))
      ensures old(Valid()) ==> Valid()
    {
      ghost var todo0, seen0 := todo, seen;
      ghost var items := Offsets(ext, x, y);
      for k := 0 to |ext|
        invariant todo == todo0 + Unseen(items[..k], seen0)
        invariant seen == seen0 + Elements(items[..k])
      {
        var item := (x + ext[k].0, y + ext[k].1);
        assert items[..k + 1] == items[..k] + [item];
        assert Elements(items[..k + 1]) == Elements(items[..k]) + {item};
        if item !in seen {
          todo := todo + [item];
          seen := seen + {item};
        }
      }
      assert items[..|ext|] == items;
      if old(Valid()) {
        AppendUnseen(todo0, items, seen0);
      }
    }
  }

  /** Appending the unseen items to a work list without repeats whose
      items are the seen set keeps it without repeats, and its items are
      then the seen set grown by every item. */
  lemma AppendUnseen(todo: seq<Point2>, items: seq<Point2>, seen: set<Point2>)
    requires seen == Elements(todo) && NoDup(todo)
    ensures NoDup(todo + Unseen(items, seen))
    ensures Elements(todo + Unseen(items, seen)) == seen + Elements(items)
  {
    UnseenFacts(items, seen);
    var u := Unseen(items, seen);
    var t := todo + u;
    assert Elements(t) == Elements(todo) + Elements(u) by {
      assert forall p :: p in t <==> p in todo || p in u;
    }
    forall a, b | 0 <= a < b < |t| ensures t[a] != t[b] {
      if b < |todo| {
        assert t[a] == todo[a] && t[b] == todo[b];
      } else if a < |todo| {
        assert t[a] == todo[a] && t[a] in seen;
        assert t[b] == u[b - |todo|];
      } else {
        assert t[a] == u[a - |todo|] && t[b] == u[b - |todo|];
      }
    }
  }

  // ---------------------------------------------------------------------
  // Raster.move_to

  /** One path entry: a position and whether the move is fast. */
  type Move = (Point3, bool)

  function Dot(a: Point3, b: Point3): int
  {
    a.0 * b.0 + a.1 * b.1 + a.2 * b.2
  }

  function Minus(a: Point3, b: Point3): Point3
  {
    (a.0 - b.0, a.1 - b.1, a.2 - b.2)
  }

  function Cross(a: Point3, b: Point3): Point3
  {
    (a.1 * b.2 - a.2 * b.1, a.2 * b.0 - a.0 * b.2, a.0 * b.1 - a.1 * b.0)
  }

  /** The test of move_to for merging: the new displacement d2 continues
      the previous one d1 in the same direction (dot >= 0 and equality in
      Cauchy-Schwarz). */
  predicate Continues(d1: Point3, d2: Point3)
  {
    Dot(d1, d2) >= 0 && Dot(d1, d2) * Dot(d1, d2) == Dot(d1, d1) * Dot(d2, d2)
  }

  lemma Square3(u: int, v: int, w: int)
    ensures (u + v + w) * (u + v + w) == u * u + v * v + w * w + 2 * (u * v) + 2 * (u * w) + 2 * (v * w)
  {
  }

  lemma SquareDiff(u: int, v: int)
    ensures (u - v) * (u - v) == u * u - 2 * (u * v) + v * v
  {
  }

  lemma Distribute3(x: int, y: int, z: int, w: int)
    ensures (x + y + z) * w == x * w + y * w + z * w
  {
  }

  lemma Regroup(a: int, b: int, p: int, q: int)
    ensures (a * a) * (q * q) == (a * q) * (a * q)
    ensures (a * p) * (b * q) == (a * q) * (b * p)
  {
  }

  /** Lagrange's identity: |d1|^2 |d2|^2 - (d1.d2)^2 == |d1 x d2|^2. */
  lemma Lagrange(d1: Point3, d2: Point3)
    ensures Dot(d1, d1) * Dot(d2, d2) - Dot(d1, d2) * Dot(d1, d2) == Dot(Cross(d1, d2), Cross(d1, d2))
  {
    var (a, b, c) := d1;
    var (p, q, r) := d2;
    var s2 := p * p + q * q + r * r;
    Distribute3(a * a, b * b, c * c, s2);
    Distribute3(p * p, q * q, r * r, a * a);
    Distribute3(p * p, q * q, r * r, b * b);
    Distribute3(p * p, q * q, r * r, c * c);
    assert (a * a) * s2 == s2 * (a * a) && (b * b) * s2 == s2 * (b * b) && (c * c) * s2 == s2 * (c * c);
    Regroup(a, b, p, p); Regroup(a, b, q, q); Regroup(a, b, r, r);
    Regroup(b, c, p, p); Regroup(b, c, q, q); Regroup(b, c, r, r);
    Regroup(c, a, p, p); Regroup(c, a, q, q); Regroup(c, a, r, r);
    assert (p * p) * (a * a) == (a * a) * (p * p) && (q * q) * (a * a) == (a * a) * (q * q) && (r * r) * (a * a) == (a * a) * (r * r);
    assert (p * p) * (b * b) == (b * b) * (p * p) && (q * q) * (b * b) == (b * b) * (q * q) && (r * r) * (b * b) == (b * b) * (r * r);
    assert (p * p) * (c * c) == (c * c) * (p * p) && (q * q) * (c * c) == (c * c) * (q * q) && (r * r) * (c * c) == (c * c) * (r * r);
    Square3(a * p, b * q, c * r);
    SquareDiff(b * r, c * q);
    SquareDiff(c * p, a * r);
    SquareDiff(a * q, b * p);
    Regroup(b, c, r, q);
    Regroup(c, a, p, r);
    Regroup(a, b, q, p);
  }

  lemma SumOfSquaresZero(x: int, y: int, z: int)
    requires x * x + y * y + z * z == 0
    ensures x == 0 && y == 0 && z == 0
  {
    assert x * x >= 0 && y * y >= 0 && z * z >= 0;
  }

  /** A merged move is parallel to the one before: their cross product is zero. */
  lemma ContinuesParallel(d1: Point3, d2: Point3)
    requires Continues(d1, d2)
    ensures Cross(d1, d2) == (0, 0, 0)
  {
    Lagrange(d1, d2);
    var (x, y, z) := Cross(d1, d2);
    SumOfSquaresZero(x, y, z);
  }

  /** A move straight back along the previous one is never merged. */
  lemma ReversalNotMerged(d1: Point3)
    requires d1 != (0, 0, 0)
    ensures !Continues(d1, (-d1.0, -d1.1, -d1.2))
  {
    var (a, b, c) := d1;
    assert Dot(d1, (-a, -b, -c)) == -(a * a + b * b + c * c);
    if a * a + b * b + c * c == 0 {
      SumOfSquaresZero(a, b, c);
    }
  }

  /** The path after move_to to p: unchanged at the current position;
      otherwise p is appended, first dropping the last entry when the last
      two entries have p's speed and p continues their straight run. */
  function Extended(path: seq<Move>, p: Point3, fast: bool): (r: seq<Move>)
    ensures |r| > 0 && r[|r| - 1] == (p, fast)
    ensures r == path + [(p, fast)] || (|path| >= 2 && r == path[..|path| - 1] + [(p, fast)])
  {
    var n := |path|;
    if n >= 2 && path[n - 2].1 == fast && path[n - 1].1 == fast
       && Continues(Minus(path[n - 1].0, path[n - 2].0), Minus(p, path[n - 1].0))
    then path[..n - 1] + [(p, fast)]
    else path + [(p, fast)]
  }

  /** No two consecutive entries of a path are at the same position. */
  predicate NoStall(path: seq<Move>)
  {
    forall k :: 0 <= k < |path| - 1 ==> path[k].0 != path[k + 1].0
  }

  /** Extending a path without stalls by a new position keeps it without
      stalls, also when the last entry is dropped. */
  lemma ExtendedNoStall(path: seq<Move>, p: Point3, fast: bool)
    requires |path| > 0 && NoStall(path) && p != path[|path| - 1].0
    ensures NoStall(Extended(path, p, fast))
  {
    var n := |path|;
    var r := Extended(path, p, fast);
    if n >= 2 && path[n - 2].1 == fast && path[n - 1].1 == fast
       && Continues(Minus(path[n - 1].0, path[n - 2].0), Minus(p, path[n - 1].0)) {
      var d1 := Minus(path[n - 1].0, path[n - 2].0);
      if p == path[n - 2].0 {
        assert d1 != (0, 0, 0);
        assert Minus(p, path[n - 1].0) == (-d1.0, -d1.1, -d1.2);
        ReversalNotMerged(d1);
      }
    }
  }

  /** The path builder of Raster: the current position and the moves so far. */
  class Raster {
    var position: Point3
    var path: seq<Move>

    /** The path ends at the current position and never stalls. */
    predicate Valid()
      reads this
    {
      |path| > 0 && path[|path| - 1].0 == position && NoStall(path)
    }

    /** The start of setup's path: a fast move to the edge clearance at
        the tool-up height. */
    constructor (edgeClearance: int, resToolUp: int)
      ensures position == (edgeClearance, edgeClearance, resToolUp)
      ensures path == [(position, true)]
      ensures Valid()
    {
      position := (edgeClearance, edgeClearance, resToolUp);
      path := [((edgeClearance, edgeClearance, resToolUp), true)];
    }

    /** move_to */
    method MoveTo(x: int, y: int, z: int, fast: bool)
      modifies this
      ensures old(position) == (x, y, z) ==> path == old(path) && position == old(position)
      ensures old(position) != (x, y, z) ==> path == Extended(old(path), (x, y, z), fast)
      ensures position == (x, y, z)
      ensures old(Valid()) ==> Valid()
    {
      if position == (x, y, z) {
        return;
      }
      var n := |path|;
      if n >= 2 && path[n - 2].1 == fast && path[n - 1].1 == fast {
        var dx1 := path[n - 1].0.0 - path[n - 2].0.0;
        var dy1 := path[n - 1].0.1 - path[n - 2].0.1;
        var dz1 := path[n - 1].0.2 - path[n - 2].0.2;
        var dx2 := x - path[n - 1].0.0;
        var dy2 := y - path[n - 1].0.1;
        var dz2 := z - path[n - 1].0.2;
        var dot := dx1 * dx2 + dy1 * dy2 + dz1 * dz2;
        var l1 := dx1 * dx1 + dy1 * dy1 + dz1 * dz1;
        var l2 := dx2 * dx2 + dy2 * dy2 + dz2 * dz2;
        if dot >= 0 && dot * dot == l1 * l2 {
          path := path[..n - 1];
        }
      }
      ghost var before := old(path);
      if old(Valid()) {
        ExtendedNoStall(before, (x, y, z), fast);
      }
      position := (x, y, z);
      path := path + [(position, fast)];
    }
  }
}
