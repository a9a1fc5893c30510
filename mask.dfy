// Boolean bitmaps placed at integer offsets on an unbounded grid, from
// demakein/mask.py: rectangle arithmetic, clipping, pointwise combination,
// run-length spans, morphology, and the scan-conversion in make_mask.

module Mask {
  import opened Common

  /** (x, y, width, height) of a rectangle of cells. */
  datatype Bounds = Bounds(x: int, y: int, width: int, height: int)

  predicate IsEmpty(b: Bounds)
  {
    b.width == 0 || b.height == 0
  }

  /** Cell (px, py) lies in the rectangle. */
  predicate Contains(b: Bounds, px: int, py: int)
  {
    b.x <= px < b.x + b.width && b.y <= py < b.y + b.height
  }

  /** bound_intersection: an empty rectangle defers to the other one. */
  function BoundIntersection(b1: Bounds, b2: Bounds): (r: Bounds)
    ensures IsEmpty(b1) ==> r == b2
    ensures !IsEmpty(b1) && IsEmpty(b2) ==> r == b1
  {
    if IsEmpty(b1) then b2
    else if IsEmpty(b2) then b1
    else
      var x := MaxI(b1.x, b2.x);
      var y := MaxI(b1.y, b2.y);
      var width := MaxI(0, MinI(b1.x + b1.width, b2.x + b2.width) - x);
      var height := MaxI(0, MinI(b1.y + b1.height, b2.y + b2.height) - y);
      Bounds(x, y, width, height)
  }

  /** bound_union: an empty rectangle defers to the other one. */
  function BoundUnion(b1: Bounds, b2: Bounds): (r: Bounds)
    ensures IsEmpty(b1) ==> r == b2
    ensures !IsEmpty(b1) && IsEmpty(b2) ==> r == b1
  {
    if IsEmpty(b1) then b2
    else if IsEmpty(b2) then b1
    else
      var x := MinI(b1.x, b2.x);
      var y := MinI(b1.y, b2.y);
      var width := MaxI(b1.x + b1.width, b2.x + b2.width) - x;
      var height := MaxI(b1.y + b1.height, b2.y + b2.height) - y;
      Bounds(x, y, width, height)
  }

  predicate Sized(b: Bounds)
  {
    b.width >= 0 && b.height >= 0
  }

  /** The intersection of two non-empty rectangles has a non-negative size,
      and when it has cells it lies inside both. */
  lemma IntersectionInside(b1: Bounds, b2: Bounds)
    requires !IsEmpty(b1) && !IsEmpty(b2)
    ensures Sized(BoundIntersection(b1, b2))
    ensures var r := BoundIntersection(b1, b2);
      r.width > 0 && r.height > 0 ==>
        && b1.x <= r.x && r.x + r.width <= b1.x + b1.width && b1.y <= r.y && r.y + r.height <= b1.y + b1.height
        && b2.x <= r.x && r.x + r.width <= b2.x + b2.width && b2.y <= r.y && r.y + r.height <= b2.y + b2.height
  {
  }

  /** For two non-empty rectangles, a cell is in the intersection exactly
      when it is in both. */
  lemma IntersectionContains(b1: Bounds, b2: Bounds, px: int, py: int)
    requires Sized(b1) && Sized(b2) && !IsEmpty(b1) && !IsEmpty(b2)
    ensures Contains(BoundIntersection(b1, b2), px, py) <==> Contains(b1, px, py) && Contains(b2, px, py)
  {
  }

  /** The union contains both rectangles' cells. */
  lemma UnionContains(b1: Bounds, b2: Bounds, px: int, py: int)
    requires Sized(b1) && Sized(b2)
    ensures Sized(BoundUnion(b1, b2))
    ensures Contains(b1, px, py) || Contains(b2, px, py) ==> Contains(BoundUnion(b1, b2), px, py)
  {
  }

  // Big_matrix

  /** A height x width grid of cells whose top-left cell sits at (x, y). */
  datatype BigMatrix = BigMatrix(x: int, y: int, width: nat, height: nat, data: seq<seq<bool>>)

  /** data has the shape (height, width). */
  predicate Valid(m: BigMatrix)
  {
    |m.data| == m.height && forall r :: 0 <= r < m.height ==> |m.data[r]| == m.width
  }

  function BoundsOf(m: BigMatrix): (r: Bounds)
    ensures Sized(r)
  {
    Bounds(m.x, m.y, m.width, m.height)
  }

  /** The cell at absolute (px, py); every cell outside the grid is clear. */
  function Get(m: BigMatrix, px: int, py: int): bool
    requires Valid(m)
  {
    if Contains(BoundsOf(m), px, py) then m.data[py - m.y][px - m.x] else false
  }

  /** Cell (px - dx, py - dy): where (px, py) came from under a shift by
      (dx, dy). */
  function GetFrom(m: BigMatrix, px: int, py: int, dx: int, dy: int): bool
    requires Valid(m)
  {
    Get(m, px - dx, py - dy)
  }

  /** Big_matrix.shift: the same data at a new offset. */
  function Shift(m: BigMatrix, dx: int, dy: int): (r: BigMatrix)
    requires Valid(m)
    ensures Valid(r) && r.data == m.data && r.width == m.width && r.height == m.height
    ensures forall px, py :: Get(r, px, py) == GetFrom(m, px, py, dx, dy)
  {
    BigMatrix(m.x + dx, m.y + dy, m.width, m.height, m.data)
  }

  /** zeros(x, y, width, height). */
  function Zeros(x: int, y: int, width: nat, height: nat): (r: BigMatrix)
    ensures Valid(r) && BoundsOf(r) == Bounds(x, y, width, height)
    ensures forall px, py :: !Get(r, px, py)
  {
    BigMatrix(x, y, width, height, seq(height, _ => seq(width, _ => false)))
  }

  /** ones(x, y, width, height). */
  function Ones(x: int, y: int, width: nat, height: nat): (r: BigMatrix)
    ensures Valid(r) && BoundsOf(r) == Bounds(x, y, width, height)
    ensures forall px, py :: Get(r, px, py) == Contains(Bounds(x, y, width, height), px, py)
  {
    BigMatrix(x, y, width, height, seq(height, _ => seq(width, _ => true)))
  }

  /** Big_matrix.clip: the matrix itself when the bounds already match;
      otherwise a fresh zero grid of the requested bounds into which the
      overlap [x1, x2) x [y1, y2) is copied. */
  function Clip(m: BigMatrix, b: Bounds): (r: BigMatrix)
    requires Valid(m) && Sized(b)
    ensures Valid(r) && BoundsOf(r) == b
    ensures b == BoundsOf(m) ==> r == m
    ensures forall px, py :: Get(r, px, py) == (Contains(b, px, py) && Get(m, px, py))
  {
    if b == BoundsOf(m) then m
    else
      var x1 := MaxI(m.x, b.x);
      var x2 := MinI(m.x + m.width, b.x + b.width);
      var y1 := MaxI(m.y, b.y);
      var y2 := MinI(m.y + m.height, b.y + b.height);
      var r := BigMatrix(b.x, b.y, b.width, b.height,
        seq(b.height, i requires 0 <= i < b.height =>
          seq(b.width, j requires 0 <= j < b.width =>
            if y1 <= b.y + i < y2 && x1 <= b.x + j < x2 then m.data[b.y + i - m.y][b.x + j - m.x] else false)));
      assert forall px, py :: Get(r, px, py) == (Contains(b, px, py) && Get(m, px, py)) by {
        forall px, py
          ensures Get(r, px, py) == (Contains(b, px, py) && Get(m, px, py))
        {
          if Contains(b, px, py) {
            assert r.data[py - b.y][px - b.x] == Get(m, px, py);
          }
        }
      }
      r
  }

  /** The pointwise operations apply passes over two clipped grids. */
  datatype Op = AndOp | OrOp | AndNotOp

  function Combine(op: Op, u: bool, v: bool): bool
  {
    match op
    case AndOp => u && v
    case OrOp => u || v
    case AndNotOp => u && !v
  }

  /** Big_matrix.apply: both grids clipped to bounds and combined cell by
      cell. */
  function Apply(m: BigMatrix, o: BigMatrix, b: Bounds, op: Op): (r: BigMatrix)
    requires Valid(m) && Valid(o) && Sized(b)
    ensures Valid(r) && BoundsOf(r) == b
    ensures forall px, py :: Get(r, px, py) == (Contains(b, px, py) && Combine(op, Get(m, px, py), Get(o, px, py)))
  {
    var a := Clip(m, b);
    var c := Clip(o, b);
    var r := BigMatrix(a.x, a.y, a.width, a.height,
      seq(a.height, i requires 0 <= i < a.height =>
        seq(a.width, j requires 0 <= j < a.width => Combine(op, a.data[i][j], c.data[i][j]))));
    assert forall px, py :: Get(r, px, py) == (Contains(b, px, py) && Combine(op, Get(m, px, py), Get(o, px, py))) by {
      forall px, py
        ensures Get(r, px, py) == (Contains(b, px, py) && Combine(op, Get(m, px, py), Get(o, px, py)))
      {
        if Contains(b, px, py) {
          assert Get(a, px, py) == Get(m, px, py) && Get(c, px, py) == Get(o, px, py);
        }
      }
    }
    r
  }

  /** Big_matrix.__and__: applied over the intersection of the bounds. */
  function And(m: BigMatrix, o: BigMatrix): (r: BigMatrix)
    requires Valid(m) && Valid(o)
    ensures Valid(r)
  {
    IntersectionSized(BoundsOf(m), BoundsOf(o));
    Apply(m, o, BoundIntersection(BoundsOf(m), BoundsOf(o)), AndOp)
  }

  lemma IntersectionSized(b1: Bounds, b2: Bounds)
    requires Sized(b1) && Sized(b2)
    ensures Sized(BoundIntersection(b1, b2))
  {
  }

  /** Big_matrix.__or__: applied over the union of the bounds. */
  function Or(m: BigMatrix, o: BigMatrix): (r: BigMatrix)
    requires Valid(m) && Valid(o)
    ensures Valid(r)
  {
    UnionContains(BoundsOf(m), BoundsOf(o), 0, 0);
    Apply(m, o, BoundUnion(BoundsOf(m), BoundsOf(o)), OrOp)
  }

  /** Big_matrix.and_not: applied over the bounds of the left operand. */
  function AndNot(m: BigMatrix, o: BigMatrix): (r: BigMatrix)
    requires Valid(m) && Valid(o)
    ensures Valid(r) && BoundsOf(r) == BoundsOf(m)
  {
    Apply(m, o, BoundsOf(m), AndNotOp)
  }

  /** A set cell lies inside its grid. */
  lemma GetInside(m: BigMatrix, px: int, py: int)
    requires Valid(m) && Get(m, px, py)
    ensures Contains(BoundsOf(m), px, py) && !IsEmpty(BoundsOf(m))
  {
  }

  /** & is the cellwise conjunction on the whole grid. */
  lemma GetAnd(m: BigMatrix, o: BigMatrix, px: int, py: int)
    requires Valid(m) && Valid(o)
    ensures Get(And(m, o), px, py) == (Get(m, px, py) && Get(o, px, py))
  {
    if Get(m, px, py) && Get(o, px, py) {
      GetInside(m, px, py);
      GetInside(o, px, py);
      IntersectionContains(BoundsOf(m), BoundsOf(o), px, py);
    }
  }

  /** | is the cellwise disjunction on the whole grid. */
  lemma GetOr(m: BigMatrix, o: BigMatrix, px: int, py: int)
    requires Valid(m) && Valid(o)
    ensures Get(Or(m, o), px, py) == (Get(m, px, py) || Get(o, px, py))
  {
    UnionContains(BoundsOf(m), BoundsOf(o), px, py);
    if Get(m, px, py) {
      GetInside(m, px, py);
    }
    if Get(o, px, py) {
      GetInside(o, px, py);
    }
  }

  /** and_not clears the cells set in the right operand. */
  lemma GetAndNot(m: BigMatrix, o: BigMatrix, px: int, py: int)
    requires Valid(m) && Valid(o)
    ensures Get(AndNot(m, o), px, py) == (Get(m, px, py) && !Get(o, px, py))
  {
    if Get(m, px, py) {
      GetInside(m, px, py);
    }
  }

  // spans

  /** A run of cells [x1, x2) of row y, in absolute coordinates. */
  datatype Span = Span(y: int, x1: int, x2: int)

  predicate InSpan(s: Span, px: int, py: int)
  {
    py == s.y && s.x1 <= px < s.x2
  }

  /** A maximal run: non-empty, every cell set, the cells just before and
      just after clear. */
  ghost predicate SpanOk(m: BigMatrix, s: Span)
    requires Valid(m)
  {
    && s.x1 < s.x2
    && (forall px :: s.x1 <= px < s.x2 ==> Get(m, px, s.y))
    && !Get(m, s.x1 - 1, s.y)
    && !Get(m, s.x2, s.y)
  }

  /** Row by row, and left to right with a gap between runs of one row. */
  ghost predicate Ordered(spans: seq<Span>)
  {
    forall k, l :: 0 <= k < l < |spans| ==>
      spans[k].y < spans[l].y || (spans[k].y == spans[l].y && spans[k].x2 < spans[l].x1)
  }

  /** Every set cell in rows before py, or in row py before column px, lies
      in one of the spans. */
  ghost predicate CoveredBefore(m: BigMatrix, spans: seq<Span>, px: int, py: int)
    requires Valid(m)
  {
    forall qx, qy :: Get(m, qx, qy) && (qy < py || (qy == py && qx < px)) ==>
      exists k :: 0 <= k < |spans| && InSpan(spans[k], qx, qy)
  }

  /** Nothing in spans reaches row py at or after column px. */
  ghost predicate SpansBefore(spans: seq<Span>, px: int, py: int)
  {
    forall k :: 0 <= k < |spans| ==> spans[k].y < py || (spans[k].y == py && spans[k].x2 < px)
  }

  /** Big_matrix.spans: the maximal runs of set cells, row by row; together
      they cover exactly the set cells. */
  method Spans(m: BigMatrix) returns (spans: seq<Span>)
    requires Valid(m)
    ensures forall k :: 0 <= k < |spans| ==> SpanOk(m, spans[k])
    ensures forall px, py :: Get(m, px, py) ==> exists k :: 0 <= k < |spans| && InSpan(spans[k], px, py)
    ensures Ordered(spans)
  {
    spans := [];
    for yy := 0 to m.height
      invariant forall k :: 0 <= k < |spans| ==> SpanOk(m, spans[k])
      invariant Ordered(spans)
      invariant CoveredBefore(m, spans, m.x, m.y + yy)
      invariant SpansBefore(spans, m.x, m.y + yy)
    {
      var row := m.data[yy];
      var start := 0;
      for xx := 0 to m.width
        invariant 0 <= start <= xx
        invariant forall c :: start <= c < xx ==> row[c]
        invariant start > 0 ==> !row[start - 1]
        invariant forall k :: 0 <= k < |spans| ==> SpanOk(m, spans[k])
        invariant Ordered(spans)
        invariant CoveredBefore(m, spans, m.x + start, m.y + yy)
        invariant SpansBefore(spans, m.x + start, m.y + yy)
      {
        if !row[xx] {
          if start != xx {
            spans := Emit(m, spans, yy, start, xx);
          }
          CoveredSkip(m, spans, start, xx, yy);
          start := xx + 1;
        }
      }
      if start != m.width {
        spans := Emit(m, spans, yy, start, m.width);
      }
      CoveredRowEnd(m, spans, start, yy);
    }
    CoveredAll(m, spans);
  }

  /** Appending the run [start, end) of row yy. */
  method Emit(m: BigMatrix, spans: seq<Span>, yy: nat, start: nat, end: nat) returns (r: seq<Span>)
    requires Valid(m) && yy < m.height && start < end <= m.width
    requires forall c :: start <= c < end ==> m.data[yy][c]
    requires start > 0 ==> !m.data[yy][start - 1]
    requires end < m.width ==> !m.data[yy][end]
    requires forall k :: 0 <= k < |spans| ==> SpanOk(m, spans[k])
    requires Ordered(spans)
    requires CoveredBefore(m, spans, m.x + start, m.y + yy)
    requires SpansBefore(spans, m.x + start, m.y + yy)
    ensures r == spans + [Span(yy + m.y, start + m.x, end + m.x)]
    ensures forall k :: 0 <= k < |r| ==> SpanOk(m, r[k])
    ensures Ordered(r)
    ensures CoveredBefore(m, r, m.x + end, m.y + yy)
    ensures SpansBefore(r, m.x + end + 1, m.y + yy)
  {
    var s := Span(yy + m.y, start + m.x, end + m.x);
    r := spans + [s];
    assert SpanOk(m, s) by {
      forall px | s.x1 <= px < s.x2
        ensures Get(m, px, s.y)
      {
        assert m.data[yy][px - m.x];
      }
    }
    forall qx, qy | Get(m, qx, qy) && (qy < m.y + yy || (qy == m.y + yy && qx < m.x + end))
      ensures exists k :: 0 <= k < |r| && InSpan(r[k], qx, qy)
    {
      if qy == m.y + yy && qx >= m.x + start {
        assert InSpan(r[|spans|], qx, qy);
      } else {
        var k :| 0 <= k < |spans| && InSpan(spans[k], qx, qy);
        assert r[k] == spans[k];
      }
    }
  }

  /** A clear cell at column xx extends the covered part of the row past it. */
  lemma CoveredSkip(m: BigMatrix, spans: seq<Span>, start: nat, xx: nat, yy: nat)
    requires Valid(m) && yy < m.height && xx < m.width && start <= xx && !m.data[yy][xx]
    requires CoveredBefore(m, spans, m.x + xx, m.y + yy)
    ensures CoveredBefore(m, spans, m.x + xx + 1, m.y + yy)
  {
  }

  /** At the end of a row every set cell of it is covered. */
  lemma CoveredRowEnd(m: BigMatrix, spans: seq<Span>, start: nat, yy: nat)
    requires Valid(m) && yy < m.height
    requires CoveredBefore(m, spans, m.x + m.width, m.y + yy)
    ensures CoveredBefore(m, spans, m.x, m.y + yy + 1)
  {
  }

  lemma CoveredAll(m: BigMatrix, spans: seq<Span>)
    requires Valid(m)
    requires CoveredBefore(m, spans, m.x, m.y + m.height)
    ensures forall px, py :: Get(m, px, py) ==> exists k :: 0 <= k < |spans| && InSpan(spans[k], px, py)
  {
  }

  // morph

  /** The matrix operation behind each cellwise operation. */
  function BinOp(op: Op, a: BigMatrix, b: BigMatrix): (r: BigMatrix)
    requires Valid(a) && Valid(b)
    ensures Valid(r)
    ensures forall px, py :: Get(r, px, py) == Combine(op, Get(a, px, py), Get(b, px, py))
  {
    match op
    case AndOp =>
      (forall px, py ensures Get(And(a, b), px, py) == (Get(a, px, py) && Get(b, px, py)) {
        GetAnd(a, b, px, py);
      }
      And(a, b))
    case OrOp =>
      (forall px, py ensures Get(Or(a, b), px, py) == (Get(a, px, py) || Get(b, px, py)) {
        GetOr(a, b, px, py);
      }
      Or(a, b))
    case AndNotOp =>
      (forall px, py ensures Get(AndNot(a, b), px, py) == (Get(a, px, py) && !Get(b, px, py)) {
        GetAndNot(a, b, px, py);
      }
      AndNot(a, b))
  }

  /** Cell (px, py) of the n-th memo entry of morph: op folded over m shifted
      right by 0, 1, ..., n - 1. */
  function Run(op: Op, m: BigMatrix, n: nat, px: int, py: int): bool
    requires Valid(m) && n >= 1
  {
    if n == 1 then Get(m, px, py) else Combine(op, Run(op, m, n - 1, px, py), GetFrom(m, px, py, n - 1, 0))
  }

  /** The grid mm holds Run(op, m, n). */
  ghost predicate RunGrid(op: Op, m: BigMatrix, n: nat, mm: BigMatrix)
    requires Valid(m) && n >= 1
  {
    Valid(mm) && forall px, py :: Get(mm, px, py) == Run(op, m, n, px, py)
  }

  /** The memo list of morph: None, then the runs of length 1, 2, .... */
  ghost predicate MemoOk(op: Op, m: BigMatrix, memo: seq<Option<BigMatrix>>)
    requires Valid(m)
  {
    && |memo| >= 2 && memo[0].None?
    && forall n :: 1 <= n < |memo| ==> memo[n].Some? && RunGrid(op, m, n, memo[n].value)
  }

  predicate NonEmptySpans(sp: seq<Span>)
  {
    forall k :: 0 <= k < |sp| ==> sp[k].x1 < sp[k].x2
  }

  /** The run for span s placed at s's start. */
  function RunAt(op: Op, m: BigMatrix, s: Span, px: int, py: int): bool
    requires Valid(m) && s.x1 < s.x2
  {
    Run(op, m, s.x2 - s.x1, px - s.x1, py - s.y)
  }

  /** Cell (px, py) of morph's result after the first k spans. */
  function Acc(op: Op, m: BigMatrix, sp: seq<Span>, k: nat, px: int, py: int): bool
    requires Valid(m) && NonEmptySpans(sp) && 1 <= k <= |sp|
  {
    if k == 1 then RunAt(op, m, sp[0], px, py)
    else Combine(op, Acc(op, m, sp, k - 1, px, py), RunAt(op, m, sp[k - 1], px, py))
  }

  /** m at (px, py) less cell t of span s. */
  function SpanCell(m: BigMatrix, px: int, py: int, s: Span, t: int): bool
    requires Valid(m)
  {
    GetFrom(m, px, py, s.x1 + t, s.y)
  }

  /** Cell (px, py) of the dilation: some set mask cell q has m set at p - q. */
  ghost predicate Dilated(m: BigMatrix, mask: BigMatrix, px: int, py: int)
    requires Valid(m) && Valid(mask)
  {
    exists qx, qy :: Get(mask, qx, qy) && GetFrom(m, px, py, qx, qy)
  }

  /** Cell (px, py) of the erosion: every set mask cell q has m set at p - q. */
  ghost predicate Eroded(m: BigMatrix, mask: BigMatrix, px: int, py: int)
    requires Valid(m) && Valid(mask)
  {
    forall qx, qy :: Get(mask, qx, qy) ==> GetFrom(m, px, py, qx, qy)
  }

  /** Big_matrix.morph: op folded over copies of m shifted by every set cell
      of mask, built span by span from a memo of runs; an empty mask fails
      the source's assertion (None). */
  method Morph(m: BigMatrix, mask: BigMatrix, op: Op) returns (r: Option<BigMatrix>)
    requires Valid(m) && Valid(mask)
    ensures r.None? <==> forall px, py :: !Get(mask, px, py)
    ensures r.Some? ==> Valid(r.value)
    ensures r.Some? && op == OrOp ==> forall px, py :: Get(r.value, px, py) == Dilated(m, mask, px, py)
    ensures r.Some? && op == AndOp ==> forall px, py :: Get(r.value, px, py) == Eroded(m, mask, px, py)
  {
    var sp := CoveringSpans(mask);
    var memo: seq<Option<BigMatrix>> := [None, Some(m)];
    r := None;
    for k := 0 to |sp|
      invariant MemoOk(op, m, memo)
      invariant r.None? <==> k == 0
      invariant r.Some? ==> AccGrid(op, m, sp, k, r.value)
    {
      memo, r := MorphStep(op, m, sp, k, memo, r);
    }
    MorphEnd(m, mask, op, sp, r);
  }

  /** One span of morph: fetch (growing the memo) the run of the span's
      length, place it at the span, and fold it into the result. */
  method MorphStep(op: Op, m: BigMatrix, sp: seq<Span>, k: nat, memo: seq<Option<BigMatrix>>, acc: Option<BigMatrix>)
    returns (memo': seq<Option<BigMatrix>>, acc': Option<BigMatrix>)
    requires Valid(m) && NonEmptySpans(sp) && k < |sp| && MemoOk(op, m, memo)
    requires acc.None? <==> k == 0
    requires acc.Some? ==> AccGrid(op, m, sp, k, acc.value)
    ensures MemoOk(op, m, memo') && acc'.Some? && AccGrid(op, m, sp, k + 1, acc'.value)
  {
    var s := sp[k];
    var n := s.x2 - s.x1;
    memo' := EnsureMemo(op, m, memo, n);
    var span := PlaceRun(op, m, memo'[n].value, s);
    if acc.None? {
      acc' := Some(span);
    } else {
      AccStep(op, m, sp, k, acc.value, span);
      acc' := Some(BinOp(op, acc.value, span));
    }
  }

  /** The spans of mask, which cover exactly its set cells. */
  ghost predicate SpansCover(mask: BigMatrix, sp: seq<Span>)
    requires Valid(mask)
  {
    && NonEmptySpans(sp)
    && (forall k :: 0 <= k < |sp| ==> SpanOk(mask, sp[k]))
    && (forall px, py :: Get(mask, px, py) ==> exists k :: 0 <= k < |sp| && InSpan(sp[k], px, py))
  }

  method CoveringSpans(mask: BigMatrix) returns (sp: seq<Span>)
    requires Valid(mask)
    ensures SpansCover(mask, sp)
  {
    sp := Spans(mask);
  }

  /** get_span's memo grown until it holds the run of length n. */
  method EnsureMemo(op: Op, m: BigMatrix, memo: seq<Option<BigMatrix>>, n: nat) returns (r: seq<Option<BigMatrix>>)
    requires Valid(m) && MemoOk(op, m, memo)
    ensures MemoOk(op, m, r) && n < |r|
  {
    r := memo;
    while |r| <= n
      invariant MemoOk(op, m, r)
      decreases n - |r|
    {
      r := GrowMemo(op, m, r);
    }
  }

  /** The grid g holds morph's result after the first k spans. */
  ghost predicate AccGrid(op: Op, m: BigMatrix, sp: seq<Span>, k: nat, g: BigMatrix)
    requires Valid(m) && NonEmptySpans(sp) && 1 <= k <= |sp|
  {
    Valid(g) && forall px, py :: Get(g, px, py) == Acc(op, m, sp, k, px, py)
  }

  lemma AccStep(op: Op, m: BigMatrix, sp: seq<Span>, k: nat, g: BigMatrix, span: BigMatrix)
    requires Valid(m) && NonEmptySpans(sp) && 1 <= k < |sp| && AccGrid(op, m, sp, k, g)
    requires Valid(span) && forall px, py :: Get(span, px, py) == RunAt(op, m, sp[k], px, py)
    ensures AccGrid(op, m, sp, k + 1, BinOp(op, g, span))
  {
  }

  lemma MorphEnd(m: BigMatrix, mask: BigMatrix, op: Op, sp: seq<Span>, r: Option<BigMatrix>)
    requires Valid(m) && Valid(mask) && SpansCover(mask, sp)
    requires r.None? <==> |sp| == 0
    requires r.Some? ==> AccGrid(op, m, sp, |sp|, r.value)
    ensures r.None? <==> forall px, py :: !Get(mask, px, py)
    ensures r.Some? ==> Valid(r.value)
    ensures r.Some? && op == OrOp ==> forall px, py :: Get(r.value, px, py) == Dilated(m, mask, px, py)
    ensures r.Some? && op == AndOp ==> forall px, py :: Get(r.value, px, py) == Eroded(m, mask, px, py)
  {
    if |sp| == 0 {
      forall px, py
        ensures !Get(mask, px, py)
      {
      }
    } else {
      assert Get(mask, sp[0].x1, sp[0].y);
      MorphMeaning(m, mask, op, sp, r.value);
    }
  }

  /** get_span(n).shift(x1, y) for the span s = (y, x1, x2) with n = x2 - x1. */
  function PlaceRun(op: Op, m: BigMatrix, run: BigMatrix, s: Span): (r: BigMatrix)
    requires Valid(m) && s.x1 < s.x2 && RunGrid(op, m, s.x2 - s.x1, run)
    ensures Valid(r) && forall px, py :: Get(r, px, py) == RunAt(op, m, s, px, py)
  {
    var r := Shift(run, s.x1, s.y);
    assert forall px, py :: Get(r, px, py) == RunAt(op, m, s, px, py) by {
      forall px, py
        ensures Get(r, px, py) == RunAt(op, m, s, px, py)
      {
        assert Get(r, px, py) == Get(run, px - s.x1, py - s.y);
      }
    }
    r
  }

  /** get_span's growth step: one more shifted copy folded in. */
  method GrowMemo(op: Op, m: BigMatrix, memo: seq<Option<BigMatrix>>) returns (r: seq<Option<BigMatrix>>)
    requires Valid(m) && MemoOk(op, m, memo)
    ensures MemoOk(op, m, r) && |r| == |memo| + 1
  {
    var n := |memo|;
    var last := memo[n - 1].value;
    var next := BinOp(op, last, Shift(m, n - 1, 0));
    GrowRun(op, m, n, last, next);
    r := memo + [Some(next)];
    MemoExtend(op, m, memo, next);
  }

  /** Folding the n-th shifted copy into the run of n - 1 gives the run of n. */
  lemma GrowRun(op: Op, m: BigMatrix, n: nat, last: BigMatrix, next: BigMatrix)
    requires Valid(m) && n >= 2 && RunGrid(op, m, n - 1, last) && Valid(next)
    requires forall px, py :: Get(next, px, py) == Combine(op, Get(last, px, py), Get(Shift(m, n - 1, 0), px, py))
    ensures RunGrid(op, m, n, next)
  {
    forall px, py
      ensures Get(next, px, py) == Run(op, m, n, px, py)
    {
      assert Get(Shift(m, n - 1, 0), px, py) == GetFrom(m, px, py, n - 1, 0);
    }
  }

  lemma MemoExtend(op: Op, m: BigMatrix, memo: seq<Option<BigMatrix>>, next: BigMatrix)
    requires Valid(m) && MemoOk(op, m, memo) && RunGrid(op, m, |memo|, next)
    ensures MemoOk(op, m, memo + [Some(next)])
  {
    var r := memo + [Some(next)];
    forall j | 1 <= j < |r|
      ensures r[j].Some? && RunGrid(op, m, j, r[j].value)
    {
      if j < |memo| {
        assert r[j] == memo[j];
      }
    }
  }

  /** With spans that cover exactly the mask's set cells, the fold over all of
      them is the dilation (for |) or the erosion (for &). */
  lemma MorphMeaning(m: BigMatrix, mask: BigMatrix, op: Op, sp: seq<Span>, r: BigMatrix)
    requires Valid(m) && Valid(mask) && Valid(r) && 1 <= |sp| && NonEmptySpans(sp)
    requires forall k :: 0 <= k < |sp| ==> SpanOk(mask, sp[k])
    requires forall px, py :: Get(mask, px, py) ==> exists k :: 0 <= k < |sp| && InSpan(sp[k], px, py)
    requires forall px, py :: Get(r, px, py) == Acc(op, m, sp, |sp|, px, py)
    ensures op == OrOp ==> forall px, py :: Get(r, px, py) == Dilated(m, mask, px, py)
    ensures op == AndOp ==> forall px, py :: Get(r, px, py) == Eroded(m, mask, px, py)
  {
    if op == OrOp {
      forall px, py
        ensures Get(r, px, py) == Dilated(m, mask, px, py)
      {
        DilatedCell(m, mask, sp, px, py);
      }
    } else if op == AndOp {
      forall px, py
        ensures Get(r, px, py) == Eroded(m, mask, px, py)
      {
        ErodedCell(m, mask, sp, px, py);
      }
    }
  }

  lemma DilatedCell(m: BigMatrix, mask: BigMatrix, sp: seq<Span>, px: int, py: int)
    requires Valid(m) && Valid(mask) && 1 <= |sp| && NonEmptySpans(sp)
    requires forall k :: 0 <= k < |sp| ==> SpanOk(mask, sp[k])
    requires forall px, py :: Get(mask, px, py) ==> exists k :: 0 <= k < |sp| && InSpan(sp[k], px, py)
    ensures Acc(OrOp, m, sp, |sp|, px, py) == Dilated(m, mask, px, py)
  {
    AccOr(m, sp, |sp|, px, py);
    if Acc(OrOp, m, sp, |sp|, px, py) {
      var j, t :| 0 <= j < |sp| && 0 <= t < sp[j].x2 - sp[j].x1 && SpanCell(m, px, py, sp[j], t);
      assert Get(mask, sp[j].x1 + t, sp[j].y);
    }
    if Dilated(m, mask, px, py) {
      var qx, qy :| Get(mask, qx, qy) && GetFrom(m, px, py, qx, qy);
      var j :| 0 <= j < |sp| && InSpan(sp[j], qx, qy);
      assert SpanCell(m, px, py, sp[j], qx - sp[j].x1);
    }
  }

  lemma ErodedCell(m: BigMatrix, mask: BigMatrix, sp: seq<Span>, px: int, py: int)
    requires Valid(m) && Valid(mask) && 1 <= |sp| && NonEmptySpans(sp)
    requires forall k :: 0 <= k < |sp| ==> SpanOk(mask, sp[k])
    requires forall px, py :: Get(mask, px, py) ==> exists k :: 0 <= k < |sp| && InSpan(sp[k], px, py)
    ensures Acc(AndOp, m, sp, |sp|, px, py) == Eroded(m, mask, px, py)
  {
    AccAnd(m, sp, |sp|, px, py);
    if Acc(AndOp, m, sp, |sp|, px, py) {
      forall qx, qy | Get(mask, qx, qy)
        ensures GetFrom(m, px, py, qx, qy)
      {
        var j :| 0 <= j < |sp| && InSpan(sp[j], qx, qy);
        assert SpanCell(m, px, py, sp[j], qx - sp[j].x1);
      }
    }
    if Eroded(m, mask, px, py) {
      forall j, t | 0 <= j < |sp| && 0 <= t < sp[j].x2 - sp[j].x1
        ensures SpanCell(m, px, py, sp[j], t)
      {
        assert Get(mask, sp[j].x1 + t, sp[j].y);
      }
    }
  }

  /** A run under | is set when one of its shifted copies is. */
  lemma {:induction false} RunOr(m: BigMatrix, n: nat, px: int, py: int)
    requires Valid(m) && n >= 1
    ensures Run(OrOp, m, n, px, py) <==> exists t :: 0 <= t < n && GetFrom(m, px, py, t, 0)
  {
    if n > 1 {
      RunOr(m, n - 1, px, py);
    } else {
      assert GetFrom(m, px, py, 0, 0) == Get(m, px, py);
    }
  }

  /** A run under & is set when all its shifted copies are. */
  lemma {:induction false} RunAnd(m: BigMatrix, n: nat, px: int, py: int)
    requires Valid(m) && n >= 1
    ensures Run(AndOp, m, n, px, py) <==> forall t :: 0 <= t < n ==> GetFrom(m, px, py, t, 0)
  {
    if n > 1 {
      RunAnd(m, n - 1, px, py);
    } else {
      assert GetFrom(m, px, py, 0, 0) == Get(m, px, py);
    }
  }

  /** The run of span s at p, cell by cell. */
  lemma RunAtCells(m: BigMatrix, s: Span, px: int, py: int)
    requires Valid(m) && s.x1 < s.x2
    ensures forall t :: 0 <= t < s.x2 - s.x1 ==> GetFrom(m, px - s.x1, py - s.y, t, 0) == SpanCell(m, px, py, s, t)
  {
  }

  lemma {:induction false} AccOr(m: BigMatrix, sp: seq<Span>, k: nat, px: int, py: int)
    requires Valid(m) && NonEmptySpans(sp) && 1 <= k <= |sp|
    ensures Acc(OrOp, m, sp, k, px, py) <==>
      exists j, t :: 0 <= j < k && 0 <= t < sp[j].x2 - sp[j].x1 && SpanCell(m, px, py, sp[j], t)
  {
    if k > 1 {
      AccOr(m, sp, k - 1, px, py);
    }
    var s := sp[k - 1];
    var n := s.x2 - s.x1;
    RunOr(m, n, px - s.x1, py - s.y);
    RunAtCells(m, s, px, py);
    if Acc(OrOp, m, sp, k, px, py) {
      if k > 1 && Acc(OrOp, m, sp, k - 1, px, py) {
        var j, t :| 0 <= j < k - 1 && 0 <= t < sp[j].x2 - sp[j].x1 && SpanCell(m, px, py, sp[j], t);
        assert 0 <= j < k;
      } else {
        assert RunAt(OrOp, m, s, px, py);
        var t :| 0 <= t < n && GetFrom(m, px - s.x1, py - s.y, t, 0);
        assert SpanCell(m, px, py, sp[k - 1], t);
      }
    }
    if exists j, t :: 0 <= j < k && 0 <= t < sp[j].x2 - sp[j].x1 && SpanCell(m, px, py, sp[j], t) {
      var j, t :| 0 <= j < k && 0 <= t < sp[j].x2 - sp[j].x1 && SpanCell(m, px, py, sp[j], t);
      if j < k - 1 {
        assert Acc(OrOp, m, sp, k - 1, px, py);
      } else {
        assert GetFrom(m, px - s.x1, py - s.y, t, 0);
        assert RunAt(OrOp, m, s, px, py);
      }
    }
  }

  lemma {:induction false} AccAnd(m: BigMatrix, sp: seq<Span>, k: nat, px: int, py: int)
    requires Valid(m) && NonEmptySpans(sp) && 1 <= k <= |sp|
    ensures Acc(AndOp, m, sp, k, px, py) <==>
      forall j, t :: 0 <= j < k && 0 <= t < sp[j].x2 - sp[j].x1 ==> SpanCell(m, px, py, sp[j], t)
  {
    if k > 1 {
      AccAnd(m, sp, k - 1, px, py);
    }
    var s := sp[k - 1];
    var n := s.x2 - s.x1;
    RunAnd(m, n, px - s.x1, py - s.y);
    RunAtCells(m, s, px, py);
    if Acc(AndOp, m, sp, k, px, py) {
      forall j, t | 0 <= j < k && 0 <= t < sp[j].x2 - sp[j].x1
        ensures SpanCell(m, px, py, sp[j], t)
      {
        if j == k - 1 {
          assert GetFrom(m, px - s.x1, py - s.y, t, 0);
        }
      }
    }
    if forall j, t :: 0 <= j < k && 0 <= t < sp[j].x2 - sp[j].x1 ==> SpanCell(m, px, py, sp[j], t) {
      var qx, qy := px - s.x1, py - s.y;
      forall t | 0 <= t < n
        ensures GetFrom(m, qx, qy, t, 0)
      {
        assert SpanCell(m, px, py, sp[k - 1], t);
      }
      assert RunAt(AndOp, m, s, px, py);
    }
  }

  /** dilate: morph with |. */
  method Dilate(m: BigMatrix, mask: BigMatrix) returns (r: Option<BigMatrix>)
    requires Valid(m) && Valid(mask)
    ensures r.None? <==> forall px, py :: !Get(mask, px, py)
    ensures r.Some? ==> Valid(r.value) && forall px, py :: Get(r.value, px, py) == Dilated(m, mask, px, py)
  {
    r := Morph(m, mask, OrOp);
  }

  /** erode: morph with &. */
  method Erode(m: BigMatrix, mask: BigMatrix) returns (r: Option<BigMatrix>)
    requires Valid(m) && Valid(mask)
    ensures r.None? <==> forall px, py :: !Get(mask, px, py)
    ensures r.Some? ==> Valid(r.value) && forall px, py :: Get(r.value, px, py) == Eroded(m, mask, px, py)
  {
    r := Morph(m, mask, AndOp);
  }

  // make_mask

  /** A segment (x1, y1) -> (x2, y2) of an outline. */
  datatype Segment = Segment(x1: real, y1: real, x2: real, y2: real)

  function Flip(s: Segment): Segment
  {
    Segment(s.x2, s.y2, s.x1, s.y1)
  }

  /** int_ceil. */
  function Ceil(v: real): (r: int)
    ensures v <= r as real < v + 1.0
  {
    -((-v).Floor)
  }

  /** make_mask's dictionary key for s, drawn left to right, and the count s
      adds to it: 1 when s already runs left to right, else -1. */
  function Normalise(s: Segment): (r: (Segment, int))
    ensures r.0.x1 <= r.0.x2
    ensures r.1 == 1 ==> r.0 == s
    ensures r.1 == -1 ==> r.0 == Flip(s)
    ensures r.1 == 1 || r.1 == -1
  {
    if s.x1 < s.x2 then (s, 1) else (Flip(s), -1)
  }

  /** line_count[key] after the segments of lines: the signed number of
      segments whose key is key. */
  function Tally(lines: seq<Segment>, key: Segment): int
  {
    if |lines| == 0 then 0
    else
      var (k, n) := Normalise(lines[|lines| - 1]);
      Tally(lines[..|lines| - 1], key) + (if k == key then n else 0)
  }

  lemma {:induction false} TallyAppend(a: seq<Segment>, b: seq<Segment>, key: Segment)
    ensures Tally(a + b, key) == Tally(a, key) + Tally(b, key)
  {
    if |b| > 0 {
      assert (a + b)[..|a + b| - 1] == a + b[..|b| - 1];
      TallyAppend(a, b[..|b| - 1], key);
    } else {
      assert a + b == a;
    }
  }

  /** A segment traversed once in each direction adds nothing to any key's
      count (a vertical one is skipped when drawing, see Hit). */
  lemma NetZero(a: seq<Segment>, s: Segment, b: seq<Segment>, key: Segment)
    requires s.x1 != s.x2
    ensures Tally(a + [s, Flip(s)] + b, key) == Tally(a + b, key)
  {
    TallyAppend(a + [s, Flip(s)], b, key);
    TallyAppend(a, [s, Flip(s)], key);
    TallyAppend(a, b, key);
    assert [s, Flip(s)][..1] == [s];
    assert [s][..0] == [];
    assert Flip(Flip(s)) == s;
    assert Normalise(Flip(s)) == (Normalise(s).0, -Normalise(s).1);
    assert Tally([s], key) == if Normalise(s).0 == key then Normalise(s).1 else 0;
    assert Tally([s, Flip(s)], key) == 0;
  }

  /** The keys of line_count in insertion order. */
  function Keys(lines: seq<Segment>): seq<Segment>
  {
    if |lines| == 0 then []
    else
      var front := Keys(lines[..|lines| - 1]);
      var k := Normalise(lines[|lines| - 1]).0;
      if k in front then front else front + [k]
  }

  /** Every key comes from some segment. */
  lemma {:induction false} KeyFromLine(lines: seq<Segment>, k: Segment)
    requires k in Keys(lines)
    ensures exists i :: 0 <= i < |lines| && Normalise(lines[i]).0 == k
  {
    var front := lines[..|lines| - 1];
    if k in Keys(front) {
      KeyFromLine(front, k);
      var i :| 0 <= i < |front| && Normalise(front[i]).0 == k;
      assert front[i] == lines[i];
    } else {
      assert Normalise(lines[|lines| - 1]).0 == k;
    }
  }

  /** Every segment's key is a key. */
  lemma {:induction false} LineKeyIn(lines: seq<Segment>, i: nat)
    requires i < |lines|
    ensures Normalise(lines[i]).0 in Keys(lines)
  {
    var front := lines[..|lines| - 1];
    if i < |lines| - 1 {
      LineKeyIn(front, i);
      assert front[i] == lines[i];
    }
  }

  lemma {:induction false} KeysDistinct(lines: seq<Segment>)
    ensures forall i, j :: 0 <= i < j < |Keys(lines)| ==> Keys(lines)[i] != Keys(lines)[j]
  {
    if |lines| > 0 {
      KeysDistinct(lines[..|lines| - 1]);
    }
  }

  /** The dictionary loop of make_mask: keys in insertion order and
      line_count. */
  method CountLines(lines: seq<Segment>) returns (keys: seq<Segment>, count: map<Segment, int>)
    ensures keys == Keys(lines)
    ensures forall k :: k in count <==> k in keys
    ensures forall k :: k in count ==> count[k] == Tally(lines, k)
  {
    keys, count := [], map[];
    for i := 0 to |lines|
      invariant keys == Keys(lines[..i])
      invariant forall k :: k in count <==> k in keys
      invariant forall k :: k in count ==> count[k] == Tally(lines[..i], k)
    {
      assert lines[..i + 1][..i] == lines[..i];
      var s := lines[i];
      var n, key;
      if s.x1 < s.x2 {
        n, key := 1, s;
      } else {
        n, key := -1, Flip(s);
      }
      var old_n := if key in count then count[key] else 0;
      if key !in keys {
        keys := keys + [key];
        TallyAbsent(lines[..i], key);
      }
      count := count[key := old_n + n];
    }
    assert lines[..|lines|] == lines;
  }

  lemma {:induction false} TallyAbsent(lines: seq<Segment>, key: Segment)
    requires key !in Keys(lines)
    ensures Tally(lines, key) == 0
  {
    if |lines| > 0 {
      TallyAbsent(lines[..|lines| - 1], key);
    }
  }

  /** line_param's slope and intercept (0, y1 for a vertical segment). */
  function LineParam(k: Segment): (real, real)
  {
    if k.x2 == k.x1 then (0.0, k.y1)
    else
      var m := (k.y2 - k.y1) / (k.x2 - k.x1);
      (m, k.y1 - m * k.x1)
  }

  /** The row make_mask marks in column x for the key k. */
  function LineY(k: Segment, x: int): int
  {
    var (m, c) := LineParam(k);
    Ceil(m * x as real + c)
  }

  /** Within a segment's x-range its line stays between the end heights, so
      the row drawn lies between their ceilings. */
  lemma LineYBetween(k: Segment, x: int)
    requires k.x1 <= x as real < k.x2
    ensures Ceil(MinR(k.y1, k.y2)) <= LineY(k, x) <= Ceil(MaxR(k.y1, k.y2))
  {
    var d := k.x2 - k.x1;
    var t := x as real - k.x1;
    var m := (k.y2 - k.y1) / d;
    assert m * d == k.y2 - k.y1;
    var v := m * x as real + (k.y1 - m * k.x1);
    assert v == k.y1 + m * t;
    Between(m, t, d, k.y1, k.y2);
  }

  lemma Between(m: real, t: real, d: real, y1: real, y2: real)
    requires 0.0 <= t < d && m * d == y2 - y1
    ensures MinR(y1, y2) <= y1 + m * t <= MaxR(y1, y2)
  {
    assert m * (d - t) == m * d - m * t;
    if m >= 0.0 {
      MulNonneg(m, t);
      MulNonneg(m, d - t);
    } else {
      MulNonneg(-m, t);
      MulNonneg(-m, d - t);
      assert (-m) * t == -(m * t) && (-m) * (d - t) == -(m * (d - t));
    }
  }

  lemma MulNonneg(a: real, b: real)
    requires a >= 0.0 && b >= 0.0
    ensures a * b >= 0.0
  {
  }

  /** Key k with count n marks cell (c, r) of the count array based at
      (x0, y0) before the running sums: n is not zero, x = x0 + c lies in
      range(ceil(x1), ceil(x2)) and y0 + r is the line's row at x. */
  predicate Hit(k: Segment, n: int, x0: int, y0: int, c: int, r: int)
  {
    n != 0 && Ceil(k.x1) <= x0 + c < Ceil(k.x2) && LineY(k, x0 + c) == y0 + r
  }

  /** What the first i keys add to cell (c, r) of the count array based at
      (x0, y0). */
  function Delta(lines: seq<Segment>, keys: seq<Segment>, i: nat, x0: int, y0: int, c: int, r: int): int
    requires i <= |keys|
  {
    if i == 0 then 0
    else
      var k := keys[i - 1];
      var n := Tally(lines, k);
      Delta(lines, keys, i - 1, x0, y0, c, r) + (if Hit(k, n, x0, y0, c, r) then n else 0)
  }

  /** count[r][c] after the running sums down the rows: the marks of rows 0
      to r of column c. */
  function ColumnSum(lines: seq<Segment>, x0: int, y0: int, c: int, r: nat): int
  {
    var keys := Keys(lines);
    if r == 0 then Delta(lines, keys, |keys|, x0, y0, c, 0)
    else ColumnSum(lines, x0, y0, c, r - 1) + Delta(lines, keys, |keys|, x0, y0, c, r)
  }

  /** Every endpoint of k lies within the grid at (x0, y0) of width w and
      height h. */
  predicate InGrid(k: Segment, x0: int, y0: int, w: int, h: int)
  {
    && x0 as real <= MinR(k.x1, k.x2) && MaxR(k.x1, k.x2) <= (x0 + w - 1) as real
    && y0 as real <= MinR(k.y1, k.y2) && MaxR(k.y1, k.y2) <= (y0 + h - 1) as real
  }

  /** Draws one key: adds n to count at each column of its x-range, in the
      row of its line there. */
  method DrawKey(count: array2<int>, k: Segment, n: int, x0: int, y0: int)
    requires InGrid(k, x0, y0, count.Length1, count.Length0) && k.x1 <= k.x2
    modifies count
    ensures forall r, c :: 0 <= r < count.Length0 && 0 <= c < count.Length1 ==>
      count[r, c] == old(count[r, c]) + (if Hit(k, n, x0, y0, c, r) then n else 0)
  {
    if n == 0 {
      return;
    }
    var ix1, ix2 := Ceil(k.x1), Ceil(k.x2);
    if ix1 == ix2 {
      return;
    }
    assert ix1 <= ix2;
    for x := ix1 to ix2
      invariant forall r, c :: 0 <= r < count.Length0 && 0 <= c < count.Length1 ==>
        count[r, c] == old(count[r, c]) + (if Hit(k, n, x0, y0, c, r) && x0 + c < x then n else 0)
    {
      LineYBetween(k, x);
      var y := LineY(k, x);
      count[y - y0, x - x0] := count[y - y0, x - x0] + n;
    }
  }

  /** The drawing loop over line_count's items. */
  method DrawAll(count: array2<int>, lines: seq<Segment>, keys: seq<Segment>, cnt: map<Segment, int>, x0: int, y0: int)
    requires forall k :: k in keys ==> k in cnt && cnt[k] == Tally(lines, k)
    requires forall k :: k in keys ==> k.x1 <= k.x2 && InGrid(k, x0, y0, count.Length1, count.Length0)
    requires forall r, c :: 0 <= r < count.Length0 && 0 <= c < count.Length1 ==> count[r, c] == 0
    modifies count
    ensures forall r, c :: 0 <= r < count.Length0 && 0 <= c < count.Length1 ==>
      count[r, c] == Delta(lines, keys, |keys|, x0, y0, c, r)
  {
    for i := 0 to |keys|
      invariant forall r, c :: 0 <= r < count.Length0 && 0 <= c < count.Length1 ==>
        count[r, c] == Delta(lines, keys, i, x0, y0, c, r)
    {
      var k := keys[i];
      DrawKey(count, k, cnt[k], x0, y0);
    }
  }

  /** The marks all keys of lines leave in cell (c, r) before the running
      sums. */
  function Marks(lines: seq<Segment>, x0: int, y0: int, c: int, r: int): int
  {
    var keys := Keys(lines);
    Delta(lines, keys, |keys|, x0, y0, c, r)
  }

  /** Row r of count holds the running sums. */
  ghost predicate Summed(count: array2<int>, r: nat, lines: seq<Segment>, x0: int, y0: int)
    reads count
    requires r < count.Length0
  {
    forall c :: 0 <= c < count.Length1 ==> count[r, c] == ColumnSum(lines, x0, y0, c, r)
  }

  /** Running sum of row y - 1 into row y (count[y] += count[y-1]). */
  method AccumulateRow(count: array2<int>, y: nat, lines: seq<Segment>, x0: int, y0: int)
    requires 1 <= y < count.Length0
    requires Summed(count, y - 1, lines, x0, y0)
    requires forall c :: 0 <= c < count.Length1 ==> count[y, c] == Marks(lines, x0, y0, c, y)
    modifies count
    ensures forall c :: 0 <= c < count.Length1 ==> count[y, c] == ColumnSum(lines, x0, y0, c, y)
    ensures forall r, c :: 0 <= r < count.Length0 && r != y && 0 <= c < count.Length1 ==> count[r, c] == old(count[r, c])
  {
    for c := 0 to count.Length1
      invariant forall c' :: 0 <= c' < c ==> count[y, c'] == ColumnSum(lines, x0, y0, c', y)
      invariant forall c' :: c <= c' < count.Length1 ==> count[y, c'] == Marks(lines, x0, y0, c', y)
      invariant forall r, c' :: 0 <= r < count.Length0 && r != y && 0 <= c' < count.Length1 ==> count[r, c'] == old(count[r, c'])
    {
      count[y, c] := count[y, c] + count[y - 1, c];
    }
  }

  /** The running sums down the rows: afterwards each cell holds the marks
      of its column from row 0 down to it. */
  method Accumulate(count: array2<int>, lines: seq<Segment>, x0: int, y0: int)
    requires forall r, c :: 0 <= r < count.Length0 && 0 <= c < count.Length1 ==> count[r, c] == Marks(lines, x0, y0, c, r)
    modifies count
    ensures forall r, c :: 0 <= r < count.Length0 && 0 <= c < count.Length1 ==> count[r, c] == ColumnSum(lines, x0, y0, c, r)
  {
    if count.Length0 == 0 {
      return;
    }
    for y := 1 to count.Length0
      invariant forall r, c :: 0 <= r < y && r < count.Length0 && 0 <= c < count.Length1 ==> count[r, c] == ColumnSum(lines, x0, y0, c, r)
      invariant forall r, c :: y <= r < count.Length0 && 0 <= c < count.Length1 ==> count[r, c] == Marks(lines, x0, y0, c, r)
    {
      AccumulateRow(count, y, lines, x0, y0);
    }
  }

  /** count > 0, cell by cell. */
  function Positive(count: array2<int>): (d: seq<seq<bool>>)
    reads count
    ensures |d| == count.Length0
    ensures forall r :: 0 <= r < count.Length0 ==> |d[r]| == count.Length1
    ensures forall r, c :: 0 <= r < count.Length0 && 0 <= c < count.Length1 ==> d[r][c] == (count[r, c] > 0)
  {
    seq(count.Length0, r requires 0 <= r < count.Length0 reads count =>
      seq(count.Length1, c requires 0 <= c < count.Length1 reads count => count[r, c] > 0))
  }

  function LowXs(lines: seq<Segment>): seq<real>
  {
    seq(|lines|, i requires 0 <= i < |lines| => MinR(lines[i].x1, lines[i].x2))
  }

  function HighXs(lines: seq<Segment>): seq<real>
  {
    seq(|lines|, i requires 0 <= i < |lines| => MaxR(lines[i].x1, lines[i].x2))
  }

  function LowYs(lines: seq<Segment>): seq<real>
  {
    seq(|lines|, i requires 0 <= i < |lines| => MinR(lines[i].y1, lines[i].y2))
  }

  function HighYs(lines: seq<Segment>): seq<real>
  {
    seq(|lines|, i requires 0 <= i < |lines| => MaxR(lines[i].y1, lines[i].y2))
  }

  /** Every key lies in the grid when every segment does, and runs left to
      right. */
  lemma KeysInGrid(lines: seq<Segment>, x0: int, y0: int, w: int, h: int)
    requires forall i :: 0 <= i < |lines| ==> InGrid(lines[i], x0, y0, w, h)
    ensures forall k :: k in Keys(lines) ==> k.x1 <= k.x2 && InGrid(k, x0, y0, w, h)
  {
    var keys := Keys(lines);
    forall k | k in keys
      ensures k.x1 <= k.x2 && InGrid(k, x0, y0, w, h)
    {
      KeyFromLine(lines, k);
      var i :| 0 <= i < |lines| && Normalise(lines[i]).0 == k;
      assert InGrid(lines[i], x0, y0, w, h);
    }
  }

  /** make_mask's base_x, base_y, width and height: from the floor of the
      lowest coordinates to the ceiling of the highest. The grid holds every
      segment, and is tight: a coordinate lies below x0 + 1 and one above
      x0 + w - 2 (likewise in y), so no grid shrunk by a column or a row on
      any side would hold them all. */
  method Extent(lines: seq<Segment>) returns (x0: int, y0: int, w: nat, h: nat)
    requires |lines| > 0
    ensures forall i :: 0 <= i < |lines| ==> InGrid(lines[i], x0, y0, w, h)
    ensures exists i :: 0 <= i < |lines| && MinR(lines[i].x1, lines[i].x2) < (x0 + 1) as real
    ensures exists i :: 0 <= i < |lines| && MaxR(lines[i].x1, lines[i].x2) > (x0 + w - 2) as real
    ensures exists i :: 0 <= i < |lines| && MinR(lines[i].y1, lines[i].y2) < (y0 + 1) as real
    ensures exists i :: 0 <= i < |lines| && MaxR(lines[i].y1, lines[i].y2) > (y0 + h - 2) as real
  {
    x0 := MinSeq(LowXs(lines)).Floor;
    y0 := MinSeq(LowYs(lines)).Floor;
    assert LowXs(lines)[0] <= HighXs(lines)[0] && LowYs(lines)[0] <= HighYs(lines)[0];
    w := Ceil(MaxSeq(HighXs(lines))) - x0 + 1;
    h := Ceil(MaxSeq(HighYs(lines))) - y0 + 1;
    forall i | 0 <= i < |lines|
      ensures InGrid(lines[i], x0, y0, w, h)
    {
      assert LowXs(lines)[i] == MinR(lines[i].x1, lines[i].x2);
      assert HighXs(lines)[i] == MaxR(lines[i].x1, lines[i].x2);
      assert LowYs(lines)[i] == MinR(lines[i].y1, lines[i].y2);
      assert HighYs(lines)[i] == MaxR(lines[i].y1, lines[i].y2);
    }
    var a :| 0 <= a < |lines| && LowXs(lines)[a] == MinSeq(LowXs(lines));
    assert MinR(lines[a].x1, lines[a].x2) < (x0 + 1) as real;
    var b :| 0 <= b < |lines| && HighXs(lines)[b] == MaxSeq(HighXs(lines));
    assert MaxR(lines[b].x1, lines[b].x2) > (x0 + w - 2) as real;
    var c :| 0 <= c < |lines| && LowYs(lines)[c] == MinSeq(LowYs(lines));
    assert MinR(lines[c].y1, lines[c].y2) < (y0 + 1) as real;
    var d :| 0 <= d < |lines| && HighYs(lines)[d] == MaxSeq(HighYs(lines));
    assert MaxR(lines[d].y1, lines[d].y2) > (y0 + h - 2) as real;
  }

  /** A grid edge that bounds every value and lies within one cell of one of
      them is the floor of the least value (lows) or the ceiling of the
      greatest (highs). */
  lemma TightIsFloorCeil(lows: seq<real>, highs: seq<real>, x0: int, w: int)
    requires |lows| > 0 && |highs| > 0
    requires forall i :: 0 <= i < |lows| ==> x0 as real <= lows[i]
    requires forall i :: 0 <= i < |highs| ==> highs[i] <= (x0 + w - 1) as real
    requires exists i :: 0 <= i < |lows| && lows[i] < (x0 + 1) as real
    requires exists i :: 0 <= i < |highs| && highs[i] > (x0 + w - 2) as real
    ensures x0 == MinSeq(lows).Floor && x0 + w - 1 == Ceil(MaxSeq(highs))
  {
    var a :| 0 <= a < |lows| && lows[a] < (x0 + 1) as real;
    assert x0 as real <= MinSeq(lows) <= lows[a];
    var b :| 0 <= b < |highs| && highs[b] > (x0 + w - 2) as real;
    var m :| 0 <= m < |highs| && highs[m] == MaxSeq(highs);
    assert highs[b] <= MaxSeq(highs) <= (x0 + w - 1) as real;
  }

  /** Any grid that holds every segment and is tight on all four edges, as
      Extent's is, starts at the floors of the lowest coordinates and ends
      at the ceilings of the highest: the grid make_mask computes. */
  lemma ExtentFloorCeil(lines: seq<Segment>, x0: int, y0: int, w: int, h: int)
    requires |lines| > 0
    requires forall i :: 0 <= i < |lines| ==> InGrid(lines[i], x0, y0, w, h)
    requires exists i :: 0 <= i < |lines| && MinR(lines[i].x1, lines[i].x2) < (x0 + 1) as real
    requires exists i :: 0 <= i < |lines| && MaxR(lines[i].x1, lines[i].x2) > (x0 + w - 2) as real
    requires exists i :: 0 <= i < |lines| && MinR(lines[i].y1, lines[i].y2) < (y0 + 1) as real
    requires exists i :: 0 <= i < |lines| && MaxR(lines[i].y1, lines[i].y2) > (y0 + h - 2) as real
    ensures x0 == MinSeq(LowXs(lines)).Floor && x0 + w - 1 == Ceil(MaxSeq(HighXs(lines)))
    ensures y0 == MinSeq(LowYs(lines)).Floor && y0 + h - 1 == Ceil(MaxSeq(HighYs(lines)))
  {
    var a :| 0 <= a < |lines| && MinR(lines[a].x1, lines[a].x2) < (x0 + 1) as real;
    var b :| 0 <= b < |lines| && MaxR(lines[b].x1, lines[b].x2) > (x0 + w - 2) as real;
    var c :| 0 <= c < |lines| && MinR(lines[c].y1, lines[c].y2) < (y0 + 1) as real;
    var d :| 0 <= d < |lines| && MaxR(lines[d].y1, lines[d].y2) > (y0 + h - 2) as real;
    assert LowXs(lines)[a] < (x0 + 1) as real && HighXs(lines)[b] > (x0 + w - 2) as real;
    assert LowYs(lines)[c] < (y0 + 1) as real && HighYs(lines)[d] > (y0 + h - 2) as real;
    forall i | 0 <= i < |lines|
      ensures x0 as real <= LowXs(lines)[i] && HighXs(lines)[i] <= (x0 + w - 1) as real
      ensures y0 as real <= LowYs(lines)[i] && HighYs(lines)[i] <= (y0 + h - 1) as real
    {
      assert InGrid(lines[i], x0, y0, w, h);
    }
    TightIsFloorCeil(LowXs(lines), HighXs(lines), x0, w);
    TightIsFloorCeil(LowYs(lines), HighYs(lines), y0, h);
  }

  /** make_mask: the cells enclosed by the outline lines, as a grid from
      the floor of the lowest coordinates to the ceiling of the highest.
      Each cell is set when the signed count of segments crossing its
      column at or above it is positive; no lines (where min() raises)
      gives None. */
  method MakeMask(lines: seq<Segment>) returns (r: Option<BigMatrix>)
    ensures r.None? <==> |lines| == 0
    ensures r.Some? ==> Valid(r.value)
    ensures r.Some? ==> forall i :: 0 <= i < |lines| ==> InGrid(lines[i], r.value.x, r.value.y, r.value.width, r.value.height)
    ensures r.Some? ==> forall row, c :: 0 <= row < r.value.height && 0 <= c < r.value.width ==>
      r.value.data[row][c] == (ColumnSum(lines, r.value.x, r.value.y, c, row) > 0)
  {
    if |lines| == 0 {
      return None;
    }
    var x0, y0, w, h := Extent(lines);
    var keys, cnt := CountLines(lines);
    KeysInGrid(lines, x0, y0, w, h);
    var count := new int[h, w]((r, c) => 0);
    DrawAll(count, lines, keys, cnt, x0, y0);
    Accumulate(count, lines, x0, y0);
    r := Some(BigMatrix(x0, y0, w, h, Positive(count)));
  }

  /** Delta depends on the tallies only. */
  lemma {:induction false} DeltaSameTally(l1: seq<Segment>, l2: seq<Segment>, keys: seq<Segment>, i: nat, x0: int, y0: int, c: int, r: int)
    requires i <= |keys| && forall k :: Tally(l1, k) == Tally(l2, k)
    ensures Delta(l1, keys, i, x0, y0, c, r) == Delta(l2, keys, i, x0, y0, c, r)
  {
    if i > 0 {
      DeltaSameTally(l1, l2, keys, i - 1, x0, y0, c, r);
    }
  }

  /** Delta over the first i keys ignores the keys after them. */
  lemma {:induction false} DeltaPrefix(lines: seq<Segment>, keys: seq<Segment>, more: seq<Segment>, i: nat, x0: int, y0: int, c: int, r: int)
    requires i <= |keys|
    ensures Delta(lines, keys + more, i, x0, y0, c, r) == Delta(lines, keys, i, x0, y0, c, r)
  {
    if i > 0 {
      DeltaPrefix(lines, keys, more, i - 1, x0, y0, c, r);
    }
  }

  /** Appending a segment and its reverse adds at most its key, at the end
      of line_count's keys. */
  lemma KeysPair(lines: seq<Segment>, s: Segment)
    requires s.x1 != s.x2
    ensures var key := Normalise(s).0;
      Keys(lines + [s, Flip(s)]) == if key in Keys(lines) then Keys(lines) else Keys(lines) + [key]
  {
    var l2 := lines + [s, Flip(s)];
    var key := Normalise(s).0;
    assert Flip(Flip(s)) == s;
    assert Normalise(Flip(s)).0 == key;
    assert l2[..|l2| - 1] == lines + [s];
    assert (lines + [s])[..|lines|] == lines;
    var keys1 := Keys(lines + [s]);
    assert keys1 == if key in Keys(lines) then Keys(lines) else Keys(lines) + [key];
  }

  lemma TallyPair(lines: seq<Segment>, s: Segment)
    requires s.x1 != s.x2
    ensures forall k :: Tally(lines + [s, Flip(s)], k) == Tally(lines, k)
  {
    forall k
      ensures Tally(lines + [s, Flip(s)], k) == Tally(lines, k)
    {
      NetZero(lines, s, [], k);
      assert lines + [s, Flip(s)] + [] == lines + [s, Flip(s)] && lines + [] == lines;
    }
  }

  /** Appending a segment and its reverse leaves every cell's marks as they
      were: the pair nets to zero in line_count, and a key whose count is
      zero draws nothing. */
  lemma MarksNetZero(lines: seq<Segment>, s: Segment, x0: int, y0: int, c: int, r: int)
    requires s.x1 != s.x2
    ensures Marks(lines + [s, Flip(s)], x0, y0, c, r) == Marks(lines, x0, y0, c, r)
  {
    var l2 := lines + [s, Flip(s)];
    var key := Normalise(s).0;
    var keys := Keys(lines);
    TallyPair(lines, s);
    KeysPair(lines, s);
    DeltaSameTally(l2, lines, keys, |keys|, x0, y0, c, r);
    if key !in keys {
      TallyAbsent(lines, key);
      var keys2 := keys + [key];
      assert !Hit(key, Tally(l2, key), x0, y0, c, r);
      assert Delta(l2, keys2, |keys2|, x0, y0, c, r) == Delta(l2, keys2, |keys|, x0, y0, c, r);
      DeltaPrefix(l2, keys, [key], |keys|, x0, y0, c, r);
    }
  }

  /** So the mask cell is unchanged too. */
  lemma {:induction false} ColumnNetZero(lines: seq<Segment>, s: Segment, x0: int, y0: int, c: int, r: nat)
    requires s.x1 != s.x2
    ensures ColumnSum(lines + [s, Flip(s)], x0, y0, c, r) == ColumnSum(lines, x0, y0, c, r)
  {
    MarksNetZero(lines, s, x0, y0, c, r);
    if r > 0 {
      ColumnNetZero(lines, s, x0, y0, c, r - 1);
    }
  }

}
