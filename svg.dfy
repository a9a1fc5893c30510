// The drawing surface of demakein/svg.py: a bounding box widened by every
// point a drawing command needs, and the list of drawing commands. Commands
// are kept as values; their textual SVG form is not modelled.

module Svg {
  import opened Common
  import Profiles

  type Point = (real, real)

  datatype Command =
    | Circle(cx: real, cy: real, radius: real, stroke: string)
    | Polyline(points: seq<Point>, color: string, width: real)
    | Polygon(points: seq<Point>, color: string, width: real)
    | Text(x: real, y: real, text: string, color: string)

  /** The page layout save() computes from the bounding box. */
  datatype Layout = Layout(scale: real, pad: real, width: real, height: real, transX: real, transY: real)

  /** Points scaled by f in x and negated in y: the two halves of a drawn profile. */
  function Mirrored(points: seq<Point>, f: real): (r: seq<Point>)
    ensures |r| == |points|
    ensures forall k :: 0 <= k < |points| ==> r[k].0 == f * points[k].0 && r[k].1 == -points[k].1
  {
    seq(|points|, k requires 0 <= k < |points| => (f * points[k].0, -points[k].1))
  }

  /** The points SVG.profile draws for breakpoint i: the low value for every
      breakpoint but the first, and the high value for the first and for any
      interior breakpoint whose two sides differ. */
  function Contribution(p: Profiles.Profile, i: nat): seq<Point>
    requires Profiles.WellFormed(p) && i < |p.pos|
  {
    (if i > 0 then [(p.low[i], p.pos[i])] else []) +
    (if i == 0 || (p.low[i] != p.high[i] && i < |p.pos| - 1) then [(p.high[i], p.pos[i])] else [])
  }

  /** The contributions of breakpoints 0 .. m-1, in order. */
  function ProfilePointsUpTo(p: Profiles.Profile, m: nat): seq<Point>
    requires Profiles.WellFormed(p) && m <= |p.pos|
  {
    if m == 0 then [] else ProfilePointsUpTo(p, m - 1) + Contribution(p, m - 1)
  }

  /** A profile without steps is drawn through one point per breakpoint: the
      high value at the first and the low value at every other. */
  lemma {:induction false} ContinuousProfilePoints(p: Profiles.Profile, m: nat)
    requires Profiles.WellFormed(p) && p.low == p.high && m <= |p.pos|
    ensures |ProfilePointsUpTo(p, m)| == m
    ensures forall k :: 0 <= k < m ==> ProfilePointsUpTo(p, m)[k] == (p.low[k], p.pos[k])
  {
    if m > 0 {
      ContinuousProfilePoints(p, m - 1);
      assert Contribution(p, m - 1) == [(p.low[m - 1], p.pos[m - 1])];
    }
  }

  /** A step (low != high) at an interior breakpoint is drawn as two points at
      the same position, low then high. */
  lemma StepDrawnTwice(p: Profiles.Profile, i: nat)
    requires Profiles.WellFormed(p) && 0 < i < |p.pos| - 1 && p.low[i] != p.high[i]
    ensures ProfilePointsUpTo(p, i + 1) ==
      ProfilePointsUpTo(p, i) + [(p.low[i], p.pos[i]), (p.high[i], p.pos[i])]
  {
  }

  /** The points loop of SVG.profile. */
  method ProfilePoints(p: Profiles.Profile) returns (points: seq<Point>)
    requires Profiles.WellFormed(p)
    ensures points == ProfilePointsUpTo(p, |p.pos|)
  {
    points := [];
    for i := 0 to |p.pos|
      invariant points == ProfilePointsUpTo(p, i)
    {
      if i > 0 {
        points := points + [(p.low[i], p.pos[i])];
      }
      if i == 0 || (p.low[i] != p.high[i] && i < |p.pos| - 1) {
        points := points + [(p.high[i], p.pos[i])];
      }
    }
  }

  /** Every point of req lies inside [x0, x1] x [y0, y1]. */
  ghost predicate Covers(req: seq<Point>, x0: real, x1: real, y0: real, y1: real)
  {
    |req| == 0 ||
    (Covers(req[..|req| - 1], x0, x1, y0, y1) &&
     x0 <= req[|req| - 1].0 <= x1 && y0 <= req[|req| - 1].1 <= y1)
  }

  /** Covers holds of a larger box too. */
  lemma {:induction false} CoversWiden(req: seq<Point>, x0: real, x1: real, y0: real, y1: real,
                                       u0: real, u1: real, v0: real, v1: real)
    requires Covers(req, x0, x1, y0, y1) && u0 <= x0 && x1 <= u1 && v0 <= y0 && y1 <= v1
    ensures Covers(req, u0, u1, v0, v1)
  {
    if |req| > 0 {
      CoversWiden(req[..|req| - 1], x0, x1, y0, y1, u0, u1, v0, v1);
    }
  }

  lemma CoversExtend(req: seq<Point>, x0: real, x1: real, y0: real, y1: real, x: real, y: real)
    requires Covers(req, x0, x1, y0, y1)
    ensures Covers(req + [(x, y)], MinR(x0, x), MaxR(x1, x), MinR(y0, y), MaxR(y1, y))
  {
    CoversWiden(req, x0, x1, y0, y1, MinR(x0, x), MaxR(x1, x), MinR(y0, y), MaxR(y1, y));
    assert (req + [(x, y)])[..|req|] == req;
  }

  /** Covers, point by point. */
  lemma {:induction false} CoversEach(req: seq<Point>, x0: real, x1: real, y0: real, y1: real)
    requires Covers(req, x0, x1, y0, y1)
    ensures forall k :: 0 <= k < |req| ==> x0 <= req[k].0 <= x1 && y0 <= req[k].1 <= y1
  {
    if |req| > 0 {
      CoversEach(req[..|req| - 1], x0, x1, y0, y1);
    }
  }

  /** Points of req at the four given indices attain the four bounds. */
  ghost predicate Attains(req: seq<Point>, i0: nat, i1: nat, j0: nat, j1: nat,
                          x0: real, x1: real, y0: real, y1: real)
  {
    i0 < |req| && i1 < |req| && j0 < |req| && j1 < |req| &&
    req[i0].0 == x0 && req[i1].0 == x1 && req[j0].1 == y0 && req[j1].1 == y1
  }

  lemma AttainsExtend(req: seq<Point>, i0: nat, i1: nat, j0: nat, j1: nat,
                      x0: real, x1: real, y0: real, y1: real, x: real, y: real)
    returns (k0: nat, k1: nat, l0: nat, l1: nat)
    requires Attains(req, i0, i1, j0, j1, x0, x1, y0, y1)
    ensures Attains(req + [(x, y)], k0, k1, l0, l1, MinR(x0, x), MaxR(x1, x), MinR(y0, y), MaxR(y1, y))
  {
    var n := |req|;
    k0 := if x < x0 then n else i0;
    k1 := if x > x1 then n else i1;
    l0 := if y < y0 then n else j0;
    l1 := if y > y1 then n else j1;
  }

  class SVG {
    /** False while min_x is None, before the first require. */
    var hasBox: bool
    var minX: real
    var maxX: real
    var minY: real
    var maxY: real
    var commands: seq<Command>
    /** Every point required so far, and where each bound is attained. */
    ghost var required: seq<Point>
    ghost var atMinX: nat
    ghost var atMaxX: nat
    ghost var atMinY: nat
    ghost var atMaxY: nat

    /** The box is the exact bounding box of the required points. */
    ghost predicate Valid()
      reads this
    {
      (hasBox <==> |required| > 0) &&
      (hasBox ==>
        Attains(required, atMinX, atMaxX, atMinY, atMaxY, minX, maxX, minY, maxY) &&
        Covers(required, minX, maxX, minY, maxY))
    }

    constructor ()
      ensures Valid() && !hasBox && commands == [] && required == []
    {
      hasBox := false;
      minX, maxX, minY, maxY := 0.0, 0.0, 0.0, 0.0;
      commands := [];
      required := [];
      atMinX, atMaxX, atMinY, atMaxY := 0, 0, 0, 0;
    }

    /** SVG.require(x, y): the first call makes a degenerate box at the point,
        later calls widen the box to include it. */
    method Require(x: real, y: real)
      requires Valid()
      modifies this
      ensures Valid() && hasBox
      ensures required == old(required) + [(x, y)] && commands == old(commands)
      ensures !old(hasBox) ==> minX == x == maxX && minY == y == maxY
      ensures old(hasBox) ==>
        minX == MinR(old(minX), x) && maxX == MaxR(old(maxX), x) &&
        minY == MinR(old(minY), y) && maxY == MaxR(old(maxY), y)
    {
      var n := |required|;
      var x0, x1, y0, y1 := x, x, y, y;
      ghost var i0, i1, j0, j1 := n, n, n, n;
      if hasBox {
        CoversExtend(required, minX, maxX, minY, maxY, x, y);
        i0, i1, j0, j1 := AttainsExtend(required, atMinX, atMaxX, atMinY, atMaxY, minX, maxX, minY, maxY, x, y);
        x0, x1, y0, y1 := MinR(minX, x), MaxR(maxX, x), MinR(minY, y), MaxR(maxY, y);
      }
      hasBox, minX, maxX, minY, maxY := true, x0, x1, y0, y1;
      required, atMinX, atMaxX, atMinY, atMaxY := required + [(x, y)], i0, i1, j0, j1;
    }

    /** The `for x, y in points: self.require(x, y)` loop of line and polygon. */
    method RequireAll(points: seq<Point>)
      requires Valid()
      modifies this
      ensures Valid()
      ensures required == old(required) + points && commands == old(commands)
      ensures hasBox == (old(hasBox) || |points| > 0)
    {
      for i := 0 to |points|
        invariant Valid()
        invariant required == old(required) + points[..i] && commands == old(commands)
        invariant hasBox == (old(hasBox) || i > 0)
      {
        Require(points[i].0, points[i].1);
        assert points[..i + 1] == points[..i] + [points[i]];
      }
      assert points[..|points|] == points;
    }

    /** SVG.circle: requires the two corners of the circle's square and draws it. */
    method DrawCircle(x: real, y: real, diameter: real, stroke: string)
      requires Valid()
      modifies this
      ensures Valid() && hasBox
      ensures var r := diameter * 0.5;
        required == old(required) + [(x - r, y - r), (x + r, y + r)] &&
        commands == old(commands) + [Circle(x, y, r, stroke)]
    {
      var radius := diameter * 0.5;
      Require(x - radius, y - radius);
      Require(x + radius, y + radius);
      commands := commands + [Circle(x, y, radius, stroke)];
    }

    /** SVG.line: requires every point and appends one polyline. */
    method Line(points: seq<Point>, color: string, width: real)
      requires Valid()
      modifies this
      ensures Valid() && hasBox == (old(hasBox) || |points| > 0)
      ensures required == old(required) + points
      ensures commands == old(commands) + [Polyline(points, color, width)]
    {
      RequireAll(points);
      commands := commands + [Polyline(points, color, width)];
    }

    /** SVG.polygon: requires every point and appends one polygon. */
    method DrawPolygon(points: seq<Point>, color: string, width: real)
      requires Valid()
      modifies this
      ensures Valid() && hasBox == (old(hasBox) || |points| > 0)
      ensures required == old(required) + points
      ensures commands == old(commands) + [Polygon(points, color, width)]
    {
      RequireAll(points);
      commands := commands + [Polygon(points, color, width)];
    }

    /** SVG.profile: the profile's points drawn twice, mirrored about the axis
        (x scaled by 0.5 and -0.5, position negated as y). */
    method DrawProfile(p: Profiles.Profile, color: string)
      requires Valid() && Profiles.WellFormed(p)
      modifies this
      ensures Valid()
      ensures var pts := ProfilePointsUpTo(p, |p.pos|);
        commands == old(commands) + [Polyline(Mirrored(pts, 0.5), color, 0.25),
                                     Polyline(Mirrored(pts, -0.5), color, 0.25)] &&
        required == old(required) + Mirrored(pts, 0.5) + Mirrored(pts, -0.5)
    {
      var points := ProfilePoints(p);
      Line(Mirrored(points, 0.5), color, 0.25);
      Line(Mirrored(points, -0.5), color, 0.25);
    }

    /** SVG.text: requires the text's extent (8 units high, 0.8 * 8 wide per
        character) and returns the y of the next line, 8 units up. */
    method DrawText(x: real, y: real, text: string, color: string) returns (next: real)
      requires Valid()
      modifies this
      ensures Valid() && hasBox && next == y - 8.0
      ensures var yy := y + 4.0;
        required == old(required) + [(x, yy - 8.0), (x + (|text| as real) * 8.0 * 0.8, yy)] &&
        commands == old(commands) + [Text(x, yy, text, color)]
    {
      var fontHeight := 8.0;
      var yy := y + fontHeight * 0.5;
      Require(x, yy - fontHeight);
      Require(x + (|text| as real) * fontHeight * 0.8, yy);
      commands := commands + [Text(x, yy, text, color)];
      next := y - fontHeight;
    }

    /** The page arithmetic of SVG.save: 90 dpi, and a pad of 10% of the
        larger extent on every side. */
    function PageLayout(): (l: Layout)
      reads this
      requires hasBox
      ensures l.width == (maxX - minX) + 2.0 * l.pad && l.height == (maxY - minY) + 2.0 * l.pad
      ensures l.pad == 0.1 * MaxR(maxX - minX, maxY - minY)
    {
      var pad := MaxR(maxX - minX, maxY - minY) * 0.1;
      Layout(90.0 / 25.4, pad, maxX - minX + pad * 2.0, maxY - minY + pad * 2.0, -minX + pad, -minY + pad)
    }

    /** After translation every required point lies on the page, at least pad
        from each edge. */
    lemma PageContainsRequired()
      requires Valid() && hasBox
      ensures var l := PageLayout();
        l.pad >= 0.0 &&
        forall k :: 0 <= k < |required| ==>
          l.pad <= required[k].0 + l.transX <= l.width - l.pad &&
          l.pad <= required[k].1 + l.transY <= l.height - l.pad
    {
      assert minX <= required[atMinX].0 <= maxX && minY <= required[atMinY].1 <= maxY;
      assert required[atMaxX].0 == maxX && required[atMaxY].1 == maxY;
      CoversEach(required, minX, maxX, minY, maxY);
    }
  }
}
