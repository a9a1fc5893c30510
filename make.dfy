// Cut planning for jointed instruments: where the joints go, how the cuts
// are mirrored for an instrument made top-down, the socket window at each
// cut, the pieces a division produces, and the cut fractions handed to the
// segment planner for milling.

module Make {
  import opened Common
  import opened Profiles
  import Packing

  /** The parts of a designed instrument that cut planning reads. */
  datatype Instrument = Instrument(holePositions: seq<real>, holeDiameters: seq<real>)

  /** A division entry (hole, above): a joint between hole and hole + 1,
      at fraction above of the clear space; hole -1 is below the first
      hole. */
  predicate HoleOk(inst: Instrument, hole: int)
  {
    |inst.holeDiameters| == |inst.holePositions| && -1 <= hole < |inst.holePositions|
  }

  /** Python's s[i], negative i counting from the end. */
  function PyIndex(s: seq<real>, i: int): (r: real)
    requires -|s| <= i < |s|
    ensures r in s
  {
    if i >= 0 then s[i] else s[|s| + i]
  }

  /** The low end of the clear space: two hole diameters above the hole,
      or the bottom of the instrument. */
  function LowerBound(inst: Instrument, hole: int): real
    requires HoleOk(inst, hole)
  {
    if hole >= 0 then inst.holePositions[hole] + 2.0 * inst.holeDiameters[hole] else 0.0
  }

  /** The high end of the clear space as written: it keeps two diameters of
      hole `hole` (not of hole + 1) below hole + 1, and for hole -1 the
      negative index reads the last hole's diameter. */
  function UpperBoundAsWritten(inst: Instrument, length: real, hole: int): real
    requires HoleOk(inst, hole)
  {
    if hole < |inst.holePositions| - 1 then inst.holePositions[hole + 1] - 2.0 * PyIndex(inst.holeDiameters, hole)
    else length
  }

  /** The high end of the clear space: two diameters of the hole above, or
      the top of the instrument. */
  function UpperBound(inst: Instrument, length: real, hole: int): real
    requires HoleOk(inst, hole)
  {
    if hole < |inst.holePositions| - 1 then inst.holePositions[hole + 1] - 2.0 * inst.holeDiameters[hole + 1]
    else length
  }

  /** The cut for one division entry: lower + (upper - lower) * above. */
  function Cut(inst: Instrument, length: real, hole: int, above: real): real
    requires HoleOk(inst, hole)
  {
    var lower := LowerBound(inst, hole);
    lower + (UpperBound(inst, length, hole) - lower) * above
  }

  /** A cut lies in the clear space between the holes: at least two of its
      own diameters above the hole below and two of its own diameters below
      the hole above, or within the instrument's ends. */
  lemma CutClear(inst: Instrument, length: real, hole: int, above: real)
    requires HoleOk(inst, hole) && 0.0 <= above <= 1.0
    requires LowerBound(inst, hole) <= UpperBound(inst, length, hole)
    ensures var c := Cut(inst, length, hole, above);
      && (hole >= 0 ==> c >= inst.holePositions[hole] + 2.0 * inst.holeDiameters[hole])
      && (hole < 0 ==> c >= 0.0)
      && (hole + 1 < |inst.holePositions| ==> c <= inst.holePositions[hole + 1] - 2.0 * inst.holeDiameters[hole + 1])
      && (hole + 1 == |inst.holePositions| ==> c <= length)
  {
    var lower, upper := LowerBound(inst, hole), UpperBound(inst, length, hole);
    MulNonneg(upper - lower, above);
    MulNonneg(upper - lower, 1.0 - above);
    assert (upper - lower) * above + (upper - lower) * (1.0 - above) == upper - lower;
  }

  /** The endpoints of the clear space are reached at above = 0 and 1. */
  lemma CutEnds(inst: Instrument, length: real, hole: int)
    requires HoleOk(inst, hole)
    ensures Cut(inst, length, hole, 0.0) == LowerBound(inst, hole)
    ensures Cut(inst, length, hole, 1.0) == UpperBound(inst, length, hole)
  {
  }

  /** As written, a cut at above = 1 between holes 0 and 1 (positions 10
      and 50, diameters 2 and 8) lands 4 below hole 1, inside the 16 of
      clearance its diameter calls for; below the first hole the last
      hole's diameter is used. */
  lemma UpperBoundAsWrittenTooClose()
    ensures var inst := Instrument([10.0, 50.0], [2.0, 8.0]);
      && UpperBoundAsWritten(inst, 100.0, 0) == 46.0
      && 50.0 - UpperBoundAsWritten(inst, 100.0, 0) < 2.0 * inst.holeDiameters[1]
      && UpperBound(inst, 100.0, 0) == 34.0
    ensures var inst := Instrument([30.0, 60.0], [4.0, 10.0]);
      UpperBoundAsWritten(inst, 100.0, -1) == 10.0 && UpperBound(inst, 100.0, -1) == 22.0
  {
  }

  /** Every hole index named by the divisions is a valid one. */
  predicate DivisionsOk(inst: Instrument, divisions: seq<seq<(int, real)>>)
  {
    forall d, j :: 0 <= d < |divisions| && 0 <= j < |divisions[d]| ==> HoleOk(inst, divisions[d][j].0)
  }

  /** One list per division with one cut per (hole, above) pair, in
      order. */
  function AllCuts(inst: Instrument, length: real, divisions: seq<seq<(int, real)>>): (r: seq<seq<real>>)
    requires DivisionsOk(inst, divisions)
    ensures |r| == |divisions|
    ensures forall d :: 0 <= d < |divisions| ==> |r[d]| == |divisions[d]|
  {
    seq(|divisions|, d requires 0 <= d < |divisions| =>
      seq(|divisions[d]|, j requires 0 <= j < |divisions[d]| => Cut(inst, length, divisions[d][j].0, divisions[d][j].1)))
  }

  /** get_cuts, filling the nested lists in loops. */
  method GetCuts(inst: Instrument, length: real, divisions: seq<seq<(int, real)>>) returns (result: seq<seq<real>>)
    requires DivisionsOk(inst, divisions)
    ensures result == AllCuts(inst, length, divisions)
  {
    result := [];
    for d := 0 to |divisions|
      invariant |result| == d
      invariant forall e :: 0 <= e < d ==> |result[e]| == |divisions[e]|
      invariant forall e, j :: 0 <= e < d && 0 <= j < |divisions[e]| ==>
        result[e][j] == Cut(inst, length, divisions[e][j].0, divisions[e][j].1)
    {
      var cuts: seq<real> := [];
      for j := 0 to |divisions[d]|
        invariant |cuts| == j
        invariant forall i :: 0 <= i < j ==> cuts[i] == Cut(inst, length, divisions[d][i].0, divisions[d][i].1)
      {
        var (hole, above) := divisions[d][j];
        var lower := if hole >= 0 then inst.holePositions[hole] + 2.0 * inst.holeDiameters[hole] else 0.0;
        var upper := if hole < |inst.holePositions| - 1 then inst.holePositions[hole + 1] - 2.0 * inst.holeDiameters[hole + 1] else length;
        cuts := cuts + [lower + (upper - lower) * above];
      }
      result := result + [cuts];
    }
    assert forall d :: 0 <= d < |divisions| ==> result[d] == AllCuts(inst, length, divisions)[d];
  }

  // segment

  /** The cuts of an instrument made top-down: length - cut, in reverse
      order. */
  function UpCuts(length: real, cuts: seq<real>): (r: seq<real>)
    ensures |r| == |cuts|
  {
    seq(|cuts|, k requires 0 <= k < |cuts| => length - cuts[|cuts| - 1 - k])
  }

  /** Mirroring keeps ascending cuts ascending. */
  lemma UpCutsSorted(length: real, cuts: seq<real>)
    requires Sorted(cuts)
    ensures Sorted(UpCuts(length, cuts))
  {
    var r := UpCuts(length, cuts);
    forall i, j | 0 <= i < j < |r|
      ensures r[i] <= r[j]
    {
      assert cuts[|cuts| - 1 - j] <= cuts[|cuts| - 1 - i];
    }
  }

  /** Mirroring keeps cuts within [0, length], and mirroring twice gives the
      cuts back. */
  lemma UpCutsInvolution(length: real, cuts: seq<real>)
    ensures UpCuts(length, UpCuts(length, cuts)) == cuts
    ensures (forall k :: 0 <= k < |cuts| ==> 0.0 <= cuts[k] <= length) ==>
      forall k :: 0 <= k < |cuts| ==> 0.0 <= UpCuts(length, cuts)[k] <= length
  {
    var r := UpCuts(length, UpCuts(length, cuts));
    assert forall k :: 0 <= k < |cuts| ==> r[k] == cuts[k];
  }

  /** The joint styles; any other name is an error. */
  datatype Join = Weld | Straight | Taper

  function JoinOf(name: string): (r: Result<Join>)
    ensures r.Ok? <==> name in {"weld", "straight", "taper"}
  {
    if name == "weld" then Ok(Weld)
    else if name == "straight" then Ok(Straight)
    else if name == "taper" then Ok(Taper)
    else Err("Unknown join type: " + name)
  }

  /** The z range of a socket. */
  datatype Window = Window(p1: real, p3: real)

  /** The socket window at a cut of outer diameter d4: 0.8 * d4 long,
      ending at the cut, or starting at it when made bottom-up with a
      socket joint. */
  function SocketWindow(cut: real, d4: real, up: bool, join: Join): (w: Window)
    ensures w.p3 - w.p1 == 0.8 * d4
    ensures up || join == Weld ==> w.p3 == cut
    ensures !up && join != Weld ==> w.p1 == cut
  {
    var sockLength := d4 * 0.8;
    if !up && join != Weld then Window(cut - sockLength + sockLength, cut + sockLength)
    else Window(cut - sockLength, cut)
  }

  /** The cuts in the orientation the instrument is made in. */
  function Oriented(length: real, cuts: seq<real>, up: bool): (r: seq<real>)
    ensures |r| == |cuts|
  {
    if up then UpCuts(length, cuts) else cuts
  }

  /** The outer profile in that orientation: reversed and moved up by the
      length when made top-down. */
  function OuterOriented(outer: Profile, length: real, up: bool): (r: Profile)
    requires WellFormed(outer)
    ensures WellFormed(r)
  {
    if up then Moved(Reversed(outer), length) else outer
  }

  /** Made top-down, the socket at the mirrored cut has the outer diameter
      the instrument has at the original cut (taken from the other side of
      a step). */
  lemma UpSocketDiameter(outer: Profile, length: real, cut: real)
    requires WellFormed(outer) && StrictlySorted(outer.pos)
    ensures Eval(OuterOriented(outer, length, true), length - cut, false) == Eval(outer, cut, true)
  {
    assert OuterOriented(outer, length, true) == Moved(Reversed(outer), length);
    MovedReversed(outer, length, length - cut, -cut, cut);
  }

  lemma MovedReversed(outer: Profile, length: real, z: real, w: real, cut: real)
    requires WellFormed(outer) && StrictlySorted(outer.pos) && w == z - length && cut == -w
    ensures Eval(Moved(Reversed(outer), length), z, false) == Eval(outer, cut, true)
  {
    ReversedStrictlySorted(outer);
    MovedBack(Reversed(outer), length, z, w);
    ReversedBack(outer, w, cut);
  }

  /** A profile moved up by the length, read at z = w + length. */
  lemma MovedBack(r: Profile, length: real, z: real, w: real)
    requires WellFormed(r) && Sorted(r.pos) && w == z - length
    ensures Eval(Moved(r, length), z, false) == Eval(r, w, false)
  {
    MovedEval(r, length, z, false);
    SameArgument(r, z - length, w, false);
  }

  /** A reversed profile, read at x = -y. */
  lemma ReversedBack(p: Profile, x: real, y: real)
    requires WellFormed(p) && StrictlySorted(p.pos) && y == -x
    ensures Eval(Reversed(p), x, false) == Eval(p, y, true)
  {
    ReversedEval(p, x, false);
    SameArgument(p, -x, y, true);
  }

  lemma SameArgument(p: Profile, x: real, y: real, high: bool)
    requires WellFormed(p) && x == y
    ensures Eval(p, x, high) == Eval(p, y, high)
  {
  }

  /** Whether piece i of n is turned over: all but the top piece when
      flip_top is set, every piece otherwise. */
  predicate Flipped(flipTop: bool, up: bool, i: nat, n: nat)
  {
    !flipTop || (up && i != n - 1) || (!up && i != 0)
  }

  /** With flip_top exactly one piece keeps its orientation: the last one
      made top-down, the first one made bottom-up. */
  lemma OneUnflipped(up: bool, i: nat, n: nat)
    requires i < n
    ensures !Flipped(true, up, i, n) <==> i == (if up then n - 1 else 0)
    ensures Flipped(false, up, i, n)
  {
  }

  /** A piece: the z range between two joints, and whether it is turned. */
  datatype Piece = Piece(lo: real, hi: real, flipped: bool)

  datatype Segmentation = Segmentation(cuts: seq<real>, windows: seq<Window>, pieces: seq<Piece>)

  /** The cutting loop of segment: a socket window at each cut, and the
      z range of each piece cut off below a joint, then the remainder. */
  method CutAll(c: seq<real>, o: Profile, up: bool, join: Join, length: real)
    returns (windows: seq<Window>, shapes: seq<(real, real)>)
    requires WellFormed(o)
    ensures |windows| == |c| && |shapes| == |c| + 1
    ensures forall k :: 0 <= k < |c| ==> windows[k] == SocketWindow(c[k], Eval(o, c[k], false), up, join)
    ensures forall m :: 0 <= m < |shapes| ==> shapes[m].0 == if m == 0 then 0.0 else c[m - 1]
    ensures forall m :: 0 <= m < |shapes| ==> shapes[m].1 == if m < |c| then c[m] else length
  {
    windows := [];
    shapes := [];
    var lo := 0.0;
    for k := 0 to |c|
      invariant |windows| == k && |shapes| == k
      invariant lo == if k == 0 then 0.0 else c[k - 1]
      invariant forall m :: 0 <= m < k ==> windows[m] == SocketWindow(c[m], Eval(o, c[m], false), up, join)
      invariant forall m :: 0 <= m < k ==> shapes[m] == (if m == 0 then 0.0 else c[m - 1], c[m])
    {
      windows := windows + [SocketWindow(c[k], Eval(o, c[k], false), up, join)];
      shapes := shapes + [(lo, c[k])];
      lo := c[k];
    }
    CloseShapes(c, shapes, lo, length);
    shapes := shapes + [(lo, length)];
  }

  /** The remainder from the last cut to the end closes the list of z ranges. */
  lemma CloseShapes(c: seq<real>, before: seq<(real, real)>, lo: real, length: real)
    requires |before| == |c| && lo == if |c| == 0 then 0.0 else c[|c| - 1]
    requires forall m :: 0 <= m < |c| ==> before[m] == (if m == 0 then 0.0 else c[m - 1], c[m])
    ensures var shapes := before + [(lo, length)];
      (forall m :: 0 <= m < |shapes| ==> shapes[m].0 == if m == 0 then 0.0 else c[m - 1]) &&
      (forall m :: 0 <= m < |shapes| ==> shapes[m].1 == if m < |c| then c[m] else length)
  {
    var shapes := before + [(lo, length)];
    forall m | 0 <= m < |shapes|
      ensures shapes[m].0 == if m == 0 then 0.0 else c[m - 1]
      ensures shapes[m].1 == if m < |c| then c[m] else length
    {
      if m < |c| {
        assert shapes[m] == before[m];
      }
    }
  }

  /** The closing loop of segment: the pieces top first (shapes[::-1]),
      each turned over or not. */
  method TopFirst(shapes: seq<(real, real)>, flipTop: bool, up: bool) returns (pieces: seq<Piece>)
    ensures |pieces| == |shapes|
    ensures forall i :: 0 <= i < |shapes| ==>
      pieces[i] == Piece(shapes[|shapes| - 1 - i].0, shapes[|shapes| - 1 - i].1, Flipped(flipTop, up, i, |shapes|))
  {
    var n := |shapes|;
    pieces := [];
    for i := 0 to n
      invariant |pieces| == i
      invariant forall m :: 0 <= m < i ==> pieces[m] == Piece(shapes[n - 1 - m].0, shapes[n - 1 - m].1, Flipped(flipTop, up, m, n))
    {
      var item := shapes[n - 1 - i];
      pieces := pieces + [Piece(item.0, item.1, Flipped(flipTop, up, i, n))];
    }
  }

  /** segment: mirrors the cuts when made top-down, takes a socket window
      at each cut and cuts one piece below each joint plus the remainder,
      listed top piece first. The pieces tile [0, length], meeting at the
      cuts. An unknown join name is an error. */
  method Segment(cuts: seq<real>, up: bool, flipTop: bool, joinName: string, length: real, outer: Profile)
    returns (r: Result<Segmentation>)
    requires WellFormed(outer)
    ensures r.Err? <==> JoinOf(joinName).Err?
    ensures r.Ok? ==>
      var s := r.value;
      var c := Oriented(length, cuts, up);
      var o := OuterOriented(outer, length, up);
      var n := |cuts| + 1;
      && s.cuts == c && |s.windows| == |cuts| && |s.pieces| == n
      && (forall k :: 0 <= k < |cuts| ==> s.windows[k] == SocketWindow(c[k], Eval(o, c[k], false), up, JoinOf(joinName).value))
      && s.pieces[0].hi == length && s.pieces[n - 1].lo == 0.0
      && (forall i :: 0 <= i < n - 1 ==> s.pieces[i].lo == c[n - 2 - i])
      && (forall i :: 0 < i < n ==> s.pieces[i].hi == c[n - 1 - i])
      && (forall i :: 0 <= i < n ==> s.pieces[i].flipped == Flipped(flipTop, up, i, n))
  {
    var c := Oriented(length, cuts, up);
    var o := OuterOriented(outer, length, up);
    var join := JoinOf(joinName);
    if join.Err? {
      return Err(join.message);
    }
    var windows, shapes := CutAll(c, o, up, join.value, length);
    var pieces := TopFirst(shapes, flipTop, up);
    return Ok(Segmentation(c, windows, pieces));
  }

  // make_workpieces

  /** Inserts x into a strictly ascending list unless already present. */
  function Insert(s: seq<real>, x: real): (r: seq<real>)
    requires StrictlySorted(s)
    ensures StrictlySorted(r)
    ensures forall v :: v in r <==> v in s || v == x
  {
    if |s| == 0 then [x]
    else if x < s[0] then
      TailAbove([x] + s);
      [x] + s
    else if x == s[0] then s
    else
      var rest := Insert(s[1..], x);
      TailAbove(s);
      ConsSorted(s[0], rest);
      [s[0]] + rest
  }

  /** Every later entry of a strictly ascending list exceeds the first. */
  lemma TailAbove(s: seq<real>)
    requires |s| > 0
    ensures StrictlySorted(s) ==> forall v :: v in s[1..] ==> s[0] < v
    ensures StrictlySorted(s[1..]) && (forall v :: v in s[1..] ==> s[0] < v) ==> StrictlySorted(s)
  {
    if StrictlySorted(s) {
      forall v | v in s[1..]
        ensures s[0] < v
      {
        var k :| 0 <= k < |s[1..]| && s[1..][k] == v;
        assert s[k + 1] == v;
      }
    }
    if StrictlySorted(s[1..]) && (forall v :: v in s[1..] ==> s[0] < v) {
      forall i, j | 0 <= i < j < |s|
        ensures s[i] < s[j]
      {
        assert s[j] == s[1..][j - 1] && s[j] in s[1..];
        if i > 0 {
          assert s[i] == s[1..][i - 1];
        }
      }
    }
  }

  lemma ConsSorted(a: real, rest: seq<real>)
    requires StrictlySorted(rest) && forall v :: v in rest ==> a < v
    ensures StrictlySorted([a] + rest)
  {
    TailAbove([a] + rest);
    assert ([a] + rest)[1..] == rest;
  }

  /** sorted(set(xs)): the distinct values of xs in ascending order. */
  function SortedSet(xs: seq<real>): (r: seq<real>)
    ensures StrictlySorted(r)
    ensures forall v :: v in r <==> v in xs
  {
    if |xs| == 0 then []
    else
      var front := xs[..|xs| - 1];
      var r := Insert(SortedSet(front), xs[|xs| - 1]);
      assert forall v :: v in xs <==> v in front || v == xs[|xs| - 1] by {
        assert xs == front + [xs[|xs| - 1]];
      }
      r
  }

  /** Every cut of every scheme as a fraction of the length, in order. */
  function Fractions(schemes: seq<seq<real>>, length: real): (r: seq<real>)
    requires length != 0.0
    ensures forall d, j :: 0 <= d < |schemes| && 0 <= j < |schemes[d]| ==> schemes[d][j] / length in r
  {
    if |schemes| == 0 then []
    else
      var front := schemes[..|schemes| - 1];
      var last := schemes[|schemes| - 1];
      var r := Fractions(front, length) + seq(|last|, k requires 0 <= k < |last| => last[k] / length);
      assert forall d :: 0 <= d < |front| ==> front[d] == schemes[d];
      assert forall j :: 0 <= j < |last| ==> last[j] / length == r[|Fractions(front, length)| + j];
      r
  }

  /** Nothing else is listed: every entry is some scheme's cut divided by
      the length. */
  lemma {:induction false} FractionsFromCuts(schemes: seq<seq<real>>, length: real, k: int)
    requires length != 0.0 && 0 <= k < |Fractions(schemes, length)|
    ensures exists d, j :: 0 <= d < |schemes| && 0 <= j < |schemes[d]| && Fractions(schemes, length)[k] == schemes[d][j] / length
  {
    var front := schemes[..|schemes| - 1];
    var last := schemes[|schemes| - 1];
    var n := |Fractions(front, length)|;
    if k < n {
      FractionsFromCuts(front, length, k);
      var d, j :| 0 <= d < |front| && 0 <= j < |front[d]| && Fractions(front, length)[k] == front[d][j] / length;
      assert front[d] == schemes[d];
    } else {
      assert Fractions(schemes, length)[k] == last[k - n] / length;
      assert schemes[|schemes| - 1] == last;
    }
  }

  /** Cuts within the instrument give fractions within [0, 1]. */
  lemma {:induction false} FractionsInUnit(schemes: seq<seq<real>>, length: real)
    requires length > 0.0
    requires forall d, j :: 0 <= d < |schemes| && 0 <= j < |schemes[d]| ==> 0.0 <= schemes[d][j] <= length
    ensures forall k :: 0 <= k < |Fractions(schemes, length)| ==> 0.0 <= Fractions(schemes, length)[k] <= 1.0
  {
    if |schemes| > 0 {
      var front := schemes[..|schemes| - 1];
      var last := schemes[|schemes| - 1];
      assert forall d :: 0 <= d < |front| ==> front[d] == schemes[d];
      FractionsInUnit(front, length);
      forall j | 0 <= j < |last|
        ensures 0.0 <= last[j] / length <= 1.0
      {
        assert 0.0 <= last[j] <= length;
        DivUnit(last[j], length);
      }
    }
  }

  /** make_workpieces: the cuts of every scheme as fractions of the length,
      distinct and ascending, planned with ratio mill_length / length. A
      zero length divides by zero. */
  method MakeWorkpieces(inst: Instrument, length: real, divisions: seq<seq<(int, real)>>, millLength: real)
    returns (fractions: seq<real>, r: Result<Packing.Plan>)
    requires DivisionsOk(inst, divisions)
    ensures length == 0.0 ==> r.Err?
    ensures length != 0.0 ==>
      && StrictlySorted(fractions)
      && (forall v :: v in fractions <==> v in Fractions(AllCuts(inst, length, divisions), length))
      && var ratio := millLength / length;
         var plans := Packing.Keep(Packing.Candidates(fractions, ratio, Packing.Pow2(|fractions|)), ratio);
         && (r.Err? <==> |plans| == 0)
         && (r.Ok? ==> r.value in plans && Packing.Good(r.value, ratio))
         && (r.Ok? ==> exists b :: Packing.FirstLeast(plans, b) && r.value == plans[b])
  {
    var schemes := GetCuts(inst, length, divisions);
    if length == 0.0 {
      return [], Err("division by zero");
    }
    fractions := SortedSet(Fractions(schemes, length));
    r := Packing.PlanSegments(fractions, millLength / length);
  }
}
