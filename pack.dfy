/** Packing instrument pieces for milling (demakein/pack.py): how a body is
    segmented into pieces, the packing sheet's item list and bounds test, and
    the search for bollards that hold the pieces to the stock. */
module Packing {
  import opened Common

  // plan_segments

  function Pow2(n: nat): (r: nat)
    ensures r >= 1
  {
    if n == 0 then 1 else 2 * Pow2(n - 1)
  }

  /** The cuts whose bit is set in i: bit j of i selects cuts[j]. */
  function Chosen(cuts: seq<real>, i: nat): seq<real>
  {
    if |cuts| == 0 then []
    else (if i % 2 == 1 then [cuts[0]] else []) + Chosen(cuts[1..], i / 2)
  }

  /** The cuts a selection of flags keeps, in order. */
  function Select(cuts: seq<real>, flags: seq<bool>): seq<real>
    requires |flags| == |cuts|
  {
    if |cuts| == 0 then []
    else (if flags[0] then [cuts[0]] else []) + Select(cuts[1..], flags[1..])
  }

  /** The number whose bits are flags, lowest first. */
  function Encode(flags: seq<bool>): nat
  {
    if |flags| == 0 then 0 else (if flags[0] then 1 else 0) + 2 * Encode(flags[1..])
  }

  /** The loop over range(1 << len(cuts)) tries every subset of the cuts:
      every choice of flags is the bit pattern of one i below 2^n. */
  lemma {:induction false} EveryChoiceTried(cuts: seq<real>, flags: seq<bool>)
    requires |flags| == |cuts|
    ensures Encode(flags) < Pow2(|cuts|)
    ensures Chosen(cuts, Encode(flags)) == Select(cuts, flags)
  {
    if |cuts| > 0 {
      EveryChoiceTried(cuts[1..], flags[1..]);
      var e := Encode(flags);
      var b := if flags[0] then 1 else 0;
      assert e == b + 2 * Encode(flags[1..]);
      assert e % 2 == b && e / 2 == Encode(flags[1..]);
    }
  }

  /** upper: 0.0, the chosen cuts in order, then 1.0. */
  function Upper(cuts: seq<real>, i: nat): seq<real>
  {
    [0.0] + Chosen(cuts, i) + [1.0]
  }

  /** The midpoints of consecutive entries of upper. */
  function Midpoints(u: seq<real>): (r: seq<real>)
    ensures |r| == if |u| == 0 then 0 else |u| - 1
  {
    if |u| == 0 then [] else seq(|u| - 1, j requires 0 <= j < |u| - 1 => (u[j] + u[j + 1]) * 0.5)
  }

  /** lower before merging: 0.0, the midpoints of upper, then 1.0. */
  function LowerStart(u: seq<real>): seq<real>
  {
    [0.0] + Midpoints(u) + [1.0]
  }

  /** The merge loop from position j on: while lower[j+2] - lower[j] is
      within the ratio, lower[j+1] is deleted, else j advances. */
  function Merged(l: seq<real>, ratio: real, j: nat): seq<real>
    decreases |l| - j
  {
    if j + 2 >= |l| then l
    else if l[j + 2] - l[j] <= ratio then Merged(l[..j + 1] + l[j + 2..], ratio, j)
    else Merged(l, ratio, j + 1)
  }

  /** The merge loop of plan_segments, deleting from lower in place. */
  method MergeLower(lower: seq<real>, ratio: real) returns (r: seq<real>)
    ensures r == Merged(lower, ratio, 0)
  {
    r := lower;
    var j := 0;
    while j < |r| - 2
      invariant Merged(r, ratio, j) == Merged(lower, ratio, 0)
      decreases |r| - j
    {
      if r[j + 2] - r[j] <= ratio {
        r := r[..j + 1] + r[j + 2..];
      } else {
        j := j + 1;
      }
    }
  }

  /** idx picks r out of l in order, keeping l's first and last entries. */
  predicate KeptBy(idx: seq<nat>, l: seq<real>, r: seq<real>)
  {
    && |idx| == |r|
    && (forall k :: 0 <= k < |r| ==> idx[k] < |l| && r[k] == l[idx[k]])
    && (forall k :: 0 <= k < |r| - 1 ==> idx[k] < idx[k + 1])
    && (|l| > 0 ==> |r| > 0 && idx[0] == 0 && idx[|r| - 1] == |l| - 1)
  }

  /** Deleting entry j + 1 of l, as an index map. */
  lemma DeleteKept(l: seq<real>, j: nat, r: seq<real>, idx: seq<nat>) returns (idx': seq<nat>)
    requires j + 2 < |l| && KeptBy(idx, l[..j + 1] + l[j + 2..], r)
    ensures KeptBy(idx', l, r)
  {
    var l' := l[..j + 1] + l[j + 2..];
    idx' := seq(|idx|, k requires 0 <= k < |idx| => if idx[k] <= j then idx[k] else idx[k] + 1);
    forall k | 0 <= k < |r|
      ensures idx'[k] < |l| && r[k] == l[idx'[k]]
    {
      assert r[k] == l'[idx[k]];
    }
  }

  /** The merge loop deletes only interior points: the result is l with some
      entries other than the first and last removed. */
  lemma {:induction false} MergedKeeps(l: seq<real>, ratio: real, j: nat) returns (idx: seq<nat>)
    ensures KeptBy(idx, l, Merged(l, ratio, j))
    decreases |l| - j
  {
    if j + 2 >= |l| {
      idx := seq(|l|, k requires 0 <= k < |l| => k);
    } else if l[j + 2] - l[j] <= ratio {
      var inner := MergedKeeps(l[..j + 1] + l[j + 2..], ratio, j);
      idx := DeleteKept(l, j, Merged(l, ratio, j), inner);
    } else {
      idx := MergedKeeps(l, ratio, j + 1);
    }
  }

  /** Every window of three entries below j spans more than the ratio. */
  predicate SpacedBelow(l: seq<real>, ratio: real, j: nat)
  {
    forall k :: 0 <= k < j && k + 2 < |l| ==> l[k + 2] - l[k] > ratio
  }

  lemma DeleteSpaced(l: seq<real>, ratio: real, j: nat)
    requires j + 2 < |l| && Sorted(l) && SpacedBelow(l, ratio, j)
    ensures Sorted(l[..j + 1] + l[j + 2..]) && SpacedBelow(l[..j + 1] + l[j + 2..], ratio, j)
  {
    var l' := l[..j + 1] + l[j + 2..];
    assert forall k :: 0 <= k < |l'| ==> l'[k] == if k <= j then l[k] else l[k + 1];
    forall k | 0 <= k < j && k + 2 < |l'|
      ensures l'[k + 2] - l'[k] > ratio
    {
      if k + 2 > j {
        assert l'[k + 2] == l[k + 3] >= l[k + 2];
      }
    }
  }

  /** For sorted input the merge loop leaves every lower[j+2] - lower[j]
      above the ratio, and lower sorted. */
  lemma {:induction false} MergedSpaced(l: seq<real>, ratio: real, j: nat)
    requires Sorted(l) && SpacedBelow(l, ratio, j)
    ensures Sorted(Merged(l, ratio, j))
    ensures forall k :: 0 <= k < |Merged(l, ratio, j)| - 2 ==> Merged(l, ratio, j)[k + 2] - Merged(l, ratio, j)[k] > ratio
    decreases |l| - j
  {
    if j + 2 >= |l| {
    } else if l[j + 2] - l[j] <= ratio {
      DeleteSpaced(l, ratio, j);
      MergedSpaced(l[..j + 1] + l[j + 2..], ratio, j);
    } else {
      MergedSpaced(l, ratio, j + 1);
    }
  }

  /** Chosen keeps the order of the cuts, so sorted cuts give sorted upper. */
  lemma {:induction false} ChosenFrom(cuts: seq<real>, i: nat)
    ensures forall v :: v in Chosen(cuts, i) ==> v in cuts
    ensures Sorted(cuts) ==> Sorted(Chosen(cuts, i))
  {
    if |cuts| > 0 {
      ChosenFrom(cuts[1..], i / 2);
      var rest := Chosen(cuts[1..], i / 2);
      var head := if i % 2 == 1 then [cuts[0]] else [];
      assert Chosen(cuts, i) == head + rest;
      forall v | v in rest
        ensures v in cuts
      {
        var k :| 0 <= k < |cuts[1..]| && cuts[1..][k] == v;
        assert cuts[k + 1] == v;
      }
      if Sorted(cuts) {
        assert Sorted(cuts[1..]);
        forall v | v in rest
          ensures cuts[0] <= v
        {
          var k :| 0 <= k < |cuts[1..]| && cuts[1..][k] == v;
          assert cuts[k + 1] == v;
        }
        var c := head + rest;
        forall a, b | 0 <= a < b < |c|
          ensures c[a] <= c[b]
        {
          if |head| == 1 && a == 0 {
            assert c[b] == rest[b - 1] && c[b] in rest;
          }
        }
      }
    }
  }

  /** Cuts that are sorted fractions of the length give a sorted upper
      and a sorted starting lower. */
  lemma StartSorted(cuts: seq<real>, i: nat)
    requires Sorted(cuts) && forall k :: 0 <= k < |cuts| ==> 0.0 <= cuts[k] <= 1.0
    ensures Sorted(Upper(cuts, i)) && Sorted(LowerStart(Upper(cuts, i)))
  {
    UpperSorted(cuts, i);
    LowerStartSorted(Upper(cuts, i));
  }

  lemma UpperSorted(cuts: seq<real>, i: nat)
    requires Sorted(cuts) && forall k :: 0 <= k < |cuts| ==> 0.0 <= cuts[k] <= 1.0
    ensures Sorted(Upper(cuts, i)) && forall k :: 0 <= k < |Upper(cuts, i)| ==> 0.0 <= Upper(cuts, i)[k] <= 1.0
  {
    ChosenFrom(cuts, i);
    var c := Chosen(cuts, i);
    var u := Upper(cuts, i);
    forall k | 0 <= k < |c|
      ensures 0.0 <= c[k] <= 1.0
    {
      assert c[k] in cuts;
    }
    assert forall k :: 0 <= k < |u| ==> 0.0 <= u[k] <= 1.0;
    assert forall k :: 0 <= k < |u| - 1 ==> u[k] <= u[k + 1];
    SortedByNeighbours(u);
  }

  lemma LowerStartSorted(u: seq<real>)
    requires Sorted(u) && forall k :: 0 <= k < |u| ==> 0.0 <= u[k] <= 1.0
    ensures Sorted(LowerStart(u))
  {
    var m := Midpoints(u);
    var l := LowerStart(u);
    assert forall k :: 0 <= k < |m| - 1 ==> m[k] <= m[k + 1];
    assert forall k :: 0 <= k < |l| - 1 ==> l[k] <= l[k + 1];
    SortedByNeighbours(l);
  }

  lemma {:induction false} SortedByNeighbours(s: seq<real>)
    requires forall k :: 0 <= k < |s| - 1 ==> s[k] <= s[k + 1]
    ensures Sorted(s)
  {
    if |s| > 1 {
      var front := s[..|s| - 1];
      SortedByNeighbours(front);
      forall a, b | 0 <= a < b < |s|
        ensures s[a] <= s[b]
      {
        if b < |s| - 1 {
          assert front[a] <= front[b];
        } else if a < |s| - 2 {
          assert front[a] <= front[|s| - 2];
        }
      }
    }
  }

  /** The merged lower of a plan built from sorted fractions has every
      window of three entries spanning more than the ratio. */
  lemma PlanLowerSpaced(cuts: seq<real>, i: nat, ratio: real)
    requires Sorted(cuts) && forall k :: 0 <= k < |cuts| ==> 0.0 <= cuts[k] <= 1.0
    ensures var l := Merged(LowerStart(Upper(cuts, i)), ratio, 0);
      forall k :: 0 <= k < |l| - 2 ==> l[k + 2] - l[k] > ratio
  {
    StartSorted(cuts, i);
    MergedSpaced(LowerStart(Upper(cuts, i)), ratio, 0);
  }

  /** Every consecutive gap is within the ratio. */
  predicate GapsWithin(s: seq<real>, ratio: real)
  {
    forall j :: 0 <= j < |s| - 1 ==> s[j + 1] - s[j] <= ratio
  }

  /** The gap check of plan_segments, stopping at the first wide gap. */
  method CheckGaps(s: seq<real>, ratio: real) returns (good: bool)
    ensures good <==> GapsWithin(s, ratio)
  {
    var j := 0;
    while j < |s| - 1
      invariant 0 <= j && forall k :: 0 <= k < j && k < |s| - 1 ==> s[k + 1] - s[k] <= ratio
    {
      if s[j + 1] - s[j] > ratio {
        return false;
      }
      j := j + 1;
    }
    return true;
  }

  /** A segmentation: cut positions of the upper and lower layers. */
  datatype Plan = Plan(upper: seq<real>, lower: seq<real>)

  /** The plan tried for subset i. */
  function Candidate(cuts: seq<real>, ratio: real, i: nat): Plan
  {
    var u := Upper(cuts, i);
    Plan(u, Merged(LowerStart(u), ratio, 0))
  }

  predicate Good(p: Plan, ratio: real)
  {
    GapsWithin(p.upper, ratio) && GapsWithin(p.lower, ratio)
  }

  /** The plans tried for subsets 0 .. n-1, in order. */
  function Candidates(cuts: seq<real>, ratio: real, n: nat): (r: seq<Plan>)
    ensures |r| == n
  {
    seq(n, i requires 0 <= i < n => Candidate(cuts, ratio, i))
  }

  /** The good plans among cs, in order. */
  function Keep(cs: seq<Plan>, ratio: real): seq<Plan>
  {
    if |cs| == 0 then []
    else Keep(cs[..|cs| - 1], ratio) + (if Good(cs[|cs| - 1], ratio) then [cs[|cs| - 1]] else [])
  }

  /** Only good plans are kept ... */
  lemma {:induction false} KeptAreGood(cs: seq<Plan>, ratio: real)
    ensures forall p :: p in Keep(cs, ratio) ==> Good(p, ratio)
  {
    if |cs| > 0 {
      KeptAreGood(cs[..|cs| - 1], ratio);
    }
  }

  /** ... and every good plan is kept. */
  lemma {:induction false} GoodAreKept(cs: seq<Plan>, ratio: real, i: nat)
    requires i < |cs| && Good(cs[i], ratio)
    ensures cs[i] in Keep(cs, ratio)
  {
    var front := cs[..|cs| - 1];
    var tail := if Good(cs[|cs| - 1], ratio) then [cs[|cs| - 1]] else [];
    assert Keep(cs, ratio) == Keep(front, ratio) + tail;
    if i < |cs| - 1 {
      GoodAreKept(front, ratio, i);
      assert front[i] == cs[i];
      var k :| 0 <= k < |Keep(front, ratio)| && Keep(front, ratio)[k] == cs[i];
      assert Keep(cs, ratio)[k] == cs[i];
    } else {
      assert Keep(cs, ratio)[|Keep(front, ratio)|] == cs[i];
    }
  }

  /** scorer's closest distance between an interior upper and an interior
      lower position, starting from 1e30. */
  function Interior(s: seq<real>): seq<real>
  {
    if |s| >= 2 then s[1..|s| - 1] else []
  }

  const Far: real := 1000000000000000000000000000000.0

  function ClosestTo(w: real, a: real, bs: seq<real>): real
  {
    if |bs| == 0 then w else MinR(ClosestTo(w, a, bs[..|bs| - 1]), Abs(a - bs[|bs| - 1]))
  }

  function Closest(as_: seq<real>, bs: seq<real>): real
  {
    if |as_| == 0 then Far else ClosestTo(Closest(as_[..|as_| - 1], bs), as_[|as_| - 1], bs)
  }

  lemma {:induction false} ClosestToBound(w: real, a: real, bs: seq<real>)
    ensures ClosestTo(w, a, bs) <= w
    ensures forall k :: 0 <= k < |bs| ==> ClosestTo(w, a, bs) <= Abs(a - bs[k])
    ensures ClosestTo(w, a, bs) == w || exists k :: 0 <= k < |bs| && ClosestTo(w, a, bs) == Abs(a - bs[k])
  {
    if |bs| > 0 {
      ClosestToBound(w, a, bs[..|bs| - 1]);
    }
  }

  /** The closest distance is at most Far and at most every pairwise
      distance ... */
  lemma {:induction false} ClosestBound(as_: seq<real>, bs: seq<real>)
    ensures Closest(as_, bs) <= Far
    ensures forall i, k :: 0 <= i < |as_| && 0 <= k < |bs| ==> Closest(as_, bs) <= Abs(as_[i] - bs[k])
  {
    if |as_| > 0 {
      var front := as_[..|as_| - 1];
      ClosestBound(front, bs);
      ClosestToBound(Closest(front, bs), as_[|as_| - 1], bs);
      forall i, k | 0 <= i < |as_| && 0 <= k < |bs|
        ensures Closest(as_, bs) <= Abs(as_[i] - bs[k])
      {
        if i < |front| {
          assert as_[i] == front[i];
        }
      }
    }
  }

  /** ... and it is Far or one of them. */
  lemma {:induction false} ClosestAttained(as_: seq<real>, bs: seq<real>)
    ensures Closest(as_, bs) == Far || exists i, k :: 0 <= i < |as_| && 0 <= k < |bs| && Closest(as_, bs) == Abs(as_[i] - bs[k])
  {
    if |as_| > 0 {
      var front := as_[..|as_| - 1];
      var a := as_[|as_| - 1];
      var w := Closest(front, bs);
      ClosestAttained(front, bs);
      ClosestToBound(w, a, bs);
      if Closest(as_, bs) != Far {
        if Closest(as_, bs) == w {
          var i, k :| 0 <= i < |front| && 0 <= k < |bs| && w == Abs(front[i] - bs[k]);
          assert as_[i] == front[i];
        } else {
          var k :| 0 <= k < |bs| && ClosestTo(w, a, bs) == Abs(a - bs[k]);
          assert Closest(as_, bs) == Abs(as_[|as_| - 1] - bs[k]);
        }
      }
    }
  }

  /** The nested loops of scorer. */
  method ClosestLoop(u: seq<real>, l: seq<real>) returns (worst: real)
    ensures worst == Closest(Interior(u), Interior(l))
  {
    var as_, bs := Interior(u), Interior(l);
    worst := Far;
    for i := 0 to |as_|
      invariant worst == Closest(as_[..i], bs)
    {
      assert as_[..i + 1][..i] == as_[..i];
      var w0 := worst;
      for k := 0 to |bs|
        invariant worst == ClosestTo(w0, as_[i], bs[..k])
      {
        assert bs[..k + 1][..k] == bs[..k];
        worst := MinR(worst, Abs(as_[i] - bs[k]));
      }
      assert bs[..|bs|] == bs;
    }
    assert as_[..|as_|] == as_;
  }

  /** scorer's key: (len(upper)+len(lower), len(upper), -worst). */
  datatype Score = Score(pieces: int, uppers: int, closeness: real)

  function ScoreOf(p: Plan): Score
  {
    Score(|p.upper| + |p.lower|, |p.upper|, -Closest(Interior(p.upper), Interior(p.lower)))
  }

  /** Python's tuple order. */
  predicate Less(a: Score, b: Score)
  {
    a.pieces < b.pieces || (a.pieces == b.pieces && (a.uppers < b.uppers || (a.uppers == b.uppers && a.closeness < b.closeness)))
  }

  method ScorePlan(p: Plan) returns (s: Score)
    ensures s == ScoreOf(p)
  {
    var worst := ClosestLoop(p.upper, p.lower);
    s := Score(|p.upper| + |p.lower|, |p.upper|, -worst);
  }

  /** One pass of plan_segments' loop: the plan for subset i and whether
      its gaps pass. */
  method TryCandidate(cuts: seq<real>, ratio: real, i: nat) returns (p: Plan, good: bool)
    ensures p == Candidate(cuts, ratio, i) && (good <==> Good(p, ratio))
  {
    var upper := [0.0] + Chosen(cuts, i) + [1.0];
    var lower := [0.0] + Midpoints(upper) + [1.0];
    lower := MergeLower(lower, ratio);
    good := CheckGaps(upper, ratio);
    if good {
      good := CheckGaps(lower, ratio);
    }
    p := Plan(upper, lower);
  }

  /** plans[b] is min's answer: no plan scores less, and every plan before
      it scores more. */
  ghost predicate FirstLeast(plans: seq<Plan>, b: int)
  {
    && 0 <= b < |plans|
    && (forall j :: 0 <= j < |plans| ==> !Less(ScoreOf(plans[j]), ScoreOf(plans[b])))
    && (forall j :: 0 <= j < b ==> Less(ScoreOf(plans[b]), ScoreOf(plans[j])))
  }

  /** At most one index is the first of least score, so min's answer is
      determined even among plans of equal score. */
  lemma FirstLeastUnique(plans: seq<Plan>, b1: int, b2: int)
    requires FirstLeast(plans, b1) && FirstLeast(plans, b2)
    ensures b1 == b2
  {
    var s1, s2 := ScoreOf(plans[b1]), ScoreOf(plans[b2]);
    assert !Less(s2, s1) && !Less(s1, s2);
    assert b1 < b2 ==> Less(s2, s1);
    assert b2 < b1 ==> Less(s1, s2);
  }

  /** min(plans, key=scorer): the first plan with the least score. */
  method Best(plans: seq<Plan>) returns (b: nat)
    requires |plans| > 0
    ensures b < |plans|
    ensures forall j :: 0 <= j < |plans| ==> !Less(ScoreOf(plans[j]), ScoreOf(plans[b]))
    ensures forall j :: 0 <= j < b ==> Less(ScoreOf(plans[b]), ScoreOf(plans[j]))
  {
    b := 0;
    var best := ScorePlan(plans[0]);
    for i := 1 to |plans|
      invariant b < i && best == ScoreOf(plans[b])
      invariant forall j :: 0 <= j < i ==> !Less(ScoreOf(plans[j]), best)
      invariant forall j :: 0 <= j < b ==> Less(best, ScoreOf(plans[j]))
    {
      var s := ScorePlan(plans[i]);
      if Less(s, best) {
        b, best := i, s;
      }
    }
  }

  /** plan_segments: tries every subset of the cuts as upper, merges its
      midpoints into lower, keeps the plans whose gaps are all within the
      ratio, and returns the first of least score; Err when none is kept
      (the source's assertion). */
  method PlanSegments(cuts: seq<real>, ratio: real) returns (r: Result<Plan>)
    ensures var plans := Keep(Candidates(cuts, ratio, Pow2(|cuts|)), ratio);
      && (r.Err? <==> |plans| == 0)
      && (r.Ok? ==> r.value in plans && Good(r.value, ratio))
      && (r.Ok? ==> forall p :: p in plans ==> !Less(ScoreOf(p), ScoreOf(r.value)))
      && (r.Ok? ==> exists b :: FirstLeast(plans, b) && r.value == plans[b])
  {
    var plans: seq<Plan> := [];
    for i := 0 to Pow2(|cuts|)
      invariant plans == Keep(Candidates(cuts, ratio, i), ratio)
    {
      var p, good := TryCandidate(cuts, ratio, i);
      assert Candidates(cuts, ratio, i + 1)[..i] == Candidates(cuts, ratio, i);
      if good {
        plans := plans + [p];
      }
    }
    KeptAreGood(Candidates(cuts, ratio, Pow2(|cuts|)), ratio);
    if |plans| == 0 {
      return Err("Couldn't find a way to segment for milling.");
    }
    var b := Best(plans);
    assert FirstLeast(plans, b);
    r := Ok(plans[b]);
  }

  // Pack

  /** An axis-aligned box, as returned by extent(). */
  datatype Box = Box(xmin: real, ymin: real, zmin: real, xmax: real, ymax: real, zmax: real)

  /** A 2D outline, as a list of vertices. */
  datatype Outline = Outline(points: seq<(real, real)>)

  /** The outline moved by (dx, dy). */
  function Moved(o: Outline, dx: real, dy: real): (r: Outline)
    ensures |r.points| == |o.points|
    ensures forall k :: 0 <= k < |o.points| ==> r.points[k] == (o.points[k].0 + dx, o.points[k].1 + dy)
  {
    Outline(seq(|o.points|, k requires 0 <= k < |o.points| => (o.points[k].0 + dx, o.points[k].1 + dy)))
  }

  /** The parts of a Packable the sheet uses: its footprint mask, its extent,
      the footprint dilated by the cutter clearance and that one's extent. */
  datatype Packable = Packable(mask: Outline, extent: Box, dilatedMask: Outline, dilatedExtent: Box, useUpper: bool)

  /** A placed piece: (x, y, packable). */
  datatype Item = Item(x: real, y: real, packable: Packable)

  /** A sheet of stock with the pieces placed on it so far. */
  class Pack {
    var xsize: real
    var ysize: real
    var zsize: real
    var masks: seq<Outline>
    var items: seq<Item>

    /** Each placed item has its footprint, moved to its place, as the mask
        at the same position. */
    ghost predicate Consistent()
      reads this
    {
      |masks| == |items| &&
      forall k :: 0 <= k < |items| ==> masks[k] == Moved(items[k].packable.mask, items[k].x, items[k].y)
    }

    /** __init__ copies the given lists (sequences are values here). */
    constructor(xsize: real, ysize: real, zsize: real, masks: seq<Outline>, items: seq<Item>)
      ensures this.xsize == xsize && this.ysize == ysize && this.zsize == zsize
      ensures this.masks == masks && this.items == items
    {
      this.xsize, this.ysize, this.zsize := xsize, ysize, zsize;
      this.masks, this.items := masks, items;
    }

    /** copy: a fresh sheet with the same sizes and lists; Put on it can only
        change the copy. */
    method Copy() returns (r: Pack)
      ensures fresh(r)
      ensures r.xsize == xsize && r.ysize == ysize && r.zsize == zsize
      ensures r.masks == masks && r.items == items
    {
      r := new Pack(xsize, ysize, zsize, masks, items);
    }

    /** put: appends exactly one item and its footprint moved to (x, y). */
    method Put(x: real, y: real, p: Packable)
      modifies this
      ensures items == old(items) + [Item(x, y, p)]
      ensures masks == old(masks) + [Moved(p.mask, x, y)]
      ensures xsize == old(xsize) && ysize == old(ysize) && zsize == old(zsize)
      ensures old(Consistent()) ==> Consistent()
    {
      items := items + [Item(x, y, p)];
      masks := masks + [Moved(p.mask, x, y)];
    }

    /** valid's first test: the piece fits under the sheet's height and its
        dilated extent placed at (x, y) stays inside [0, xsize] x [0, ysize]. */
    predicate InBounds(x: real, y: real, p: Packable)
      reads this
    {
      && p.extent.zmax <= zsize
      && 0.0 <= x + p.dilatedExtent.xmin && 0.0 <= y + p.dilatedExtent.ymin
      && x + p.dilatedExtent.xmax <= xsize && y + p.dilatedExtent.ymax <= ysize
    }

    /** valid: False on a bounds violation before any overlap test, then
        False when the dilated footprint at (x, y) meets a placed mask. The
        polygon intersection test is CGAL's and is a parameter here. */
    method Valid(x: real, y: real, p: Packable, intersects: (Outline, Outline) -> bool) returns (ok: bool)
      ensures !InBounds(x, y, p) ==> !ok
      ensures ok <==> InBounds(x, y, p) && forall k :: 0 <= k < |masks| ==> !intersects(masks[k], Moved(p.dilatedMask, x, y))
    {
      if !InBounds(x, y, p) {
        return false;
      }
      var shifted := Moved(p.dilatedMask, x, y);
      for k := 0 to |masks|
        invariant forall j :: 0 <= j < k ==> !intersects(masks[j], shifted)
      {
        if intersects(masks[k], shifted) {
          return false;
        }
      }
      return true;
    }
  }

  // The bollard search of Pack.render

  /** A candidate bollard: x position and the y interval it spans. */
  datatype Interval = Interval(pos: real, lo: real, hi: real)

  /** How an item's y-span [low, high] meets a bollard interval (lo, hi). */
  datatype Cut =
    | Covered     // drop the interval
    | Split       // keep (lo, low) and (high, hi)
    | KeepBelow   // keep (lo, low)
    | KeepAbove   // keep (high, hi)
    | Clear       // no effect: try the next item

  /** The four tests of render as written. */
  function ClassifyAsWritten(lo: real, hi: real, low: real, high: real): Cut
  {
    if low <= lo && hi <= high then Covered
    else if lo < low && high < hi then Split
    else if lo < low < hi <= high then KeepBelow
    else if low < lo < high <= hi then KeepAbove
    else Clear
  }

  /** An item whose span starts exactly where the interval does and ends
      inside it overlaps the interval, yet none of the tests as written
      fires; the corrected tests keep the part above the item. */
  lemma AsWrittenMissesOverlap()
    ensures ClassifyAsWritten(0.0, 10.0, 0.0, 5.0) == Clear
    ensures Classify(0.0, 10.0, 0.0, 5.0) == KeepAbove
  {
  }

  /** The tests with the fourth one as the mirror image of the third
      (low <= lo in place of low < lo). */
  function Classify(lo: real, hi: real, low: real, high: real): (c: Cut)
    ensures c == Split ==> lo < low && high < hi
    ensures c == KeepBelow ==> lo < low < hi
    ensures c == KeepAbove ==> lo < high < hi
  {
    if low <= lo && hi <= high then Covered
    else if lo < low && high < hi then Split
    else if lo < low < hi <= high then KeepBelow
    else if low <= lo < high <= hi then KeepAbove
    else Clear
  }

  /** For a proper interval and item span, the corrected tests let an
      interval through exactly when the item's span misses it. */
  lemma ClassifyClear(lo: real, hi: real, low: real, high: real)
    requires lo < hi && low <= high
    ensures Classify(lo, hi, low, high) == Clear <==> high <= lo || hi <= low
  {
  }

  /** The intervals pushed back for a cut. */
  function Pieces(iv: Interval, low: real, high: real, c: Cut): (r: seq<Interval>)
    requires low <= high && c == Classify(iv.lo, iv.hi, low, high)
    ensures |r| <= 2
    ensures forall k :: 0 <= k < |r| ==>
      r[k].pos == iv.pos && iv.lo <= r[k].lo < r[k].hi <= iv.hi && (iv.lo < r[k].lo || r[k].hi < iv.hi)
  {
    match c
    case Split => [Interval(iv.pos, iv.lo, low), Interval(iv.pos, high, iv.hi)]
    case KeepBelow => [Interval(iv.pos, iv.lo, low)]
    case KeepAbove => [Interval(iv.pos, high, iv.hi)]
    case _ => []
  }

  /** An item's x-span starts or ends within margin of the bollard. */
  predicate Near(pos: real, margin: real, it: Item)
  {
    (pos - margin <= it.x <= pos + margin) || (pos - margin <= it.x + it.packable.extent.xmax <= pos + margin)
  }

  function Low(it: Item, bit: real): real
  {
    it.y - bit
  }

  function High(it: Item, bit: real): real
  {
    it.y + it.packable.extent.ymax + bit
  }

  /** The inner loop over the items: the first near item whose span affects
      the interval, or None (the loop's else branch). */
  method FirstBlocker(iv: Interval, items: seq<Item>, bit: real, margin: real) returns (r: Option<nat>)
    ensures r.None? ==> (forall i :: 0 <= i < |items| && Near(iv.pos, margin, items[i]) ==>
      Classify(iv.lo, iv.hi, Low(items[i], bit), High(items[i], bit)) == Clear)
    ensures r.Some? ==> (r.value < |items| && Near(iv.pos, margin, items[r.value]) &&
      Classify(iv.lo, iv.hi, Low(items[r.value], bit), High(items[r.value], bit)) != Clear)
  {
    for i := 0 to |items|
      invariant forall j :: 0 <= j < i && Near(iv.pos, margin, items[j]) ==>
        Classify(iv.lo, iv.hi, Low(items[j], bit), High(items[j], bit)) == Clear
    {
      if Near(iv.pos, margin, items[i]) && Classify(iv.lo, iv.hi, Low(items[i], bit), High(items[i], bit)) != Clear {
        return Some(i);
      }
    }
    return None;
  }

  /** The item span ends, as the points that can split an interval. */
  function Ends(items: seq<Item>, bit: real): (r: seq<real>)
    ensures |r| == 2 * |items|
    ensures forall i :: 0 <= i < |items| ==> r[2 * i] == Low(items[i], bit) && r[2 * i + 1] == High(items[i], bit)
  {
    if |items| == 0 then []
    else Ends(items[..|items| - 1], bit) + [Low(items[|items| - 1], bit), High(items[|items| - 1], bit)]
  }

  /** How many of the points lie strictly inside (lo, hi). */
  function Inside(ps: seq<real>, lo: real, hi: real): nat
  {
    if |ps| == 0 then 0
    else Inside(ps[..|ps| - 1], lo, hi) + (if lo < ps[|ps| - 1] < hi then 1 else 0)
  }

  /** A sub-interval that leaves out a point inside the interval holds fewer
      points. */
  lemma {:induction false} InsideShrinks(ps: seq<real>, lo: real, hi: real, lo': real, hi': real, k: nat)
    requires lo <= lo' && hi' <= hi
    requires k < |ps| && lo < ps[k] < hi && !(lo' < ps[k] < hi')
    ensures Inside(ps, lo', hi') < Inside(ps, lo, hi)
  {
    var front := ps[..|ps| - 1];
    if k < |ps| - 1 {
      assert front[k] == ps[k];
      InsideShrinks(front, lo, hi, lo', hi', k);
    } else {
      InsideMono(front, lo, hi, lo', hi');
    }
  }

  lemma {:induction false} InsideMono(ps: seq<real>, lo: real, hi: real, lo': real, hi': real)
    requires lo <= lo' && hi' <= hi
    ensures Inside(ps, lo', hi') <= Inside(ps, lo, hi)
  {
    if |ps| > 0 {
      InsideMono(ps[..|ps| - 1], lo, hi, lo', hi');
    }
  }

  function Pow3(n: nat): (r: nat)
    ensures r >= 1
  {
    if n == 0 then 1 else 3 * Pow3(n - 1)
  }

  lemma {:induction false} Pow3Mono(a: nat, b: nat)
    requires a <= b
    ensures Pow3(a) <= Pow3(b)
  {
    if a < b {
      Pow3Mono(a, b - 1);
    }
  }

  /** The termination measure of the worklist: 3^(points inside) summed over
      the intervals. */
  function Weight(ps: seq<real>, wl: seq<Interval>): nat
  {
    if |wl| == 0 then 0 else Weight(ps, wl[..|wl| - 1]) + Pow3(Inside(ps, wl[|wl| - 1].lo, wl[|wl| - 1].hi))
  }

  lemma {:induction false} WeightAppend(ps: seq<real>, a: seq<Interval>, b: seq<Interval>)
    ensures Weight(ps, a + b) == Weight(ps, a) + Weight(ps, b)
  {
    if |b| > 0 {
      assert (a + b)[..|a + b| - 1] == a + b[..|b| - 1];
      WeightAppend(ps, a, b[..|b| - 1]);
    } else {
      assert a + b == a;
    }
  }

  /** A piece that leaves out a point inside the interval weighs at most a
      third of it. */
  lemma PieceWeight(ps: seq<real>, lo: real, hi: real, lo': real, hi': real, k: nat)
    requires lo <= lo' && hi' <= hi
    requires k < |ps| && lo < ps[k] < hi && !(lo' < ps[k] < hi')
    ensures 3 * Pow3(Inside(ps, lo', hi')) <= Pow3(Inside(ps, lo, hi))
  {
    InsideShrinks(ps, lo, hi, lo', hi', k);
    Pow3Mono(Inside(ps, lo', hi'), Inside(ps, lo, hi) - 1);
  }

  /** The pieces pushed for a cut weigh less than the interval popped; kl and
      kh index the item's span ends among the points. */
  lemma PiecesLighter(ps: seq<real>, iv: Interval, low: real, high: real, kl: nat, kh: nat)
    requires kl < |ps| && kh < |ps| && ps[kl] == low && ps[kh] == high && low <= high
    requires Classify(iv.lo, iv.hi, low, high) != Clear
    ensures Weight(ps, Pieces(iv, low, high, Classify(iv.lo, iv.hi, low, high))) < Pow3(Inside(ps, iv.lo, iv.hi))
  {
    var c := Classify(iv.lo, iv.hi, low, high);
    var r := Pieces(iv, low, high, c);
    if c == Split {
      PieceWeight(ps, iv.lo, iv.hi, iv.lo, low, kl);
      PieceWeight(ps, iv.lo, iv.hi, high, iv.hi, kh);
      var a, b := Interval(iv.pos, iv.lo, low), Interval(iv.pos, high, iv.hi);
      assert r == [a, b];
      assert r[..1] == [a] && [a][..0] == [];
      assert Weight(ps, [a]) == Pow3(Inside(ps, a.lo, a.hi));
    } else if c == KeepBelow {
      PieceWeight(ps, iv.lo, iv.hi, iv.lo, low, kl);
      assert r[..0] == [];
    } else if c == KeepAbove {
      PieceWeight(ps, iv.lo, iv.hi, high, iv.hi, kh);
      assert r[..0] == [];
    }
  }

  /** bol = int(xsize / 10): one candidate position per 10 units. */
  function BollardCount(xsize: real): int
  {
    Trunc(xsize / 10.0)
  }

  /** The candidate bollards ((i + 0.5) * xsize / bol, 0, ysize). */
  function Candidates0(xsize: real, ysize: real): (r: seq<Interval>)
    ensures forall k :: 0 <= k < |r| ==> r[k].lo == 0.0 && r[k].hi == ysize
  {
    var bol := BollardCount(xsize);
    if bol <= 0 then []
    else seq(bol, i requires 0 <= i < bol => Interval((i as real + 0.5) * xsize / bol as real, 0.0, ysize))
  }

  /** An interval lies in [0, ysize] at one of the candidate positions. */
  predicate Placed(iv: Interval, xsize: real, ysize: real)
  {
    0.0 <= iv.lo && iv.hi <= ysize && exists k :: 0 <= k < |Candidates0(xsize, ysize)| && Candidates0(xsize, ysize)[k].pos == iv.pos
  }

  /** The bollard worklist of render (bol_width 1, margin bol_width +
      bit_diameter + 0.25): pops an interval, and drops, trims or splits it
      at the first near item that overlaps it, or keeps it as a bollard when
      none does. Every bollard kept lies in [0, ysize] and no near item's
      span overlaps it; the weight of the worklist falls at each step. */
  method Bollards(xsize: real, ysize: real, bit: real, items: seq<Item>) returns (bols: seq<Interval>)
    requires bit >= 0.0 && forall i :: 0 <= i < |items| ==> items[i].packable.extent.ymax >= 0.0
    ensures forall b :: b in bols ==> Placed(b, xsize, ysize)
    ensures forall b, i :: b in bols && 0 <= i < |items| && Near(b.pos, 1.0 + bit + 0.25, items[i]) ==>
      Classify(b.lo, b.hi, Low(items[i], bit), High(items[i], bit)) == Clear
  {
    var margin := 1.0 + bit + 0.25;
    var ps := Ends(items, bit);
    var wl := Candidates0(xsize, ysize);
    bols := [];
    while |wl| > 0
      invariant forall k :: 0 <= k < |wl| ==> Placed(wl[k], xsize, ysize)
      invariant forall b :: b in bols ==> Placed(b, xsize, ysize)
      invariant forall b, i :: b in bols && 0 <= i < |items| && Near(b.pos, margin, items[i]) ==>
        Classify(b.lo, b.hi, Low(items[i], bit), High(items[i], bit)) == Clear
      decreases Weight(ps, wl)
    {
      var iv := wl[|wl| - 1];
      wl := wl[..|wl| - 1];
      assert Weight(ps, wl + [iv]) == Weight(ps, wl) + Pow3(Inside(ps, iv.lo, iv.hi)) by {
        assert (wl + [iv])[..|wl|] == wl;
      }
      var blocker := FirstBlocker(iv, items, bit, margin);
      match blocker {
        case None =>
          bols := bols + [iv];
        case Some(i) =>
          var low, high := Low(items[i], bit), High(items[i], bit);
          var kids := Pieces(iv, low, high, Classify(iv.lo, iv.hi, low, high));
          PiecesLighter(ps, iv, low, high, 2 * i, 2 * i + 1);
          WeightAppend(ps, wl, kids);
          wl := wl + kids;
      }
    }
  }
}
