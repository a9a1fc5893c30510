/** Piecewise-linear profiles (demakein/profile.py): a diameter as a function
    of position along the bore, with a possible jump at every breakpoint (a
    "low" value approaching from below and a "high" value leaving above). */
module Profiles {
  import opened Common

  datatype Profile = Profile(pos: seq<real>, low: seq<real>, high: seq<real>)

  /** The shape every profile built by the program has: one low and one high
      value per breakpoint, and at least one breakpoint. */
  predicate WellFormed(p: Profile)
  {
    |p.pos| > 0 && |p.low| == |p.pos| && |p.high| == |p.pos|
  }

  /** Profile(pos, low) with no high list: high defaults to low. */
  function NewProfile(pos: seq<real>, low: seq<real>, high: Option<seq<real>>): (p: Profile)
    ensures p.pos == pos && p.low == low
    ensures high.None? ==> p.high == low
    ensures high.Some? ==> p.high == high.value
  {
    Profile(pos, low, if high.None? then low else high.value)
  }

  /** bisect.bisect_left: the first index whose position is >= x (|s| if
      none). Its contract states the neighbourhood of the answer; that
      everything before it is below x is BisectLeftBelow. */
  function BisectLeft(s: seq<real>, x: real): (i: nat)
    ensures i <= |s|
    ensures i < |s| ==> s[i] >= x
    ensures 0 < i ==> s[i - 1] < x
  {
    if |s| == 0 || s[0] >= x then 0
    else
      var j := BisectLeft(s[1..], x);
      assert 0 < j ==> s[j] == s[1..][j - 1];
      1 + j
  }

  /** Everything before the bisection point is below x. */
  lemma {:induction false} BisectLeftBelow(s: seq<real>, x: real)
    ensures forall k :: 0 <= k < BisectLeft(s, x) ==> s[k] < x
  {
    if |s| > 0 && s[0] < x {
      BisectLeftBelow(s[1..], x);
      assert forall k :: 1 <= k < |s| ==> s[k] == s[1..][k - 1];
    }
  }

  /** The linear interpolation of __call__ between (x0, y0) and (x1, y1). */
  function Interp(x0: real, y0: real, x1: real, y1: real, x: real): real
    requires x0 < x1
  {
    var t := (x - x0) / (x1 - x0);
    (1.0 - t) * y0 + t * y1
  }

  /** Profile.__call__(position, high). */
  function Eval(p: Profile, x: real, high: bool): real
    requires WellFormed(p)
  {
    var n := |p.pos|;
    if x < p.pos[0] then p.low[0]
    else if x > p.pos[n - 1] then p.high[n - 1]
    else
      var i := BisectLeft(p.pos, x);
      if p.pos[i] == x then (if high then p.high[i] else p.low[i])
      else Interp(p.pos[i - 1], p.high[i - 1], p.pos[i], p.low[i], x)
  }

  function Start(p: Profile): (r: real)
    requires WellFormed(p)
    ensures r in p.pos
    ensures Sorted(p.pos) ==> forall k :: 0 <= k < |p.pos| ==> r <= p.pos[k]
  {
    p.pos[0]
  }

  function End(p: Profile): (r: real)
    requires WellFormed(p)
    ensures r in p.pos
    ensures Sorted(p.pos) ==> forall k :: 0 <= k < |p.pos| ==> p.pos[k] <= r
  {
    p.pos[|p.pos| - 1]
  }

  /** max(max(low), max(high)) */
  function Maximum(p: Profile): (r: real)
    requires WellFormed(p)
    ensures forall k :: 0 <= k < |p.pos| ==> p.low[k] <= r && p.high[k] <= r
    ensures r in p.low || r in p.high
  {
    MaxR(MaxSeq(p.low), MaxSeq(p.high))
  }

  /** The smallest value of the profile, the counterpart of Maximum. */
  function Minimum(p: Profile): (r: real)
    requires WellFormed(p)
    ensures forall k :: 0 <= k < |p.pos| ==> r <= p.low[k] && r <= p.high[k]
    ensures r in p.low || r in p.high
  {
    MinR(MinSeq(p.low), MinSeq(p.high))
  }

  lemma DivUnit(a: real, d: real)
    requires 0.0 <= a <= d && d > 0.0
    ensures 0.0 <= a / d <= 1.0
  {
    var q := a / d;
    assert q * d == a;
  }

  lemma MulNonneg(a: real, b: real)
    requires a >= 0.0 && b >= 0.0
    ensures a * b >= 0.0
  {
  }

  lemma InterpBetween(x0: real, y0: real, x1: real, y1: real, x: real)
    requires x0 < x1 && x0 <= x <= x1
    ensures MinR(y0, y1) <= Interp(x0, y0, x1, y1, x) <= MaxR(y0, y1)
  {
    var t := (x - x0) / (x1 - x0);
    DivUnit(x - x0, x1 - x0);
    assert (1.0 - t) * y0 + t * y1 == y0 + t * (y1 - y0);
    if y0 <= y1 {
      MulNonneg(1.0 - t, y1 - y0);
      MulNonneg(t, y1 - y0);
    } else {
      MulNonneg(1.0 - t, y0 - y1);
      MulNonneg(t, y0 - y1);
    }
  }

  /** Every value of the profile lies between some high[i] and some low[j]. */
  lemma EvalBetweenEntries(p: Profile, x: real, high: bool) returns (i: nat, j: nat)
    requires WellFormed(p)
    ensures i < |p.pos| && j < |p.pos|
    ensures MinR(p.high[i], p.low[j]) <= Eval(p, x, high) <= MaxR(p.high[i], p.low[j])
  {
    var n := |p.pos|;
    if x < p.pos[0] {
      i, j := 0, 0;
    } else if x > p.pos[n - 1] {
      i, j := n - 1, 0;
    } else {
      var k := BisectLeft(p.pos, x);
      if p.pos[k] == x {
        i, j := k, k;
      } else {
        i, j := k - 1, k;
        InterpBetween(p.pos[i], p.high[i], p.pos[j], p.low[j], x);
      }
    }
  }

  /** Every value the profile takes lies within the range of its breakpoint values. */
  lemma EvalBounded(p: Profile, x: real, high: bool)
    requires WellFormed(p)
    ensures Minimum(p) <= Eval(p, x, high) <= Maximum(p)
  {
    var i, j := EvalBetweenEntries(p, x, high);
  }

  /** Where bisect_left lands in a sorted list is determined by the neighbours. */
  lemma BisectLeftAt(s: seq<real>, x: real, j: nat)
    requires Sorted(s) && j <= |s|
    requires j > 0 ==> s[j - 1] < x
    requires j < |s| ==> x <= s[j]
    ensures BisectLeft(s, x) == j
  {
  }

  /** Before the first breakpoint the value is low[0]; after the last, high[-1]. */
  lemma EvalOutside(p: Profile, x: real, high: bool)
    requires WellFormed(p)
    ensures x < p.pos[0] ==> Eval(p, x, high) == p.low[0]
    ensures x > p.pos[|p.pos| - 1] && x >= p.pos[0] ==> Eval(p, x, high) == p.high[|p.pos| - 1]
  {
  }

  /** At breakpoint j the flag selects high[j] or low[j]. */
  lemma EvalAt(p: Profile, j: nat, high: bool)
    requires WellFormed(p) && StrictlySorted(p.pos) && j < |p.pos|
    ensures Eval(p, p.pos[j], high) == if high then p.high[j] else p.low[j]
  {
    BisectLeftAt(p.pos, p.pos[j], j);
  }

  /** Strictly between breakpoints j-1 and j the value is
      (1-t)*high[j-1] + t*low[j] with t in (0, 1), hence between those two values. */
  lemma EvalIn(p: Profile, x: real, high: bool, j: nat)
    requires WellFormed(p) && Sorted(p.pos)
    requires 0 < j < |p.pos| && p.pos[j - 1] < x < p.pos[j]
    ensures Eval(p, x, high) == Interp(p.pos[j - 1], p.high[j - 1], p.pos[j], p.low[j], x)
    ensures MinR(p.high[j - 1], p.low[j]) <= Eval(p, x, high) <= MaxR(p.high[j - 1], p.low[j])
  {
    BisectLeftAt(p.pos, x, j);
    InterpBetween(p.pos[j - 1], p.high[j - 1], p.pos[j], p.low[j], x);
  }

  /** A profile built without a separate high list is continuous: the side
      flag never matters. */
  lemma {:induction false} NoHighIsContinuous(pos: seq<real>, low: seq<real>, x: real)
    requires WellFormed(NewProfile(pos, low, None))
    ensures Eval(NewProfile(pos, low, None), x, true) == Eval(NewProfile(pos, low, None), x, false)
  {
    var p := NewProfile(pos, low, None);
    assert p.high == p.low;
  }

  // ---------------------------------------------------------------- reversed

  /** Profile.reversed: positions negated and reversed, low and high swapped. */
  function Reversed(p: Profile): (r: Profile)
    requires WellFormed(p)
    ensures WellFormed(r)
  {
    Profile(seq(|p.pos|, k requires 0 <= k < |p.pos| => -p.pos[|p.pos| - 1 - k]),
            Reverse(p.high), Reverse(p.low))
  }

  lemma InterpMirror(x0: real, y0: real, x1: real, y1: real, x: real)
    requires x0 < x1
    ensures Interp(-x1, y1, -x0, y0, x) == Interp(x0, y0, x1, y1, -x)
  {
    var d := x1 - x0;
    var t := (x + x1) / d;
    var u := (-x - x0) / d;
    assert t + u == (x + x1 - x - x0) / d;
    assert t + u == 1.0;
  }

  lemma ReversedStrictlySorted(p: Profile)
    requires WellFormed(p) && StrictlySorted(p.pos)
    ensures StrictlySorted(Reversed(p).pos) && Sorted(Reversed(p).pos)
  {
  }

  /** The between-breakpoints case of ReversedEval, for any profile r whose
      breakpoints around x mirror those of p around -x. */
  lemma MirrorEvalIn(p: Profile, r: Profile, x: real, high: bool, i: nat, j: nat)
    requires WellFormed(p) && Sorted(p.pos) && WellFormed(r) && Sorted(r.pos)
    requires 0 < i < |p.pos| && p.pos[i - 1] < -x < p.pos[i]
    requires 0 < j < |r.pos| && r.pos[j - 1] == -p.pos[i] && r.pos[j] == -p.pos[i - 1]
    requires r.high[j - 1] == p.low[i] && r.low[j] == p.high[i - 1]
    ensures Eval(r, x, high) == Eval(p, -x, !high)
  {
    EvalIn(r, x, high, j);
    EvalIn(p, -x, !high, i);
    InterpMirror(p.pos[i - 1], p.high[i - 1], p.pos[i], p.low[i], x);
  }

  lemma ReversedSorted(p: Profile)
    requires WellFormed(p) && Sorted(p.pos)
    ensures Sorted(Reversed(p).pos)
  {
  }

  lemma ReversedEvalBetween(p: Profile, x: real, high: bool, i: nat)
    requires WellFormed(p) && StrictlySorted(p.pos)
    requires 0 < i < |p.pos| && p.pos[i - 1] < -x < p.pos[i]
    ensures Eval(Reversed(p), x, high) == Eval(p, -x, !high)
  {
    var r := Reversed(p);
    var n := |p.pos|;
    ReversedSorted(p);
    assert r.pos[n - i - 1] == -p.pos[i] && r.pos[n - i] == -p.pos[i - 1];
    assert r.high[n - i - 1] == p.low[i] && r.low[n - i] == p.high[i - 1];
    MirrorEvalIn(p, r, x, high, i, n - i);
  }

  /** Matching breakpoints of two profiles that mirror each other give mirrored values. */
  lemma MirrorEvalAt(p: Profile, r: Profile, x: real, high: bool, i: nat, j: nat)
    requires WellFormed(p) && WellFormed(r) && StrictlySorted(p.pos) && StrictlySorted(r.pos)
    requires i < |p.pos| && j < |r.pos| && p.pos[i] == -x && r.pos[j] == x
    requires r.high[j] == p.low[i] && r.low[j] == p.high[i]
    ensures Eval(r, x, high) == Eval(p, -x, !high)
  {
    EvalAt(r, j, high);
    EvalAt(p, i, !high);
  }

  lemma ReversedEvalBreakpoint(p: Profile, x: real, high: bool, i: nat)
    requires WellFormed(p) && StrictlySorted(p.pos) && i < |p.pos| && p.pos[i] == -x
    ensures Eval(Reversed(p), x, high) == Eval(p, -x, !high)
  {
    var r := Reversed(p);
    var n := |p.pos|;
    ReversedStrictlySorted(p);
    assert r.pos[n - 1 - i] == x;
    assert r.high[n - 1 - i] == p.low[i] && r.low[n - 1 - i] == p.high[i];
    MirrorEvalAt(p, r, x, high, i, n - 1 - i);
  }

  lemma ReversedEvalOutside(p: Profile, x: real, high: bool)
    requires WellFormed(p) && StrictlySorted(p.pos)
    requires -x < p.pos[0] || -x > p.pos[|p.pos| - 1]
    ensures Eval(Reversed(p), x, high) == Eval(p, -x, !high)
  {
    var r := Reversed(p);
    var n := |p.pos|;
    assert r.pos[n - 1] == -p.pos[0] && r.pos[0] == -p.pos[n - 1];
    assert r.high[n - 1] == p.low[0] && r.low[0] == p.high[n - 1];
  }

  lemma LocateInside(s: seq<real>, y: real) returns (i: nat)
    requires |s| > 0 && s[0] <= y <= s[|s| - 1]
    ensures i < |s| && (s[i] == y || (0 < i && s[i - 1] < y < s[i]))
  {
    i := BisectLeft(s, y);
  }

  /** reversed()(x, h) == self(-x, not h) everywhere. */
  lemma {:induction false} ReversedEval(p: Profile, x: real, high: bool)
    requires WellFormed(p) && StrictlySorted(p.pos)
    ensures Eval(Reversed(p), x, high) == Eval(p, -x, !high)
  {
    var n := |p.pos|;
    if -x < p.pos[0] || -x > p.pos[n - 1] {
      ReversedEvalOutside(p, x, high);
    } else {
      var i := LocateInside(p.pos, -x);
      if p.pos[i] == -x {
        ReversedEvalBreakpoint(p, x, high, i);
      } else {
        ReversedEvalBetween(p, x, high, i);
      }
    }
  }

  /** Reversing twice restores pos, low and high. */
  lemma ReversedTwice(p: Profile)
    requires WellFormed(p)
    ensures Reversed(Reversed(p)) == p
  {
    var r := Reversed(Reversed(p));
    assert r.pos == p.pos;
    assert r.low == p.low;
    assert r.high == p.high;
  }

  // ------------------------------------------------------------------- moved

  /** Profile.moved(offset): positions shifted, values unchanged. */
  function Moved(p: Profile, offset: real): (r: Profile)
    requires WellFormed(p)
    ensures WellFormed(r)
    ensures r.low == p.low && r.high == p.high
  {
    Profile(seq(|p.pos|, k requires 0 <= k < |p.pos| => p.pos[k] + offset), p.low, p.high)
  }

  /** moved(o)(x) == self(x - o). */
  lemma MovedEval(p: Profile, offset: real, x: real, high: bool)
    requires WellFormed(p) && Sorted(p.pos)
    ensures Eval(Moved(p, offset), x, high) == Eval(p, x - offset, high)
  {
    MovedEvalAt(p, offset, x, x - offset, high);
  }

  /** MovedEval with the shifted position y == x - offset named. */
  lemma MovedEvalAt(p: Profile, offset: real, x: real, y: real, high: bool)
    requires WellFormed(p) && Sorted(p.pos) && y == x - offset
    ensures Eval(Moved(p, offset), x, high) == Eval(p, y, high)
  {
    var m := Moved(p, offset);
    var n := |p.pos|;
    assert m.pos[0] == p.pos[0] + offset && m.pos[n - 1] == p.pos[n - 1] + offset;
    if p.pos[0] <= y <= p.pos[n - 1] {
      var i := BisectLeft(p.pos, y);
      MovedSorted(p, offset);
      BisectLeftAt(m.pos, x, i);
      MovedInside(p, m, offset, x, y, high, i);
    }
  }

  lemma MovedSorted(p: Profile, offset: real)
    requires WellFormed(p) && Sorted(p.pos)
    ensures Sorted(Moved(p, offset).pos)
  {
    var m := Moved(p, offset);
    forall a, b | 0 <= a < b < |p.pos|
      ensures m.pos[a] <= m.pos[b]
    {
      assert p.pos[a] <= p.pos[b];
    }
  }

  /** Between its first and last breakpoints, the moved profile lands on the
      same index and so on the same entries. */
  lemma MovedInside(p: Profile, m: Profile, offset: real, x: real, y: real, high: bool, i: nat)
    requires WellFormed(p) && WellFormed(m) && y == x - offset && |m.pos| == |p.pos|
    requires m.low == p.low && m.high == p.high
    requires forall k :: 0 <= k < |p.pos| ==> m.pos[k] == p.pos[k] + offset
    requires p.pos[0] <= y <= p.pos[|p.pos| - 1]
    requires i == BisectLeft(p.pos, y) && i == BisectLeft(m.pos, x)
    ensures Eval(m, x, high) == Eval(p, y, high)
  {
    assert m.pos[0] == p.pos[0] + offset && m.pos[|p.pos| - 1] == p.pos[|p.pos| - 1] + offset;
    assert m.pos[i] == p.pos[i] + offset;
    if p.pos[i] != y {
      assert m.pos[i - 1] == p.pos[i - 1] + offset;
      EvalBetween(p, y, high, i);
      EvalBetween(m, x, high, i);
      InterpMoved(p.pos[i - 1], p.high[i - 1], p.pos[i], p.low[i], offset, x, y);
    }
  }

  /** Strictly between breakpoints i - 1 and i the value is interpolated. */
  lemma EvalBetween(p: Profile, x: real, high: bool, i: nat)
    requires WellFormed(p) && p.pos[0] <= x <= p.pos[|p.pos| - 1]
    requires i == BisectLeft(p.pos, x) && i < |p.pos| && p.pos[i] != x
    ensures 0 < i && p.pos[i - 1] < p.pos[i]
    ensures Eval(p, x, high) == Interp(p.pos[i - 1], p.high[i - 1], p.pos[i], p.low[i], x)
  {
  }

  /** Interpolation commutes with moving both ends and the point by the same offset. */
  lemma InterpMoved(x0: real, y0: real, x1: real, y1: real, offset: real, x: real, y: real)
    requires x0 < x1 && y == x - offset
    ensures Interp(x0 + offset, y0, x1 + offset, y1, x) == Interp(x0, y0, x1, y1, y)
  {
    assert (x1 + offset) - (x0 + offset) == x1 - x0;
    assert x - (x0 + offset) == y - x0;
  }

  // ----------------------------------------------------------- appended_with

  /** Profile.appended_with(other): other is moved to start where self ends;
      the shared breakpoint takes self's low and other's high. */
  function AppendedWith(p: Profile, other: Profile): (r: Profile)
    requires WellFormed(p) && WellFormed(other)
    ensures WellFormed(r)
    ensures |r.pos| == |p.pos| - 1 + |other.pos|
  {
    var o := Moved(other, End(p));
    Profile(p.pos[..|p.pos| - 1] + o.pos, p.low + o.low[1..], p.high[..|p.high| - 1] + o.high)
  }

  lemma {:induction false} BisectLeftAppend(a: seq<real>, b: seq<real>, x: real)
    ensures BisectLeft(a + b, x) ==
      if BisectLeft(a, x) < |a| then BisectLeft(a, x) else |a| + BisectLeft(b, x)
  {
    if |a| == 0 {
      assert a + b == b;
    } else if a[0] < x {
      assert (a + b)[1..] == a[1..] + b;
      BisectLeftAppend(a[1..], b, x);
    }
  }

  /** Two profiles agree at x when bisect_left lands on matching entries. */
  lemma EvalSame(p: Profile, q: Profile, x: real, high: bool, i: nat, j: nat)
    requires WellFormed(p) && WellFormed(q)
    requires p.pos[0] <= x <= p.pos[|p.pos| - 1] && q.pos[0] <= x <= q.pos[|q.pos| - 1]
    requires i == BisectLeft(p.pos, x) && j == BisectLeft(q.pos, x)
    requires i < |p.pos| && j < |q.pos| && p.pos[i] == q.pos[j]
    requires p.pos[i] == x ==> if high then p.high[i] == q.high[j] else p.low[i] == q.low[j]
    requires p.pos[i] != x ==> 0 < i && 0 < j && p.pos[i - 1] == q.pos[j - 1]
                               && p.high[i - 1] == q.high[j - 1] && p.low[i] == q.low[j]
    ensures Eval(p, x, high) == Eval(q, x, high)
  {
  }

  /** bisect_left only looks as far as the answer: lists sharing a prefix
      that contains the answer give the same index. */
  lemma BisectLeftPrefix(s: seq<real>, t: seq<real>, x: real, m: nat)
    requires m <= |s| && m <= |t| && s[..m] == t[..m] && BisectLeft(s, x) < m
    ensures BisectLeft(t, x) == BisectLeft(s, x)
  {
    var i := BisectLeft(s, x);
    var i' := BisectLeft(t, x);
    BisectLeftBelow(s, x);
    BisectLeftBelow(t, x);
    assert forall k :: 0 <= k < m ==> s[k] == s[..m][k] == t[..m][k] == t[k];
  }

  /** Appending breakpoints (opos, olow, ohigh) after p's last breakpoint,
      which opos starts with, does not change p's values up to that point
      (its low side there). */
  lemma {:induction false} JoinLeftIndex(p: Profile, r: Profile, x: real, high: bool) returns (i: nat)
    requires WellFormed(p) && WellFormed(r) && |r.pos| >= |p.pos|
    requires r.pos[..|p.pos|] == p.pos && r.low[..|p.pos|] == p.low
    requires r.high[..|p.pos| - 1] == p.high[..|p.pos| - 1]
    requires r.pos[|r.pos| - 1] >= End(p)
    requires p.pos[0] <= x && (x < End(p) || (x == End(p) && !high))
    ensures r.pos[0] <= x <= r.pos[|r.pos| - 1] && x <= p.pos[|p.pos| - 1]
    ensures i == BisectLeft(p.pos, x) && i == BisectLeft(r.pos, x) && i < |p.pos|
    ensures r.pos[i] == p.pos[i] && r.low[i] == p.low[i]
    ensures p.pos[i] == x && high ==> r.high[i] == p.high[i]
    ensures p.pos[i] != x ==> 0 < i && r.pos[i - 1] == p.pos[i - 1] && r.high[i - 1] == p.high[i - 1]
  {
    var n1 := |p.pos|;
    i := BisectLeft(p.pos, x);
    BisectLeftPrefix(p.pos, r.pos, x, n1);
    assert r.pos[i] == p.pos[i] == r.pos[..n1][i];
    assert r.low[i] == p.low[i] == r.low[..n1][i];
    assert r.pos[0] == r.pos[..n1][0];
    if i > 0 {
      assert r.pos[i - 1] == r.pos[..n1][i - 1];
      assert r.high[i - 1] == r.high[..n1 - 1][i - 1];
    }
    if p.pos[i] == x && high {
      assert i < n1 - 1;
      assert r.high[i] == r.high[..n1 - 1][i];
    }
  }

  /** Appending breakpoints (opos, olow, ohigh) after p's last breakpoint,
      which opos starts with, does not change p's values up to that point
      (its low side there). */
  lemma {:induction false} JoinLeftEval(p: Profile, opos: seq<real>, olow: seq<real>, ohigh: seq<real>, x: real, high: bool)
    requires WellFormed(p) && |opos| > 0 && |olow| == |opos| && |ohigh| == |opos|
    requires opos[0] == End(p) && opos[|opos| - 1] >= End(p)
    requires p.pos[0] <= x && (x < End(p) || (x == End(p) && !high))
    ensures Eval(Profile(p.pos[..|p.pos| - 1] + opos, p.low + olow[1..], p.high[..|p.pos| - 1] + ohigh), x, high)
         == Eval(p, x, high)
  {
    var n1 := |p.pos|;
    var r := Profile(p.pos[..n1 - 1] + opos, p.low + olow[1..], p.high[..n1 - 1] + ohigh);
    assert r.pos[..n1] == p.pos;
    assert r.low[..n1] == p.low;
    assert r.high[..n1 - 1] == p.high[..n1 - 1];
    assert r.pos[|r.pos| - 1] == opos[|opos| - 1];
    var i := JoinLeftIndex(p, r, x, high);
    EvalSame(p, r, x, high, i, i);
  }

  lemma {:induction false} AppendedWithLeftInside(p: Profile, other: Profile, x: real, high: bool)
    requires WellFormed(p) && WellFormed(other) && Sorted(other.pos)
    requires other.pos[0] == 0.0
    requires p.pos[0] <= x && (x < End(p) || (x == End(p) && !high))
    ensures Eval(AppendedWith(p, other), x, high) == Eval(p, x, high)
  {
    var n1 := |p.pos|;
    var o := Moved(other, End(p));
    assert o.pos[|o.pos| - 1] == other.pos[|o.pos| - 1] + End(p);
    assert AppendedWith(p, other) == Profile(p.pos[..n1 - 1] + o.pos, p.low + o.low[1..], p.high[..n1 - 1] + o.high);
    JoinLeftEval(p, o.pos, o.low, o.high, x, high);
  }

  lemma AppendedWithLeftBefore(p: Profile, other: Profile, x: real, high: bool)
    requires WellFormed(p) && WellFormed(other) && other.pos[0] == 0.0
    requires x < p.pos[0]
    ensures Eval(AppendedWith(p, other), x, high) == Eval(p, x, high)
  {
    var r := AppendedWith(p, other);
    assert r.pos[0] == p.pos[0] && r.low[0] == p.low[0] by {
      if |p.pos| == 1 {
        assert r.pos[0] == Moved(other, End(p)).pos[0] == other.pos[0] + p.pos[0];
      }
    }
  }

  /** Up to the joint (and at it on the low side) the appended profile is self. */
  lemma {:induction false} AppendedWithEvalLeft(p: Profile, other: Profile, x: real, high: bool)
    requires WellFormed(p) && WellFormed(other) && Sorted(other.pos)
    requires other.pos[0] == 0.0
    requires x < End(p) || (x == End(p) && !high)
    ensures Eval(AppendedWith(p, other), x, high) == Eval(p, x, high)
  {
    if x < p.pos[0] {
      AppendedWithLeftBefore(p, other, x, high);
    } else {
      AppendedWithLeftInside(p, other, x, high);
    }
  }

  lemma BisectLeftAfter(pre: seq<real>, s: seq<real>, x: real)
    requires forall k :: 0 <= k < |pre| ==> pre[k] < x
    ensures BisectLeft(pre + s, x) == |pre| + BisectLeft(s, x)
  {
    BisectLeftAppend(pre, s, x);
  }

  /** Joining breakpoints (pre, plow, phigh) in front of profile o does not
      change o's values from its first breakpoint on (the high side there). */
  lemma {:induction false} JoinRightEval(pre: seq<real>, plow: seq<real>, phigh: seq<real>, o: Profile, x: real, high: bool)
    requires WellFormed(o) && |plow| == |pre| + 1 && |phigh| == |pre|
    requires forall k :: 0 <= k < |pre| ==> pre[k] < o.pos[0]
    requires o.pos[0] <= x <= o.pos[|o.pos| - 1] && (!high ==> o.pos[0] < x)
    ensures Eval(Profile(pre + o.pos, plow + o.low[1..], phigh + o.high), x, high) == Eval(o, x, high)
  {
    var r := Profile(pre + o.pos, plow + o.low[1..], phigh + o.high);
    var m := |pre|;
    BisectLeftAfter(pre, o.pos, x);
    var j := BisectLeft(o.pos, x);
    var i := BisectLeft(r.pos, x);
    assert i == m + j;
    assert r.pos[i] == o.pos[j] && r.high[i] == o.high[j];
    if j > 0 {
      assert r.low[i] == o.low[j];
      assert r.pos[i - 1] == o.pos[j - 1] && r.high[i - 1] == o.high[j - 1];
    }
    assert r.pos[|r.pos| - 1] == o.pos[|o.pos| - 1];
    if m > 0 {
      assert r.pos[0] == pre[0];
    }
    EvalSame(o, r, x, high, j, i);
  }

  lemma {:induction false} AppendedWithRightInside(p: Profile, other: Profile, x: real, high: bool)
    requires WellFormed(p) && WellFormed(other) && StrictlySorted(p.pos) && Sorted(other.pos)
    requires other.pos[0] == 0.0
    requires x > End(p) || (x == End(p) && high)
    requires x <= Moved(other, End(p)).pos[|other.pos| - 1]
    ensures Eval(AppendedWith(p, other), x, high) == Eval(Moved(other, End(p)), x, high)
  {
    var n1 := |p.pos|;
    var o := Moved(other, End(p));
    var pre := p.pos[..n1 - 1];
    assert forall k :: 0 <= k < |pre| ==> pre[k] < o.pos[0];
    assert AppendedWith(p, other) == Profile(pre + o.pos, p.low + o.low[1..], p.high[..n1 - 1] + o.high);
    JoinRightEval(pre, p.low, p.high[..n1 - 1], o, x, high);
  }

  lemma AppendedWithRightBeyond(p: Profile, other: Profile, x: real, high: bool)
    requires WellFormed(p) && WellFormed(other) && StrictlySorted(p.pos) && Sorted(other.pos)
    requires other.pos[0] == 0.0
    requires x > Moved(other, End(p)).pos[|other.pos| - 1]
    ensures Eval(AppendedWith(p, other), x, high) == Eval(Moved(other, End(p)), x, high)
  {
    var r := AppendedWith(p, other);
    var o := Moved(other, End(p));
    var n1, n2 := |p.pos|, |other.pos|;
    assert r.pos[|r.pos| - 1] == o.pos[n2 - 1];
    assert r.high[|r.pos| - 1] == o.high[n2 - 1];
    assert o.pos[0] <= o.pos[n2 - 1];
    assert r.pos[0] <= End(p) by {
      if n1 > 1 {
        assert r.pos[0] == p.pos[0];
      }
    }
  }

  /** Beyond the joint (and at it on the high side) the appended profile is
      other, moved to start at self's end. */
  lemma {:induction false} AppendedWithEvalRight(p: Profile, other: Profile, x: real, high: bool)
    requires WellFormed(p) && WellFormed(other) && StrictlySorted(p.pos) && Sorted(other.pos)
    requires other.pos[0] == 0.0
    requires x > End(p) || (x == End(p) && high)
    ensures Eval(AppendedWith(p, other), x, high) == Eval(Moved(other, End(p)), x, high)
  {
    if x <= Moved(other, End(p)).pos[|other.pos| - 1] {
      AppendedWithRightInside(p, other, x, high);
    } else {
      AppendedWithRightBeyond(p, other, x, high);
    }
  }

  // ----------------------------------------------------------------- clipped

  /** Indices i < m whose position lies strictly inside (lo, hi), in order:
      the entries the loop of clipped keeps. */
  function InsideIndices(s: seq<real>, lo: real, hi: real, m: nat): (ix: seq<nat>)
    requires m <= |s|
    ensures forall k :: 0 <= k < |ix| ==> ix[k] < m
  {
    if m == 0 then []
    else InsideIndices(s, lo, hi, m - 1) + (if lo < s[m - 1] < hi then [m - 1] else [])
  }

  /** The entries of s at the indices ix. */
  function Pick(s: seq<real>, ix: seq<nat>): (r: seq<real>)
    requires forall k :: 0 <= k < |ix| ==> ix[k] < |s|
    ensures |r| == |ix| && forall k :: 0 <= k < |ix| ==> r[k] == s[ix[k]]
  {
    seq(|ix|, k requires 0 <= k < |ix| => s[ix[k]])
  }

  lemma PickAppend(s: seq<real>, ix: seq<nat>, i: nat)
    requires forall k :: 0 <= k < |ix| ==> ix[k] < |s|
    requires i < |s|
    ensures Pick(s, ix + [i]) == Pick(s, ix) + [s[i]]
  {
  }

  /** InsideIndices lists exactly the indices below m whose position is inside
      (lo, hi), each once and in increasing order. */
  lemma {:induction false} InsideIndicesExact(s: seq<real>, lo: real, hi: real, m: nat)
    requires m <= |s|
    ensures forall k :: 0 <= k < |InsideIndices(s, lo, hi, m)| ==>
      InsideIndices(s, lo, hi, m)[k] < m && lo < s[InsideIndices(s, lo, hi, m)[k]] < hi
    ensures forall i :: 0 <= i < m && lo < s[i] < hi ==> i in InsideIndices(s, lo, hi, m)
    ensures forall k, l :: 0 <= k < l < |InsideIndices(s, lo, hi, m)| ==>
      InsideIndices(s, lo, hi, m)[k] < InsideIndices(s, lo, hi, m)[l]
  {
    InsideIndicesInside(s, lo, hi, m);
    InsideIndicesComplete(s, lo, hi, m);
    InsideIndicesIncreasing(s, lo, hi, m);
  }

  lemma {:induction false} InsideIndicesInside(s: seq<real>, lo: real, hi: real, m: nat)
    requires m <= |s|
    ensures forall k :: 0 <= k < |InsideIndices(s, lo, hi, m)| ==> lo < s[InsideIndices(s, lo, hi, m)[k]] < hi
  {
    if m > 0 {
      InsideIndicesInside(s, lo, hi, m - 1);
    }
  }

  lemma {:induction false} InsideIndicesComplete(s: seq<real>, lo: real, hi: real, m: nat)
    requires m <= |s|
    ensures forall i :: 0 <= i < m && lo < s[i] < hi ==> i in InsideIndices(s, lo, hi, m)
  {
    if m > 0 {
      InsideIndicesComplete(s, lo, hi, m - 1);
    }
  }

  lemma {:induction false} InsideIndicesIncreasing(s: seq<real>, lo: real, hi: real, m: nat)
    requires m <= |s|
    ensures forall k, l :: 0 <= k < l < |InsideIndices(s, lo, hi, m)| ==>
      InsideIndices(s, lo, hi, m)[k] < InsideIndices(s, lo, hi, m)[l]
  {
    if m > 0 {
      InsideIndicesIncreasing(s, lo, hi, m - 1);
    }
  }

  /** Profile.clipped(start, end): a breakpoint at start valued self(start, True),
      the breakpoints strictly inside (start, end), and a breakpoint at end valued
      self(end, False). */
  method Clipped(p: Profile, start: real, end: real) returns (r: Profile)
    requires WellFormed(p)
    ensures WellFormed(r)
    ensures var ix := InsideIndices(p.pos, start, end, |p.pos|);
      r.pos == [start] + Pick(p.pos, ix) + [end] &&
      r.low == [Eval(p, start, true)] + Pick(p.low, ix) + [Eval(p, end, false)] &&
      r.high == [Eval(p, start, true)] + Pick(p.high, ix) + [Eval(p, end, false)]
  {
    var first := Eval(p, start, true);
    var pos := [start];
    var low := [first];
    var high := [first];
    for i := 0 to |p.pos|
      invariant KeptSoFar(p, start, end, i, first, pos, low, high)
    {
      KeptStep(p, start, end, i, first, pos, low, high);
      if !(p.pos[i] <= start || p.pos[i] >= end) {
        pos := pos + [p.pos[i]];
        low := low + [p.low[i]];
        high := high + [p.high[i]];
      }
    }
    var last := Eval(p, end, false);
    pos := pos + [end];
    low := low + [last];
    high := high + [last];
    r := Profile(pos, low, high);
  }

  /** The state of clipped's loop after the first i breakpoints. */
  ghost predicate KeptSoFar(p: Profile, start: real, end: real, i: nat, first: real,
                            pos: seq<real>, low: seq<real>, high: seq<real>)
    requires WellFormed(p) && i <= |p.pos|
  {
    var ix := InsideIndices(p.pos, start, end, i);
    pos == [start] + Pick(p.pos, ix) && low == [first] + Pick(p.low, ix) && high == [first] + Pick(p.high, ix)
  }

  lemma KeptStep(p: Profile, start: real, end: real, i: nat, first: real,
                 pos: seq<real>, low: seq<real>, high: seq<real>)
    requires WellFormed(p) && i < |p.pos| && KeptSoFar(p, start, end, i, first, pos, low, high)
    ensures start < p.pos[i] < end ==>
      KeptSoFar(p, start, end, i + 1, first, pos + [p.pos[i]], low + [p.low[i]], high + [p.high[i]])
    ensures !(start < p.pos[i] < end) ==> KeptSoFar(p, start, end, i + 1, first, pos, low, high)
  {
    var ix := InsideIndices(p.pos, start, end, i);
    InsideStep(p.pos, start, end, i);
    PickAppend(p.pos, ix, i);
    PickAppend(p.low, ix, i);
    PickAppend(p.high, ix, i);
  }

  lemma InsideStep(s: seq<real>, lo: real, hi: real, i: nat)
    requires i < |s|
    ensures InsideIndices(s, lo, hi, i + 1) ==
      InsideIndices(s, lo, hi, i) + (if lo < s[i] < hi then [i] else [])
  {
  }

  /** Joining two strictly increasing lists, the first ending below where the
      second starts, gives a strictly increasing list. */
  lemma ConcatStrictlySorted(a: seq<real>, b: seq<real>)
    requires StrictlySorted(a) && StrictlySorted(b)
    requires |a| > 0 && |b| > 0 ==> a[|a| - 1] < b[0]
    ensures StrictlySorted(a + b)
  {
    var c := a + b;
    forall i, j | 0 <= i < j < |c|
      ensures c[i] < c[j]
    {
      if i < |a| <= j {
        assert a[i] <= a[|a| - 1];
        assert b[0] <= b[j - |a|];
      }
    }
  }

  /** For increasing positions and start < end, the clipped positions increase
      strictly and all interior ones lie inside (start, end). */
  lemma ClippedStrictlySorted(p: Profile, start: real, end: real)
    requires WellFormed(p) && StrictlySorted(p.pos) && start < end
    ensures var inner := Pick(p.pos, InsideIndices(p.pos, start, end, |p.pos|));
      StrictlySorted([start] + inner + [end]) &&
      forall k :: 0 <= k < |inner| ==> start < inner[k] < end
  {
    var ix := InsideIndices(p.pos, start, end, |p.pos|);
    InsideIndicesExact(p.pos, start, end, |p.pos|);
    var inner := Pick(p.pos, ix);
    PickIncreasing(p.pos, ix);
    assert forall k :: 0 <= k < |inner| ==> start < inner[k] < end;
    Bracketed(start, inner, end);
  }

  /** An increasing list strictly inside (start, end) stays increasing with
      start in front and end behind. */
  lemma Bracketed(start: real, inner: seq<real>, end: real)
    requires start < end && StrictlySorted(inner)
    requires forall k :: 0 <= k < |inner| ==> start < inner[k] < end
    ensures StrictlySorted([start] + inner + [end])
  {
    ConcatStrictlySorted([start], inner);
    var front := [start] + inner;
    assert front[|front| - 1] < end;
    ConcatStrictlySorted(front, [end]);
  }

  /** Entries picked at increasing indices of an increasing list increase. */
  lemma PickIncreasing(s: seq<real>, ix: seq<nat>)
    requires StrictlySorted(s)
    requires forall k :: 0 <= k < |ix| ==> ix[k] < |s|
    requires forall k, l :: 0 <= k < l < |ix| ==> ix[k] < ix[l]
    ensures StrictlySorted(Pick(s, ix))
  {
    var r := Pick(s, ix);
    forall k, l | 0 <= k < l < |r|
      ensures r[k] < r[l]
    {
      assert ix[k] < ix[l];
    }
  }

  // -------------------------------------------------------------- as_stepped

  /** The number of sub-steps of a segment: int(abs(by - ay) / max_step) + 1. */
  function StepCount(y0: real, y1: real, maxStep: real): (n: nat)
    requires maxStep > 0.0
    ensures n >= 1
  {
    Trunc(Abs(y1 - y0) / maxStep) + 1
  }

  /** The j-th of n equally spaced points from ax towards bx. */
  function StepPos(ax: real, bx: real, j: nat, n: nat): real
    requires n > 0
  {
    (bx - ax) * (j as real) / (n as real) + ax
  }

  /** The interior points ax + (bx-ax)*j/n for j = 1 .. n-1 that as_stepped
      inserts into segment i. */
  function SubSteps(p: Profile, maxStep: real, i: nat): (r: seq<real>)
    requires WellFormed(p) && maxStep > 0.0 && i + 1 < |p.pos|
    ensures |r| == StepCount(p.high[i], p.low[i + 1], maxStep) - 1
  {
    var n := StepCount(p.high[i], p.low[i + 1], maxStep);
    seq(n - 1, j requires 0 <= j < n - 1 => StepPos(p.pos[i], p.pos[i + 1], j + 1, n))
  }

  /** The positions as_stepped has produced after its first m segments. */
  function SteppedPrefix(p: Profile, maxStep: real, m: nat): (r: seq<real>)
    requires WellFormed(p) && maxStep > 0.0 && m < |p.pos|
    ensures |r| >= m
  {
    if m == 0 then []
    else SteppedPrefix(p, maxStep, m - 1) + [p.pos[m - 1]] + SubSteps(p, maxStep, m - 1)
  }

  /** The positions of as_stepped(max_step). */
  function SteppedPositions(p: Profile, maxStep: real): seq<real>
    requires WellFormed(p) && maxStep > 0.0
  {
    SteppedPrefix(p, maxStep, |p.pos| - 1) + [p.pos[|p.pos| - 1]]
  }

  /** The inner loop of as_stepped: the sub-step points of segment i. */
  method StepSegment(p: Profile, maxStep: real, i: nat) returns (steps: seq<real>)
    requires WellFormed(p) && maxStep > 0.0 && i + 1 < |p.pos|
    ensures steps == SubSteps(p, maxStep, i)
  {
    var x0, y0, x1, y1 := p.pos[i], p.high[i], p.pos[i + 1], p.low[i + 1];
    var n := StepCount(y0, y1, maxStep);
    steps := [];
    for j := 1 to n
      invariant steps == SubSteps(p, maxStep, i)[..j - 1]
    {
      assert SubSteps(p, maxStep, i)[..j] == SubSteps(p, maxStep, i)[..j - 1] + [StepPos(x0, x1, j, n)];
      steps := steps + [StepPos(x0, x1, j, n)];
    }
    assert SubSteps(p, maxStep, i)[..n - 1] == SubSteps(p, maxStep, i);
  }

  /** The profile's (low-side) value at the midpoint of each piece of pos. */
  function MidValues(p: Profile, pos: seq<real>): (d: seq<real>)
    requires WellFormed(p) && |pos| >= 1
    ensures |d| == |pos| - 1
  {
    seq(|pos| - 1, k requires 0 <= k < |pos| - 1 => Eval(p, 0.5 * (pos[k] + pos[k + 1]), false))
  }

  /** The diams comprehension of as_stepped. */
  method MidpointValues(p: Profile, pos: seq<real>) returns (diams: seq<real>)
    requires WellFormed(p) && |pos| >= 1
    ensures diams == MidValues(p, pos)
  {
    diams := [];
    for i := 0 to |pos| - 1
      invariant diams == MidValues(p, pos)[..i]
    {
      diams := diams + [Eval(p, 0.5 * (pos[i] + pos[i + 1]), false)];
    }
  }

  /** The position-building loop of as_stepped. */
  method StepPositions(p: Profile, maxStep: real) returns (pos: seq<real>)
    requires WellFormed(p) && |p.pos| >= 2 && maxStep > 0.0
    ensures pos == SteppedPositions(p, maxStep) && |pos| >= 2
  {
    pos := [];
    for i := 0 to |p.pos| - 1
      invariant pos == SteppedPrefix(p, maxStep, i)
    {
      var steps := StepSegment(p, maxStep, i);
      pos := pos + [p.pos[i]] + steps;
    }
    pos := pos + [p.pos[|p.pos| - 1]];
  }

  /** Profile.as_stepped(max_step): every segment is cut into sub-steps of
      value change at most max_step, and the value of each new piece is the
      profile at the piece's midpoint, with high[i] == low[i + 1]. */
  method AsStepped(p: Profile, maxStep: real) returns (r: Profile)
    requires WellFormed(p) && |p.pos| >= 2 && maxStep > 0.0
    ensures WellFormed(r)
    ensures r.pos == SteppedPositions(p, maxStep)
    ensures var d := MidValues(p, r.pos);
      r.low == [d[0]] + d && r.high == d + [d[|d| - 1]]
    ensures forall k :: 0 <= k < |r.pos| - 1 ==> r.high[k] == r.low[k + 1]
  {
    var pos := StepPositions(p, maxStep);
    var diams := MidpointValues(p, pos);
    var low := [diams[0]] + diams;
    var high := diams + [diams[|diams| - 1]];
    r := Profile(pos, low, high);
  }

  /** Every original breakpoint is kept by the first m segments of as_stepped. */
  lemma {:induction false} SteppedPrefixKeeps(p: Profile, maxStep: real, m: nat)
    requires WellFormed(p) && maxStep > 0.0 && m < |p.pos|
    ensures forall i :: 0 <= i < m ==> p.pos[i] in SteppedPrefix(p, maxStep, m)
  {
    if m > 0 {
      SteppedPrefixKeeps(p, maxStep, m - 1);
      var pre := SteppedPrefix(p, maxStep, m - 1);
      assert SteppedPrefix(p, maxStep, m) == pre + [p.pos[m - 1]] + SubSteps(p, maxStep, m - 1);
    }
  }

  /** as_stepped keeps every original breakpoint. */
  lemma AsSteppedKeepsBreakpoints(p: Profile, maxStep: real)
    requires WellFormed(p) && maxStep > 0.0
    ensures forall i :: 0 <= i < |p.pos| ==> p.pos[i] in SteppedPositions(p, maxStep)
  {
    SteppedPrefixKeeps(p, maxStep, |p.pos| - 1);
  }

  lemma StepPosInside(x0: real, x1: real, j: nat, n: nat)
    requires x0 < x1 && 0 < j < n
    ensures x0 < StepPos(x0, x1, j, n) < x1
  {
    var d, a, b := x1 - x0, j as real, n as real;
    FractionInside(a, b, d);
    assert StepPos(x0, x1, j, n) == a * d / b + x0;
  }

  lemma StepPosIncreasing(x0: real, x1: real, j: nat, n: nat)
    requires x0 < x1 && n > 0
    ensures StepPos(x0, x1, j, n) < StepPos(x0, x1, j + 1, n)
  {
    var d, a, b := x1 - x0, j as real, n as real;
    ScaledStep(d, a, b);
    assert StepPos(x0, x1, j, n) == d * a / b + x0;
    assert StepPos(x0, x1, j + 1, n) == d * (a + 1.0) / b + x0;
  }

  /** d * a / b < d * (a + 1) / b for d, b > 0. */
  lemma ScaledStep(d: real, a: real, b: real)
    requires d > 0.0 && b > 0.0
    ensures d * a / b < d * (a + 1.0) / b
  {
    assert d * (a + 1.0) == d * a + d;
    assert (d * a + d) / b == d * a / b + d / b;
    assert d / b > 0.0;
  }

  /** The sub-step points of an increasing segment increase strictly and lie
      strictly inside it. */
  lemma SubStepsInside(p: Profile, maxStep: real, i: nat)
    requires WellFormed(p) && maxStep > 0.0 && i + 1 < |p.pos| && p.pos[i] < p.pos[i + 1]
    ensures StrictlySorted(SubSteps(p, maxStep, i))
    ensures forall k :: 0 <= k < |SubSteps(p, maxStep, i)| ==>
      p.pos[i] < SubSteps(p, maxStep, i)[k] < p.pos[i + 1]
  {
    var sub := SubSteps(p, maxStep, i);
    var n := StepCount(p.high[i], p.low[i + 1], maxStep);
    forall k | 0 <= k < |sub|
      ensures p.pos[i] < sub[k] < p.pos[i + 1]
    {
      StepPosInside(p.pos[i], p.pos[i + 1], k + 1, n);
    }
    forall k, l | 0 <= k < l < |sub|
      ensures sub[k] < sub[l]
    {
      StepIncreasingFrom(p.pos[i], p.pos[i + 1], k + 1, l + 1, n);
    }
  }

  lemma {:induction false} StepIncreasingFrom(x0: real, x1: real, j: nat, l: nat, n: nat)
    requires x0 < x1 && n > 0 && j < l
    ensures StepPos(x0, x1, j, n) < StepPos(x0, x1, l, n)
    decreases l - j
  {
    StepPosIncreasing(x0, x1, j, n);
    if j + 1 < l {
      StepIncreasingFrom(x0, x1, j + 1, l, n);
    }
  }

  /** The first m segments of as_stepped give increasing positions below pos[m]. */
  lemma {:induction false} SteppedPrefixSorted(p: Profile, maxStep: real, m: nat)
    requires WellFormed(p) && StrictlySorted(p.pos) && maxStep > 0.0 && m < |p.pos|
    ensures StrictlySorted(SteppedPrefix(p, maxStep, m))
    ensures forall k :: 0 <= k < |SteppedPrefix(p, maxStep, m)| ==> SteppedPrefix(p, maxStep, m)[k] < p.pos[m]
  {
    if m > 0 {
      SteppedPrefixSorted(p, maxStep, m - 1);
      var pre := SteppedPrefix(p, maxStep, m - 1);
      var sub := SubSteps(p, maxStep, m - 1);
      SubStepsInside(p, maxStep, m - 1);
      ConcatStrictlySorted(pre, [p.pos[m - 1]]);
      ConcatStrictlySorted(pre + [p.pos[m - 1]], sub);
      var all := pre + [p.pos[m - 1]] + sub;
      assert all == SteppedPrefix(p, maxStep, m);
      forall k | 0 <= k < |all|
        ensures all[k] < p.pos[m]
      {
        if k < |pre| {
          assert all[k] == pre[k];
        } else if k > |pre| {
          assert all[k] == sub[k - |pre| - 1];
        }
      }
    }
  }

  /** For increasing breakpoints, the positions of as_stepped increase strictly. */
  lemma AsSteppedStrictlySorted(p: Profile, maxStep: real)
    requires WellFormed(p) && StrictlySorted(p.pos) && maxStep > 0.0
    ensures StrictlySorted(SteppedPositions(p, maxStep))
  {
    var m := |p.pos| - 1;
    SteppedPrefixSorted(p, maxStep, m);
    ConcatStrictlySorted(SteppedPrefix(p, maxStep, m), [p.pos[m]]);
  }

  /** A profile whose high[j-1] equals low[j] (as as_stepped's result) is
      constant strictly between those breakpoints, on both sides. */
  lemma StepConstant(q: Profile, x: real, high: bool, j: nat)
    requires WellFormed(q) && Sorted(q.pos)
    requires 0 < j < |q.pos| && q.pos[j - 1] < x < q.pos[j] && q.high[j - 1] == q.low[j]
    ensures Eval(q, x, high) == q.high[j - 1]
  {
    EvalIn(q, x, high, j);
  }

  // ------------------------------------------------------------------- morph

  /** The second operand of morph: a profile, or a plain number that acts as
      the constant profile Profile([0.0], [c], [c]). */
  datatype Operand = ProfileOperand(profile: Profile) | Constant(c: real)

  function AsProfile(o: Operand): (q: Profile)
    ensures o.Constant? ==> WellFormed(q)
  {
    match o
    case ProfileOperand(q) => q
    case Constant(c) => Profile([0.0], [c], [c])
  }

  /** A number used as an operand has its value everywhere. */
  lemma ConstantEval(c: real, x: real, high: bool)
    ensures Eval(AsProfile(Constant(c)), x, high) == c
  {
    var q := AsProfile(Constant(c));
    if 0.0 <= x <= 0.0 {
      assert BisectLeft(q.pos, x) == 0;
    }
  }

  /** Insert x into a strictly increasing list, keeping it strictly increasing
      and free of duplicates. */
  function InsertSorted(s: seq<real>, x: real): (r: seq<real>)
    requires StrictlySorted(s)
    ensures StrictlySorted(r)
    ensures forall y :: y in r <==> y in s || y == x
  {
    if |s| == 0 then [x]
    else if x < s[0] then [x] + s
    else if x == s[0] then s
    else
      var t := InsertSorted(s[1..], x);
      assert forall y :: y in t ==> y in s[1..] || y == x;
      assert forall k :: 0 <= k < |t| ==> t[k] in t;
      [s[0]] + t
  }

  /** sorted(set(xs)): the distinct values of xs in increasing order. */
  function SortedSet(xs: seq<real>): (r: seq<real>)
    ensures StrictlySorted(r)
    ensures forall y :: y in r <==> y in xs
  {
    if |xs| == 0 then []
    else
      var r := InsertSorted(SortedSet(xs[..|xs| - 1]), xs[|xs| - 1]);
      assert xs == xs[..|xs| - 1] + [xs[|xs| - 1]];
      r
  }

  /** A strictly increasing list is determined by its set of values, so
      SortedSet is the one list sorted(set(xs)) describes. */
  lemma {:induction false} StrictlySortedUnique(a: seq<real>, b: seq<real>)
    requires StrictlySorted(a) && StrictlySorted(b)
    requires forall y :: y in a <==> y in b
    ensures a == b
  {
    assert |a| > 0 ==> a[0] in a;
    assert |b| > 0 ==> b[0] in b;
    if |a| > 0 && |b| > 0 {
      FirstIsLeast(a, b[0]);
      FirstIsLeast(b, a[0]);
      TailSameMembers(a, b);
      StrictlySortedUnique(a[1..], b[1..]);
      assert a == [a[0]] + a[1..] && b == [b[0]] + b[1..];
    }
  }

  /** Two increasing lists with the same members and the same first element
      have increasing tails with the same members. */
  lemma TailSameMembers(a: seq<real>, b: seq<real>)
    requires StrictlySorted(a) && StrictlySorted(b) && |a| > 0 && |b| > 0 && a[0] == b[0]
    requires forall y :: y in a <==> y in b
    ensures StrictlySorted(a[1..]) && StrictlySorted(b[1..])
    ensures forall y :: y in a[1..] <==> y in b[1..]
  {
    forall y
      ensures y in a[1..] <==> y in b[1..]
    {
      if y in a[1..] {
        var k :| 0 <= k < |a[1..]| && a[1..][k] == y;
        assert a[0] < a[k + 1] && y in b;
      }
      if y in b[1..] {
        var k :| 0 <= k < |b[1..]| && b[1..][k] == y;
        assert b[0] < b[k + 1] && y in a;
      }
    }
  }

  /** Profile.morph(other, operator): breakpoints at every position of either
      operand; at each, the operator applied to both values on each side. */
  function Morph(p: Profile, other: Operand, op: (real, real) -> real): (r: Profile)
    requires WellFormed(p) && WellFormed(AsProfile(other))
    ensures WellFormed(r) && StrictlySorted(r.pos)
    ensures forall y :: y in r.pos <==> y in p.pos || y in AsProfile(other).pos
  {
    var q := AsProfile(other);
    var pos := SortedSet(p.pos + q.pos);
    assert p.pos[0] in p.pos + q.pos;
    var low := seq(|pos|, k requires 0 <= k < |pos| => op(Eval(p, pos[k], false), Eval(q, pos[k], false)));
    var high := seq(|pos|, k requires 0 <= k < |pos| => op(Eval(p, pos[k], true), Eval(q, pos[k], true)));
    Profile(pos, low, high)
  }

  /** At every breakpoint of either operand the morph is the operator applied
      to the operands' values there. */
  lemma MorphAtBreakpoint(p: Profile, other: Operand, op: (real, real) -> real, x: real, high: bool)
    requires WellFormed(p) && WellFormed(AsProfile(other))
    requires x in p.pos || x in AsProfile(other).pos
    ensures Eval(Morph(p, other, op), x, high) == op(Eval(p, x, high), Eval(AsProfile(other), x, high))
  {
    var m := Morph(p, other, op);
    var k :| 0 <= k < |m.pos| && m.pos[k] == x;
    MorphValues(p, other, op, k);
    EvalAt(m, k, high);
  }

  /** At each of its breakpoints the morph holds the operator applied to both
      operands' values, on the low and on the high side. */
  lemma MorphValues(p: Profile, other: Operand, op: (real, real) -> real, k: nat)
    requires WellFormed(p) && WellFormed(AsProfile(other))
    requires k < |Morph(p, other, op).pos|
    ensures var m := Morph(p, other, op);
      m.low[k] == op(Eval(p, m.pos[k], false), Eval(AsProfile(other), m.pos[k], false)) &&
      m.high[k] == op(Eval(p, m.pos[k], true), Eval(AsProfile(other), m.pos[k], true))
  {
  }

  /** morph's positions are exactly sorted(set(self.pos + other.pos)). */
  lemma MorphPositions(p: Profile, other: Operand, op: (real, real) -> real)
    requires WellFormed(p) && WellFormed(AsProfile(other))
    ensures Morph(p, other, op).pos == SortedSet(p.pos + AsProfile(other).pos)
  {
    var xs := p.pos + AsProfile(other).pos;
    assert forall y :: y in xs <==> y in p.pos || y in AsProfile(other).pos;
    StrictlySortedUnique(Morph(p, other, op).pos, SortedSet(xs));
  }

  /** Up to the first breakpoint of an increasing profile its value is low[0]. */
  lemma EvalUpToFirst(p: Profile, y: real, high: bool)
    requires WellFormed(p) && Sorted(p.pos) && y <= p.pos[0]
    ensures y < p.pos[0] || !high ==> Eval(p, y, high) == p.low[0]
  {
  }

  /** From the last breakpoint of a strictly increasing profile on, its high-side
      value is high[-1]. */
  lemma EvalFromLast(p: Profile, y: real, high: bool)
    requires WellFormed(p) && StrictlySorted(p.pos) && y >= p.pos[|p.pos| - 1]
    ensures y > p.pos[|p.pos| - 1] || high ==> Eval(p, y, high) == p.high[|p.pos| - 1]
  {
    if y == p.pos[|p.pos| - 1] {
      EvalAt(p, |p.pos| - 1, high);
    }
  }

  /** A profile m whose first breakpoint lies at or before both operands' and
      holds op of their low-side values there agrees with op before it. */
  lemma CombinedBefore(p: Profile, q: Profile, m: Profile, op: (real, real) -> real, x: real, high: bool)
    requires WellFormed(p) && WellFormed(q) && WellFormed(m) && Sorted(p.pos) && Sorted(q.pos)
    requires m.pos[0] <= p.pos[0] && m.pos[0] <= q.pos[0] && x < m.pos[0]
    requires m.low[0] == op(Eval(p, m.pos[0], false), Eval(q, m.pos[0], false))
    ensures Eval(m, x, high) == op(Eval(p, x, high), Eval(q, x, high))
  {
    EvalUpToFirst(p, m.pos[0], false);
    EvalUpToFirst(q, m.pos[0], false);
    EvalUpToFirst(p, x, high);
    EvalUpToFirst(q, x, high);
  }

  /** The mirror image of CombinedBefore beyond the last breakpoint. */
  lemma CombinedAfter(p: Profile, q: Profile, m: Profile, op: (real, real) -> real, x: real, high: bool)
    requires WellFormed(p) && WellFormed(q) && WellFormed(m) && StrictlySorted(p.pos) && StrictlySorted(q.pos)
    requires var e := m.pos[|m.pos| - 1];
      m.pos[0] <= e && e >= p.pos[|p.pos| - 1] && e >= q.pos[|q.pos| - 1] && x > e &&
      m.high[|m.pos| - 1] == op(Eval(p, e, true), Eval(q, e, true))
    ensures Eval(m, x, high) == op(Eval(p, x, high), Eval(q, x, high))
  {
    var e := m.pos[|m.pos| - 1];
    EvalFromLast(p, e, true);
    EvalFromLast(q, e, true);
    EvalFromLast(p, x, high);
    EvalFromLast(q, x, high);
  }

  /** Before every breakpoint, the morph is the operator applied to both operands. */
  lemma MorphBefore(p: Profile, other: Operand, op: (real, real) -> real, x: real, high: bool)
    requires WellFormed(p) && WellFormed(AsProfile(other))
    requires Sorted(p.pos) && Sorted(AsProfile(other).pos)
    requires x < Morph(p, other, op).pos[0]
    ensures Eval(Morph(p, other, op), x, high) == op(Eval(p, x, high), Eval(AsProfile(other), x, high))
  {
    var m := Morph(p, other, op);
    var q := AsProfile(other);
    assert p.pos[0] in p.pos && q.pos[0] in q.pos;
    assert p.pos[0] in m.pos && q.pos[0] in m.pos;
    FirstIsLeast(m.pos, p.pos[0]);
    FirstIsLeast(m.pos, q.pos[0]);
    MorphValues(p, other, op, 0);
    CombinedBefore(p, q, m, op, x, high);
  }

  /** Beyond every breakpoint, the morph is the operator applied to both operands. */
  lemma MorphAfter(p: Profile, other: Operand, op: (real, real) -> real, x: real, high: bool)
    requires WellFormed(p) && WellFormed(AsProfile(other))
    requires StrictlySorted(p.pos) && StrictlySorted(AsProfile(other).pos)
    requires x > Morph(p, other, op).pos[|Morph(p, other, op).pos| - 1]
    ensures Eval(Morph(p, other, op), x, high) == op(Eval(p, x, high), Eval(AsProfile(other), x, high))
  {
    var m := Morph(p, other, op);
    var q := AsProfile(other);
    var pe, qe := p.pos[|p.pos| - 1], q.pos[|q.pos| - 1];
    assert pe in p.pos && qe in q.pos;
    assert pe in m.pos && qe in m.pos;
    LastIsGreatest(m.pos, pe);
    LastIsGreatest(m.pos, qe);
    LastIsGreatest(m.pos, m.pos[0]);
    MorphValues(p, other, op, |m.pos| - 1);
    CombinedAfter(p, q, m, op, x, high);
  }

  /** Every member of a sorted sequence lies at or after its first element. */
  lemma FirstIsLeast(s: seq<real>, y: real)
    requires StrictlySorted(s) && y in s
    ensures s[0] <= y
  {
    var k :| 0 <= k < |s| && s[k] == y;
    assert k == 0 || s[0] <= s[k];
  }

  /** Every member of a strictly increasing sequence lies at or before its last element. */
  lemma LastIsGreatest(s: seq<real>, y: real)
    requires StrictlySorted(s) && y in s
    ensures y <= s[|s| - 1]
  {
    var k :| 0 <= k < |s| && s[k] == y;
    assert k == |s| - 1 || s[k] <= s[|s| - 1];
  }

  // ------------------------------------------------------------ make_profile

  /** One entry of make_profile's spec: (pos, d) or (pos, low, high). */
  datatype SpecItem = Point(at: real, d: real) | Step(at: real, lo: real, hi: real)

  function ItemLow(item: SpecItem): real
  {
    match item
    case Point(_, d) => d
    case Step(_, lo, _) => lo
  }

  function ItemHigh(item: SpecItem): real
  {
    match item
    case Point(_, d) => d
    case Step(_, _, hi) => hi
  }

  /** make_profile(spec): one breakpoint per item, in order; a (pos, d) item has
      low == high == d. */
  method MakeProfile(spec: seq<SpecItem>) returns (p: Profile)
    ensures |p.pos| == |p.low| == |p.high| == |spec|
    ensures forall k :: 0 <= k < |spec| ==>
      p.pos[k] == spec[k].at && p.low[k] == ItemLow(spec[k]) && p.high[k] == ItemHigh(spec[k])
    ensures forall k :: 0 <= k < |spec| && spec[k].Point? ==> p.low[k] == p.high[k] == spec[k].d
    ensures (forall k :: 0 <= k < |spec| ==> spec[k].Point?) ==> p.high == p.low
  {
    var pos, low, high := [], [], [];
    for i := 0 to |spec|
      invariant |pos| == |low| == |high| == i
      invariant forall k :: 0 <= k < i ==>
        pos[k] == spec[k].at && low[k] == ItemLow(spec[k]) && high[k] == ItemHigh(spec[k])
    {
      var item := spec[i];
      var thisLow, thisHigh;
      if item.Point? {
        thisLow := item.d;
        thisHigh := thisLow;
      } else {
        thisLow, thisHigh := item.lo, item.hi;
      }
      pos := pos + [item.at];
      low := low + [thisLow];
      high := high + [thisHigh];
    }
    p := Profile(pos, low, high);
  }
}
