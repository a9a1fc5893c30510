// The bore-parameter tables of demakein/design_shawm.py: the inrange helper,
// bore scaling, and the Shawm_designer properties that size the bore kinks.

module DesignShawm {
  import opened Common

  /** inrange(low, high, n): n values at fractions 2/(n+2) .. (n+1)/(n+2) of the
      way from low to high. */
  function InRange(low: real, high: real, n: nat): (r: seq<real>)
    ensures |r| == n
    ensures forall k :: 0 <= k < n ==> r[k] == InRangeAt(low, high, n, k)
  {
    seq(n, k requires 0 <= k < n => InRangeAt(low, high, n, k))
  }

  /** Value k of inrange(low, high, n). */
  function InRangeAt(low: real, high: real, n: nat, k: nat): real
  {
    ((k + 2) as real) * (high - low) / ((n + 2) as real) + low
  }

  /** For low < high the values of inrange increase strictly and stay strictly
      between low and high. */
  lemma InRangeIncreasing(low: real, high: real, n: nat)
    requires low < high
    ensures StrictlySorted(InRange(low, high, n))
    ensures forall k :: 0 <= k < n ==> low < InRange(low, high, n)[k] < high
  {
    var r := InRange(low, high, n);
    forall k | 0 <= k < n
      ensures low < r[k] < high
    {
      InRangeAtInside(low, high, n, k);
    }
    forall i, j | 0 <= i < j < n
      ensures r[i] < r[j]
    {
      InRangeAtIncreasing(low, high, n, i, j);
    }
  }

  lemma InRangeAtInside(low: real, high: real, n: nat, k: nat)
    requires low < high && k < n
    ensures low < InRangeAt(low, high, n, k) < high
  {
    var f, m, d := (k + 2) as real, (n + 2) as real, high - low;
    FractionInside(f, m, d);
    assert InRangeAt(low, high, n, k) == f * d / m + low;
  }

  lemma InRangeAtIncreasing(low: real, high: real, n: nat, i: nat, j: nat)
    requires low < high && i < j
    ensures InRangeAt(low, high, n, i) < InRangeAt(low, high, n, j)
  {
    var fi, fj, m, d := (i + 2) as real, (j + 2) as real, (n + 2) as real, high - low;
    FractionIncreasing(fi, fj, m, d);
    assert InRangeAt(low, high, n, i) == fi * d / m + low;
    assert InRangeAt(low, high, n, j) == fj * d / m + low;
  }

  /** bore_scaler(value): every entry scaled by bore / 6 (6 mm being the
      baseline the tables are written for). */
  function BoreScaled(value: seq<real>, bore: real): (r: seq<real>)
    ensures |r| == |value|
    ensures forall k :: 0 <= k < |value| ==> r[k] == value[k] * (bore / 6.0)
  {
    seq(|value|, k requires 0 <= k < |value| => value[k] * (bore / 6.0))
  }

  /** At the 6 mm baseline the table is unchanged, and scaling preserves the
      order of the entries for a positive bore. */
  lemma BoreScaledBaseline(value: seq<real>, bore: real)
    ensures BoreScaled(value, 6.0) == value
    ensures bore > 0.0 ==> forall i, j :: 0 <= i < |value| && 0 <= j < |value| && value[i] <= value[j] ==>
      BoreScaled(value, bore)[i] <= BoreScaled(value, bore)[j]
  {
    var r := BoreScaled(value, bore);
    if bore > 0.0 {
      forall i, j | 0 <= i < |value| && 0 <= j < |value| && value[i] <= value[j]
        ensures r[i] <= r[j]
      {
        var s := bore / 6.0;
        assert s > 0.0;
        assert value[i] * s <= value[j] * s;
      }
    }
  }

  /** The relative squared constriction (1 - item / d0) ** 2 of each diameter. */
  function Constriction(inner: seq<real>, k: nat): real
    requires k < |inner| && inner[0] != 0.0
  {
    (1.0 - inner[k] / inner[0]) * (1.0 - inner[k] / inner[0])
  }

  /** Shawm_designer.min_inner_fraction_sep: min(0.05, (d[i]+d[i+1])*(d[i+1]-d[i]))
      for each but the last gap between kinks, then 0.1 for the last. */
  function MinInnerFractionSep(inner: seq<real>): (r: seq<real>)
    requires |inner| >= 2 && inner[0] != 0.0
    ensures |r| == |inner| - 1
    ensures forall k :: 0 <= k < |r| - 1 ==> r[k] <= 0.05
    ensures r[|r| - 1] == 0.1
  {
    seq(|inner| - 2, i requires 0 <= i < |inner| - 2 => Separation(inner, i)) + [0.1]
  }

  /** min(0.05, (d[i]+d[i+1])*(d[i+1]-d[i])) */
  function Separation(inner: seq<real>, i: nat): (r: real)
    requires i + 1 < |inner| && inner[0] != 0.0
    ensures r <= 0.05
  {
    MinR(0.05, (Constriction(inner, i) + Constriction(inner, i + 1)) *
               (Constriction(inner, i + 1) - Constriction(inner, i)))
  }

  /** The running sums of (separation + 0.01): the least position of each kink. */
  function RunningMin(sep: seq<real>, k: nat): real
    requires k < |sep|
  {
    if k == 0 then sep[0] + 0.01 else RunningMin(sep, k - 1) + sep[k] + 0.01
  }

  /** The in-place prefix-sum loop over mins in initial_inner_fractions. */
  method PrefixMins(sep: seq<real>) returns (mins: seq<real>)
    ensures |mins| == |sep|
    ensures forall k :: 0 <= k < |sep| ==> mins[k] == RunningMin(sep, k)
  {
    mins := seq(|sep|, k requires 0 <= k < |sep| => sep[k] + 0.01);
    if |mins| == 0 {
      return;
    }
    var i := 1;
    while i < |mins|
      invariant 1 <= i <= |mins| == |sep|
      invariant forall k :: 0 <= k < i ==> mins[k] == RunningMin(sep, k)
      invariant forall k :: i <= k < |mins| ==> mins[k] == sep[k] + 0.01
    {
      mins := mins[i := mins[i] + mins[i - 1]];
      i := i + 1;
    }
  }

  /** Shawm_designer.initial_inner_fractions: for each kink, the larger of its
      least position and 1 - 2 * diams[i] / diams[0]. */
  method InitialInnerFractions(inner: seq<real>) returns (r: seq<real>)
    requires |inner| >= 2 && inner[0] != 0.0
    ensures |r| == |inner| - 2
    ensures forall k :: 0 <= k < |r| ==>
      r[k] == MaxR(RunningMin(MinInnerFractionSep(inner), k), 1.0 - 2.0 * inner[k + 1] / inner[0])
    ensures forall k :: 0 <= k < |r| ==> r[k] >= RunningMin(MinInnerFractionSep(inner), k)
  {
    var mins := PrefixMins(MinInnerFractionSep(inner));
    r := seq(|inner| - 2, k requires 0 <= k < |inner| - 2 =>
      MaxR(mins[k], 1.0 - 2.0 * inner[k + 1] / inner[0]));
  }

  /** With non-negative separations the least positions increase strictly:
      each is at least 0.01 beyond the one before. */
  lemma {:induction false} RunningMinIncreasing(sep: seq<real>, i: nat, j: nat)
    requires forall k :: 0 <= k < |sep| ==> sep[k] >= 0.0
    requires i < j < |sep|
    ensures RunningMin(sep, j) >= RunningMin(sep, i) + 0.01 * ((j - i) as real)
    decreases j - i
  {
    if i + 1 < j {
      RunningMinIncreasing(sep, i, j - 1);
    }
  }
}
