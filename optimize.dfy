// The population optimiser: the affine recombination that proposes a new
// candidate from the current pool, and the serial path of the improvement
// loop (scoring, admission cutoff, best tracking, counters, termination).
// Random draws, the constraint function and the objective are inputs.

module Optimize {
  import opened Common

  type Vec = seq<real>

  // make_update

  /** The random draws one call of make_update consumes. `weight(j)` is the
      j-th normalvariate(0, weight_weight) draw, `pick` the draw that
      randrange(n) reduces modulo n, `noiseGate` the random() compared with
      0.1, `noiseScale` the random() that scales initial_accuracy, and
      `noise(i)` the i-th standard normal draw of the noise pass. */
  datatype Draws = Draws(
    noiseGate: real,
    weight: nat -> real,
    pick: nat,
    noiseScale: real,
    noise: nat -> real)

  /** The first n weight draws. */
  function Raw(d: Draws, n: nat): (raw: seq<real>)
    ensures |raw| == n && forall j :: 0 <= j < n ==> raw[j] == d.weight(j)
  {
    seq(n, j requires 0 <= j < n => d.weight(j))
  }

  /** The draws shifted by -sum/n so that they sum to zero, then 1.0 added to
      the picked one. */
  function Weights(raw: seq<real>, pick: nat): (w: seq<real>)
    requires pick < |raw|
    ensures |w| == |raw|
  {
    var offset := (0.0 - SumR(raw)) / |raw| as real;
    var shifted := seq(|raw|, j requires 0 <= j < |raw| => raw[j] + offset);
    shifted[pick := shifted[pick] + 1.0]
  }

  function Ones(n: nat): (r: seq<real>)
    ensures |r| == n && forall j :: 0 <= j < n ==> r[j] == 1.0
  {
    seq(n, j => 1.0)
  }

  lemma {:induction false} SumOnes(n: nat)
    ensures SumR(Ones(n)) == n as real
  {
    if n > 0 {
      SumOnes(n - 1);
      assert Ones(n)[..n - 1] == Ones(n - 1);
    }
  }

  /** The sequence that is 1.0 at `pick` and 0.0 elsewhere. */
  function Unit(n: nat, pick: nat): (r: seq<real>)
    ensures |r| == n && forall j :: 0 <= j < n ==> r[j] == if j == pick then 1.0 else 0.0
  {
    seq(n, j => if j == pick then 1.0 else 0.0)
  }

  lemma {:induction false} SumUnit(n: nat, pick: nat)
    requires pick < n
    ensures SumR(Unit(n, pick)) == 1.0
    decreases n
  {
    if n - 1 == pick {
      SumZeros(n - 1, pick);
      assert Unit(n, pick)[..n - 1] == Unit(n - 1, pick);
    } else {
      SumUnit(n - 1, pick);
      assert Unit(n, pick)[..n - 1] == Unit(n - 1, pick);
    }
  }

  lemma {:induction false} SumZeros(n: nat, pick: nat)
    requires n <= pick
    ensures SumR(Unit(n, pick)) == 0.0
  {
    if n > 0 {
      SumZeros(n - 1, pick);
      assert Unit(n, pick)[..n - 1] == Unit(n - 1, pick);
    }
  }

  /** The weights of make_update always sum to exactly one. */
  lemma WeightsSumToOne(raw: seq<real>, pick: nat)
    requires pick < |raw|
    ensures SumR(Weights(raw, pick)) == 1.0
  {
    var n := |raw|;
    var offset := (0.0 - SumR(raw)) / n as real;
    var shifted := seq(n, j requires 0 <= j < n => raw[j] + offset);
    SumCombine(raw, Ones(n), shifted, offset);
    SumOnes(n);
    DivTimes(0.0 - SumR(raw), n as real);
    assert SumR(shifted) == 0.0;
    SumCombine(shifted, Unit(n, pick), Weights(raw, pick), 1.0);
    SumUnit(n, pick);
  }

  lemma DivTimes(a: real, b: real)
    requires b > 0.0
    ensures (a / b) * b == a
  {
  }

  /** Every vector has at least the coordinates of the first one, which
      make_update indexes. */
  predicate Covers(vecs: seq<Vec>)
  {
    |vecs| > 0 && forall j :: 0 <= j < |vecs| ==> |vecs[j]| >= |vecs[0]|
  }

  /** sum(vecs[j][i] * weights[j] for j in range(n)), added left to right. */
  function Dot(vecs: seq<Vec>, w: seq<real>, i: nat): real
    requires |w| == |vecs|
    requires forall j :: 0 <= j < |vecs| ==> i < |vecs[j]|
  {
    if |w| == 0 then 0.0
    else Dot(vecs[..|w| - 1], w[..|w| - 1], i) + vecs[|w| - 1][i] * w[|w| - 1]
  }

  /** The weighted combination of the vectors, coordinate by coordinate. */
  function Recombine(vecs: seq<Vec>, w: seq<real>): (u: Vec)
    requires Covers(vecs) && |w| == |vecs|
    ensures |u| == |vecs[0]|
  {
    seq(|vecs[0]|, i requires 0 <= i < |vecs[0]| => Dot(vecs, w, i))
  }

  /** Python's normalvariate(0.0, extra) on the standard draw z is z * extra. */
  function Perturb(u: Vec, extra: real, z: nat -> real): (r: Vec)
    ensures |r| == |u|
  {
    seq(|u|, i requires 0 <= i < |u| => u[i] + z(i) * extra)
  }

  /** Noise is applied when it was requested or the 10% draw fires. */
  predicate NoiseApplies(requested: bool, d: Draws)
  {
    requested || d.noiseGate < 0.1
  }

  /** make_update with its random draws as inputs. */
  function MakeUpdate(vecs: seq<Vec>, accuracy: real, requested: bool, d: Draws): (u: Vec)
    requires Covers(vecs)
    ensures |u| == |vecs[0]|
  {
    var n := |vecs|;
    var mixed := Recombine(vecs, Weights(Raw(d, n), d.pick % n));
    if NoiseApplies(requested, d) then Perturb(mixed, d.noiseScale * accuracy, d.noise)
    else mixed
  }

  /** A combination of copies of one vector is that vector, times the sum of
      the weights. */
  lemma {:induction false} DotConstant(vecs: seq<Vec>, w: seq<real>, i: nat, v: Vec)
    requires |w| == |vecs| && i < |v|
    requires forall j :: 0 <= j < |vecs| ==> vecs[j] == v
    ensures Dot(vecs, w, i) == v[i] * SumR(w)
    decreases |w|
  {
    if |w| > 0 {
      var n := |w| - 1;
      DotConstant(vecs[..n], w[..n], i, v);
      SumCombineStep(Dot(vecs[..n], w[..n], i), 0.0, SumR(w[..n]), v[i] * w[n], 0.0, w[n], v[i]);
    }
  }

  /** Without noise, a pool whose members are all one point proposes that
      point again. */
  lemma UpdateOfOnePoint(vecs: seq<Vec>, accuracy: real, requested: bool, d: Draws, v: Vec)
    requires Covers(vecs) && vecs[0] == v
    requires forall j :: 0 <= j < |vecs| ==> vecs[j] == v
    requires !NoiseApplies(requested, d)
    ensures MakeUpdate(vecs, accuracy, requested, d) == v
  {
    var n := |vecs|;
    var w := Weights(Raw(d, n), d.pick % n);
    WeightsSumToOne(Raw(d, n), d.pick % n);
    forall i | 0 <= i < |v|
      ensures Recombine(vecs, w)[i] == v[i]
    {
      DotConstant(vecs, w, i, v);
    }
  }

  /** The vectors moved by t. */
  function Translated(vecs: seq<Vec>, t: Vec): (r: seq<Vec>)
    requires forall j :: 0 <= j < |vecs| ==> |vecs[j]| == |t|
    ensures |r| == |vecs|
    ensures forall j :: 0 <= j < |r| ==> |r[j]| == |t|
    ensures forall j, i :: 0 <= j < |r| && 0 <= i < |t| ==> r[j][i] == vecs[j][i] + t[i]
  {
    seq(|vecs|, j requires 0 <= j < |vecs| =>
      seq(|t|, i requires 0 <= i < |t| => vecs[j][i] + t[i]))
  }

  lemma {:induction false} DotTranslated(vecs: seq<Vec>, moved: seq<Vec>, w: seq<real>, i: nat, c: real)
    requires |w| == |vecs| == |moved|
    requires forall j :: 0 <= j < |vecs| ==> i < |vecs[j]| && i < |moved[j]|
    requires forall j :: 0 <= j < |vecs| ==> moved[j][i] == vecs[j][i] + c
    ensures Dot(moved, w, i) == Dot(vecs, w, i) + c * SumR(w)
    decreases |w|
  {
    if |w| > 0 {
      var n := |w| - 1;
      DotTranslated(vecs[..n], moved[..n], w[..n], i, c);
      DotTranslatedStep(Dot(moved[..n], w[..n], i), Dot(vecs[..n], w[..n], i), SumR(w[..n]),
        moved[n][i], vecs[n][i], w[n], c);
    }
  }

  lemma DotTranslatedStep(dm: real, dv: real, sw: real, m: real, v: real, x: real, c: real)
    requires dm == dv + c * sw && m == v + c
    ensures dm + m * x == (dv + v * x) + c * (sw + x)
  {
  }

  /** The update is affine: moving every pool vector by t moves the proposal
      by t, for the same draws, with or without noise. */
  lemma UpdateTranslates(vecs: seq<Vec>, t: Vec, accuracy: real, requested: bool, d: Draws)
    requires |vecs| > 0
    requires forall j :: 0 <= j < |vecs| ==> |vecs[j]| == |t|
    ensures Covers(vecs) && Covers(Translated(vecs, t))
    ensures forall i :: 0 <= i < |t| ==>
      MakeUpdate(Translated(vecs, t), accuracy, requested, d)[i]
        == MakeUpdate(vecs, accuracy, requested, d)[i] + t[i]
  {
    var moved := Translated(vecs, t);
    var n := |vecs|;
    var w := Weights(Raw(d, n), d.pick % n);
    WeightsSumToOne(Raw(d, n), d.pick % n);
    forall i | 0 <= i < |t|
      ensures Recombine(moved, w)[i] == Recombine(vecs, w)[i] + t[i]
    {
      DotTranslated(vecs, moved, w, i, t[i]);
    }
  }

  // scores

  /** (constraint score, objective), compared as a Python tuple. */
  datatype Score = Score(violation: real, objective: real)

  predicate Le(a: Score, b: Score)
  {
    a.violation < b.violation || (a.violation == b.violation && a.objective <= b.objective)
  }

  predicate Lt(a: Score, b: Score)
  {
    a.violation < b.violation || (a.violation == b.violation && a.objective < b.objective)
  }

  /** A candidate's score: the objective is consulted only when the
      constraint score is zero. */
  function Evaluate(x: Vec, constrainer: Vec -> real, scorer: Vec -> real): (s: Score)
    ensures s.violation == constrainer(x)
    ensures s.violation != 0.0 ==> s.objective == 0.0
    ensures s.violation == 0.0 ==> s.objective == scorer(x)
  {
    var c := constrainer(x);
    if c != 0.0 then Score(c, 0.0) else Score(0.0, scorer(x))
  }

  /** With non-negative constraint scores, every feasible candidate ranks
      before every infeasible one, whatever the objectives. */
  lemma FeasibleFirst(x: Vec, y: Vec, constrainer: Vec -> real, scorer: Vec -> real)
    requires constrainer(x) == 0.0 && constrainer(y) > 0.0
    ensures Lt(Evaluate(x, constrainer, scorer), Evaluate(y, constrainer, scorer))
    ensures !Le(Evaluate(y, constrainer, scorer), Evaluate(x, constrainer, scorer))
  {
  }

  // the pool and its cutoff

  datatype Member = Member(x: Vec, score: Score)

  function Objectives(pool: seq<Member>): (r: seq<real>)
    ensures |r| == |pool| && forall k :: 0 <= k < |pool| ==> r[k] == pool[k].score.objective
  {
    seq(|pool|, k requires 0 <= k < |pool| => pool[k].score.objective)
  }

  /** Insertion of x into a sorted list. */
  function Insert(x: real, s: seq<real>): (r: seq<real>)
    requires Sorted(s)
    ensures Sorted(r) && multiset(r) == multiset(s) + multiset{x}
    ensures |r| == |s| + 1 && r[0] == (if |s| == 0 || x <= s[0] then x else s[0])
  {
    if |s| == 0 then [x]
    else if x <= s[0] then
      SortedCons(x, s);
      [x] + s
    else
      var rest := Insert(x, s[1..]);
      assert s == [s[0]] + s[1..];
      SortedCons(s[0], rest);
      [s[0]] + rest
  }

  lemma SortedCons(a: real, s: seq<real>)
    requires Sorted(s) && |s| > 0 && a <= s[0]
    ensures Sorted([a] + s)
  {
    assert forall j :: 0 <= j < |s| ==> a <= s[j];
  }

  /** Python's sorted() on reals. */
  function Sort(xs: seq<real>): (r: seq<real>)
    ensures Sorted(r) && multiset(r) == multiset(xs)
  {
    if |xs| == 0 then []
    else
      assert xs == [xs[0]] + xs[1..];
      Insert(xs[0], Sort(xs[1..]))
  }

  predicate Under(x: real, v: real, strict: bool)
  {
    if strict then x < v else x <= v
  }

  /** How many entries are below v (strict) or at most v (not strict). */
  function CountUnder(s: seq<real>, v: real, strict: bool): (k: nat)
    ensures k <= |s|
  {
    if |s| == 0 then 0
    else (if Under(s[0], v, strict) then 1 else 0) + CountUnder(s[1..], v, strict)
  }

  lemma {:induction false} InsertCount(x: real, s: seq<real>, v: real, strict: bool)
    requires Sorted(s)
    ensures CountUnder(Insert(x, s), v, strict)
      == CountUnder(s, v, strict) + (if Under(x, v, strict) then 1 else 0)
    decreases |s|
  {
    if |s| == 0 || x <= s[0] {
      assert ([x] + s)[1..] == s;
    } else {
      InsertCount(x, s[1..], v, strict);
      assert ([s[0]] + Insert(x, s[1..]))[1..] == Insert(x, s[1..]);
    }
  }

  /** Sorting keeps the number of entries below any bound. */
  lemma {:induction false} SortCount(xs: seq<real>, v: real, strict: bool)
    ensures CountUnder(Sort(xs), v, strict) == CountUnder(xs, v, strict)
    decreases |xs|
  {
    if |xs| > 0 {
      SortCount(xs[1..], v, strict);
      InsertCount(xs[0], Sort(xs[1..]), v, strict);
    }
  }

  lemma {:induction false} CountSplit(s: seq<real>, k: nat, v: real, strict: bool)
    requires k <= |s|
    ensures CountUnder(s, v, strict) == CountUnder(s[..k], v, strict) + CountUnder(s[k..], v, strict)
    decreases k
  {
    if k > 0 {
      CountSplit(s[1..], k - 1, v, strict);
      assert s[1..][..k - 1] == s[..k][1..];
      assert s[1..][k - 1..] == s[k..];
    }
  }

  lemma {:induction false} CountNone(s: seq<real>, v: real, strict: bool)
    requires forall i :: 0 <= i < |s| ==> !Under(s[i], v, strict)
    ensures CountUnder(s, v, strict) == 0
    decreases |s|
  {
    if |s| > 0 {
      CountNone(s[1..], v, strict);
    }
  }

  lemma {:induction false} CountAll(s: seq<real>, v: real, strict: bool)
    requires forall i :: 0 <= i < |s| ==> Under(s[i], v, strict)
    ensures CountUnder(s, v, strict) == |s|
    decreases |s|
  {
    if |s| > 0 {
      CountAll(s[1..], v, strict);
    }
  }

  /** The entry at index k of a sorted list has at most k entries below it
      and at least k + 1 entries at most it: it is the (k+1)-th smallest. */
  lemma SortedRank(s: seq<real>, k: nat)
    requires Sorted(s) && k < |s|
    ensures CountUnder(s, s[k], true) <= k
    ensures CountUnder(s, s[k], false) >= k + 1
  {
    CountSplit(s, k, s[k], true);
    CountNone(s[k..], s[k], true);
    CountSplit(s, k + 1, s[k], false);
    CountAll(s[..k + 1], s[k], false);
  }

  /** (best_score[0], the objective at index pool_size of the sorted pool
      objectives, or 1e30 when the pool is not larger than pool_size). */
  function Cutoff(pool: seq<Member>, poolSize: nat, best: Score): (c: Score)
    ensures c.violation == best.violation
    ensures poolSize >= |pool| ==> c.objective == 1e30
    ensures poolSize < |pool| ==> c.objective in Objectives(pool)
  {
    var l := Sort(Objectives(pool));
    assert |l| == |pool| by {
      assert |multiset(l)| == |multiset(Objectives(pool))|;
    }
    if poolSize < |l| then
      assert l[poolSize] in multiset(Objectives(pool));
      Score(best.violation, l[poolSize])
    else Score(best.violation, 1e30)
  }

  /** The cutoff objective is the (pool_size+1)-th smallest objective of the
      pool: at most pool_size members lie below it and more than pool_size
      members lie at or below it. */
  lemma CutoffRank(pool: seq<Member>, poolSize: nat, best: Score)
    requires poolSize < |pool|
    ensures CountUnder(Objectives(pool), Cutoff(pool, poolSize, best).objective, true) <= poolSize
    ensures CountUnder(Objectives(pool), Cutoff(pool, poolSize, best).objective, false) > poolSize
  {
    var l := Sort(Objectives(pool));
    assert |l| == |pool| by {
      assert |multiset(l)| == |multiset(Objectives(pool))|;
    }
    var c := l[poolSize];
    SortedRank(l, poolSize);
    SortCount(Objectives(pool), c, true);
    SortCount(Objectives(pool), c, false);
  }

  /** [item for item in currents if item[1] <= cutoff] */
  function Retain(pool: seq<Member>, cut: Score): (r: seq<Member>)
    ensures |r| <= |pool|
    ensures forall m :: m in r <==> m in pool && Le(m.score, cut)
  {
    if |pool| == 0 then []
    else
      var rest := Retain(pool[1..], cut);
      assert forall m :: m in pool <==> m == pool[0] || m in pool[1..];
      if Le(pool[0].score, cut) then [pool[0]] + rest else rest
  }

  /** The largest score of the pool in tuple order. */
  function Worst(pool: seq<Member>): (w: Score)
    requires |pool| > 0
    ensures forall k :: 0 <= k < |pool| ==> Le(pool[k].score, w)
    ensures w in Scores(pool)
  {
    if |pool| == 1 then pool[0].score
    else
      var rest := Worst(pool[1..]);
      assert Scores(pool[1..]) == Scores(pool)[1..];
      if Le(rest, pool[0].score) then pool[0].score else rest
  }

  function Scores(pool: seq<Member>): (r: seq<Score>)
    ensures |r| == |pool| && forall k :: 0 <= k < |pool| ==> r[k] == pool[k].score
  {
    seq(|pool|, k requires 0 <= k < |pool| => pool[k].score)
  }

  /** Coordinate i of every pool member. */
  function Coordinate(pool: seq<Member>, i: nat): (r: seq<real>)
    requires forall k :: 0 <= k < |pool| ==> i < |pool[k].x|
    ensures |r| == |pool| && forall k :: 0 <= k < |pool| ==> r[k] == pool[k].x[i]
  {
    seq(|pool|, k requires 0 <= k < |pool| => pool[k].x[i])
  }

  /** Every member has at least `dims` coordinates. */
  predicate Dimensioned(pool: seq<Member>, dims: nat)
  {
    forall k :: 0 <= k < |pool| ==> |pool[k].x| >= dims
  }

  /** The spread of coordinate i over the pool. */
  function Spread(pool: seq<Member>, i: nat): (r: real)
    requires |pool| > 0 && forall k :: 0 <= k < |pool| ==> i < |pool[k].x|
    ensures r >= 0.0
  {
    var c := Coordinate(pool, i);
    LargestBound(c, 0);
    SmallestBound(c, 0);
    Largest(c) - Smallest(c)
  }

  /** max() of a non-empty list. */
  function Largest(s: seq<real>): real
    requires |s| > 0
  {
    if |s| == 1 then s[0] else MaxR(s[0], Largest(s[1..]))
  }

  /** min() of a non-empty list. */
  function Smallest(s: seq<real>): real
    requires |s| > 0
  {
    if |s| == 1 then s[0] else MinR(s[0], Smallest(s[1..]))
  }

  lemma {:induction false} LargestBound(s: seq<real>, k: nat)
    requires k < |s|
    ensures s[k] <= Largest(s) && Largest(s) in s
  {
    if |s| > 1 {
      if k > 0 {
        LargestBound(s[1..], k - 1);
      } else {
        LargestBound(s[1..], 0);
      }
    }
  }

  lemma {:induction false} SmallestBound(s: seq<real>, k: nat)
    requires k < |s|
    ensures Smallest(s) <= s[k] && Smallest(s) in s
  {
    if |s| > 1 {
      if k > 0 {
        SmallestBound(s[1..], k - 1);
      } else {
        SmallestBound(s[1..], 0);
      }
    }
  }

  /** No two members differ by more than the spread in coordinate i, and two
      members differ by exactly the spread. */
  lemma SpreadIsRange(pool: seq<Member>, i: nat, k: nat, l: nat)
    requires |pool| > 0 && Dimensioned(pool, i + 1)
    requires k < |pool| && l < |pool|
    ensures pool[k].x[i] - pool[l].x[i] <= Spread(pool, i)
    ensures Spread(pool, i) in Differences(Coordinate(pool, i))
  {
    var c := Coordinate(pool, i);
    LargestBound(c, k);
    SmallestBound(c, l);
  }

  /** Every difference of two entries. */
  function Differences(s: seq<real>): set<real>
  {
    set a, b | a in s && b in s :: a - b
  }

  /** Every one of the first `dims` coordinates spreads less than t. */
  predicate Tight(pool: seq<Member>, dims: nat, t: real)
    requires |pool| > 0 && Dimensioned(pool, dims)
  {
    0.0 < t && forall i :: 0 <= i < dims ==> Spread(pool, i) < t
  }

  /** The xspan loop: the largest coordinate spread, starting from 0.0. */
  method XSpan(pool: seq<Member>, dims: nat) returns (xspan: real)
    requires |pool| > 0 && Dimensioned(pool, dims)
    ensures xspan == MaxSpread(pool, dims)
    ensures xspan >= 0.0
    ensures forall i :: 0 <= i < dims ==> Spread(pool, i) <= xspan
  {
    xspan := 0.0;
    for i := 0 to dims
      invariant xspan == MaxSpread(pool, i)
    {
      var s := Spread(pool, i);
      xspan := MaxR(xspan, s);
    }
    MaxSpreadNonNegative(pool, dims);
    forall i | 0 <= i < dims
      ensures Spread(pool, i) <= xspan
    {
      SpreadAtMostMax(pool, dims, i);
    }
  }

  /** The largest of the first `dims` spreads, and 0.0 when there are none. */
  function MaxSpread(pool: seq<Member>, dims: nat): real
    requires |pool| > 0 && Dimensioned(pool, dims)
  {
    if dims == 0 then 0.0 else MaxR(MaxSpread(pool, dims - 1), Spread(pool, dims - 1))
  }

  /** Each of the first `dims` spreads is at most their maximum. */
  lemma {:induction false} SpreadAtMostMax(pool: seq<Member>, dims: nat, i: nat)
    requires |pool| > 0 && Dimensioned(pool, dims) && i < dims
    ensures Spread(pool, i) <= MaxSpread(pool, dims)
  {
    var d := dims - 1;
    if i < d {
      SpreadAtMostMax(pool, d, i);
    }
  }

  lemma {:induction false} MaxSpreadNonNegative(pool: seq<Member>, dims: nat)
    requires |pool| > 0 && Dimensioned(pool, dims)
    ensures MaxSpread(pool, dims) >= 0.0
  {
    if dims > 0 {
      MaxSpreadNonNegative(pool, dims - 1);
    }
  }

  /** The largest spread is below t exactly when every spread is. */
  lemma {:induction false} MaxSpreadTight(pool: seq<Member>, dims: nat, t: real)
    requires |pool| > 0 && Dimensioned(pool, dims)
    ensures MaxSpread(pool, dims) < t <==> Tight(pool, dims, t)
  {
    if dims > 0 {
      var d := dims - 1;
      MaxSpreadTight(pool, d, t);
      assert MaxSpread(pool, dims) == MaxR(MaxSpread(pool, d), Spread(pool, d));
    }
  }

  // the serial improvement loop

  /** The fixed parameters of one run. */
  datatype Settings = Settings(
    dims: nat, poolSize: nat, accuracy: real, xtol: real, ftol: real,
    constrainer: Vec -> real, scorer: Vec -> real)

  /** The loop's variables. */
  datatype Search = Search(
    best: Vec, bestScore: Score, pool: seq<Member>,
    n: nat, nGood: nat, nReal: nat, nRealSinceBest: nat, done: bool)

  /** What the loop keeps true: the pool is never empty, every vector has the
      start point's length, and best_score is best's score. */
  predicate Sound(s: Search, cfg: Settings)
  {
    |s.pool| > 0
    && (forall k :: 0 <= k < |s.pool| ==> |s.pool[k].x| == cfg.dims)
    && |s.best| == cfg.dims
    && s.bestScore == Evaluate(s.best, cfg.constrainer, cfg.scorer)
    && s.nReal <= s.n && s.nGood <= s.n && s.nRealSinceBest <= s.nReal
  }

  /** The convergence test: a full pool, a feasible best, and either all
      coordinates within xtol or, after 5000 admissions, the objectives within
      ftol. */
  predicate Converged(pool: seq<Member>, cfg: Settings, best: Score, nGood: nat)
    requires |pool| > 0 && Dimensioned(pool, cfg.dims)
  {
    |pool| >= cfg.poolSize && best.violation == 0.0
    && (Tight(pool, cfg.dims, cfg.xtol)
        || (nGood >= 5000 && Worst(pool).objective - best.objective < cfg.ftol))
  }

  /** pool_size = int(len(start_x) * pool_factor). */
  function PoolSize(dims: nat, poolFactor: real): (p: nat)
    requires poolFactor >= 0.0
    ensures p as real <= dims as real * poolFactor < p as real + 1.0
  {
    Trunc(dims as real * poolFactor)
  }

  /** The state before the loop: the start point alone in the pool. */
  function Begin(startX: Vec, cfg: Settings): (s: Search)
    requires |startX| == cfg.dims
    ensures Sound(s, cfg) && !s.done && s.pool == [Member(startX, s.bestScore)]
    ensures s.n == s.nGood == s.nReal == s.nRealSinceBest == 0
  {
    var score := Evaluate(startX, cfg.constrainer, cfg.scorer);
    Search(startX, score, [Member(startX, score)], 0, 0, 0, 0, false)
  }

  /** The pool's points. */
  function Vectors(pool: seq<Member>): (vs: seq<Vec>)
    ensures |vs| == |pool| && forall k :: 0 <= k < |pool| ==> vs[k] == pool[k].x
  {
    seq(|pool|, k requires 0 <= k < |pool| => pool[k].x)
  }

  /** The candidate make_update proposes from the pool, with noise requested
      while the pool is below pool_size. */
  function Proposal(s: Search, cfg: Settings, d: Draws): (x: Vec)
    requires Sound(s, cfg)
    ensures |x| == cfg.dims
  {
    var vecs := Vectors(s.pool);
    assert Covers(vecs);
    MakeUpdate(vecs, cfg.accuracy, |s.pool| < cfg.poolSize, d)
  }

  /** The proposed candidate with its score. */
  function Candidate(s: Search, cfg: Settings, d: Draws): (m: Member)
    requires Sound(s, cfg)
    ensures |m.x| == cfg.dims && m.score == Evaluate(m.x, cfg.constrainer, cfg.scorer)
  {
    var x := Proposal(s, cfg, d);
    Member(x, Evaluate(x, cfg.constrainer, cfg.scorer))
  }

  /** Whether the candidate passes the cutoff. */
  predicate Admitted(s: Search, cfg: Settings, d: Draws)
    requires Sound(s, cfg)
  {
    Le(Candidate(s, cfg, d).score, Cutoff(s.pool, cfg.poolSize, s.bestScore))
  }

  /** Whether the candidate becomes the new best. */
  predicate Improved(s: Search, cfg: Settings, d: Draws)
    requires Sound(s, cfg)
  {
    Admitted(s, cfg, d) && Lt(Candidate(s, cfg, d).score, s.bestScore)
  }

  function Feasible(m: Member): nat
  {
    if m.score.violation == 0.0 then 1 else 0
  }

  /** One pass of the serial loop: propose, score, admit, track the best and
      test for termination. */
  method Step(s: Search, cfg: Settings, d: Draws) returns (t: Search)
    requires Sound(s, cfg) && !s.done
    ensures Sound(t, cfg)
    ensures Le(t.bestScore, s.bestScore)
    ensures t.n == s.n + 1
    ensures t.nReal == s.nReal + Feasible(Candidate(s, cfg, d))
    ensures t.nGood == s.nGood + (if Admitted(s, cfg, d) then 1 else 0)
    ensures Admitted(s, cfg, d) ==>
      t.pool == Retain(s.pool, Cutoff(s.pool, cfg.poolSize, s.bestScore)) + [Candidate(s, cfg, d)]
    ensures !Admitted(s, cfg, d) ==> t.pool == s.pool
    ensures Improved(s, cfg, d) ==> t.best == Candidate(s, cfg, d).x && t.nRealSinceBest == 0
    ensures !Improved(s, cfg, d) ==> t.best == s.best && t.bestScore == s.bestScore
    ensures !Improved(s, cfg, d) ==> t.nRealSinceBest == s.nRealSinceBest + Feasible(Candidate(s, cfg, d))
    ensures t.done <==> Converged(t.pool, cfg, t.bestScore, t.nGood) || t.nRealSinceBest >= 1000000
  {
    var candidate := Candidate(s, cfg, d);
    var x, score := candidate.x, candidate.score;
    var n := s.n + 1;
    var nReal, nRealSinceBest := s.nReal, s.nRealSinceBest;
    if score.violation == 0.0 {
      nReal := nReal + 1;
      nRealSinceBest := nRealSinceBest + 1;
    }
    var cut := Cutoff(s.pool, cfg.poolSize, s.bestScore);
    var pool, nGood, best, bestScore := s.pool, s.nGood, s.best, s.bestScore;
    if Le(score, cut) {
      pool := Retain(s.pool, cut) + [Member(x, score)];
      nGood := nGood + 1;
      if Lt(score, bestScore) {
        bestScore := score;
        best := x;
        nRealSinceBest := 0;
      }
    }
    assert |pool| > 0 && Dimensioned(pool, cfg.dims);
    var done := Finished(pool, cfg, bestScore, nGood, nRealSinceBest);
    t := Search(best, bestScore, pool, n, nGood, nReal, nRealSinceBest, done);
  }

  /** The termination test at the end of a pass. */
  method Finished(pool: seq<Member>, cfg: Settings, bestScore: Score, nGood: nat, nRealSinceBest: nat)
    returns (done: bool)
    requires |pool| > 0 && Dimensioned(pool, cfg.dims)
    ensures done <==> Converged(pool, cfg, bestScore, nGood) || nRealSinceBest >= 1000000
  {
    done := false;
    if |pool| >= cfg.poolSize && bestScore.violation == 0.0 {
      var xspan := XSpan(pool, cfg.dims);
      MaxSpreadTight(pool, cfg.dims, cfg.xtol);
      var fspan := Worst(pool).objective - bestScore.objective;
      if xspan < cfg.xtol || (nGood >= 5000 && fspan < cfg.ftol) {
        done := true;
      }
    }
    if nRealSinceBest >= 1000000 {
      done := true;
    }
  }

  /** improve on the serial path (workers == 1), run on a finite supply of
      draws: it stops when done is set or the draws run out, and returns the
      best point with the final state. */
  method Improve(startX: Vec, constrainer: Vec -> real, scorer: Vec -> real,
                 ftol: real, xtol: real, accuracy: real, poolFactor: real,
                 rounds: seq<Draws>)
    returns (best: Vec, s: Search)
    requires poolFactor >= 0.0
    ensures |best| == |startX| && best == s.best
    ensures s.bestScore == Evaluate(best, constrainer, scorer)
    ensures Le(s.bestScore, Evaluate(startX, constrainer, scorer))
    ensures s.done || s.n == |rounds|
    ensures s.n <= |rounds|
    ensures s.nReal <= s.n && s.nGood <= s.n && s.nRealSinceBest <= s.nReal
  {
    var cfg := Settings(|startX|, PoolSize(|startX|, poolFactor), accuracy, xtol, ftol,
      constrainer, scorer);
    s := Begin(startX, cfg);
    var k := 0;
    while !s.done && k < |rounds|
      invariant Sound(s, cfg) && k <= |rounds| && s.n == k
      invariant Le(s.bestScore, Evaluate(startX, constrainer, scorer))
    {
      s := Step(s, cfg, rounds[k]);
      k := k + 1;
    }
    best := s.best;
  }
}
