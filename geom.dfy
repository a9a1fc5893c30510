// Vector and S-basis polynomial algebra of demakein/geom.py, on reals.
// An S-basis series f is a non-empty list of Linear terms with
//   f(t) = sum_i f[i](t) * s^i,  s = t (1 - t),  Linear(a0, a1)(t) = a0 (1 - t) + a1 t.

module Geom {

  // XYZ

  datatype XYZ = XYZ(x: real, y: real, z: real)

  function Neg(a: XYZ): XYZ { XYZ(-a.x, -a.y, -a.z) }
  function Add(a: XYZ, b: XYZ): XYZ { XYZ(a.x + b.x, a.y + b.y, a.z + b.z) }
  function Sub(a: XYZ, b: XYZ): XYZ { XYZ(a.x - b.x, a.y - b.y, a.z - b.z) }
  function Scale(a: XYZ, c: real): XYZ { XYZ(a.x * c, a.y * c, a.z * c) }
  function Dot(a: XYZ, b: XYZ): real { a.x * b.x + a.y * b.y + a.z * b.z }

  function Cross(a: XYZ, b: XYZ): XYZ
  {
    XYZ(a.y * b.z - a.z * b.y, a.z * b.x - a.x * b.z, a.x * b.y - a.y * b.x)
  }

  function Mag2(a: XYZ): (r: real)
    ensures r >= 0.0
  {
    assert a.x * a.x >= 0.0 && a.y * a.y >= 0.0 && a.z * a.z >= 0.0;
    Dot(a, a)
  }

  /** Addition commutes and undoes subtraction, and negation is scaling by -1. */
  lemma XYZAdditive(a: XYZ, b: XYZ)
    ensures Add(a, b) == Add(b, a)
    ensures Add(Sub(a, b), b) == a
    ensures Neg(a) == Scale(a, -1.0)
  {
  }

  /** dot is symmetric, cross anti-commutes, and a . (a x b) = 0. */
  lemma XYZProducts(a: XYZ, b: XYZ)
    ensures Dot(a, b) == Dot(b, a)
    ensures Cross(a, b) == Neg(Cross(b, a))
    ensures Dot(a, Cross(a, b)) == 0.0
  {
    assert a.x * (a.y * b.z - a.z * b.y) == a.x * a.y * b.z - a.x * a.z * b.y;
    assert a.y * (a.z * b.x - a.x * b.z) == a.y * a.z * b.x - a.y * a.x * b.z;
    assert a.z * (a.x * b.y - a.y * b.x) == a.z * a.x * b.y - a.z * a.y * b.x;
  }

  // Linear

  datatype Linear = Linear(a0: real, a1: real)

  const Zero := Linear(0.0, 0.0)

  /** Linear.__call__: a0 (1 - t) + a1 t. */
  function LEval(l: Linear, t: real): real
  {
    l.a0 * (1.0 - t) + l.a1 * t
  }

  function LAdd(p: Linear, q: Linear): Linear { Linear(p.a0 + q.a0, p.a1 + q.a1) }
  function LSub(p: Linear, q: Linear): Linear { Linear(p.a0 - q.a0, p.a1 - q.a1) }
  function LScale(p: Linear, c: real): Linear { Linear(p.a0 * c, p.a1 * c) }
  function Tri(p: Linear): real { p.a1 - p.a0 }
  function Hat(p: Linear): real { (p.a1 + p.a0) * 0.5 }

  /** A Linear runs from a0 at 0 to a1 at 1 through hat() at the midpoint, and
      its operations act pointwise. */
  lemma LinearLaws(p: Linear, q: Linear, c: real, t: real)
    ensures LEval(p, 0.0) == p.a0 && LEval(p, 1.0) == p.a1 && LEval(p, 0.5) == Hat(p)
    ensures Tri(p) == LEval(p, 1.0) - LEval(p, 0.0)
    ensures LEval(LAdd(p, q), t) == LEval(p, t) + LEval(q, t)
    ensures LEval(LSub(p, q), t) == LEval(p, t) - LEval(q, t)
    ensures LEval(LScale(p, c), t) == c * LEval(p, t)
  {
    assert p.a0 * c * (1.0 - t) + p.a1 * c * t == c * (p.a0 * (1.0 - t) + p.a1 * t);
  }

  // S_basis evaluation

  function S(t: real): real { t * (1.0 - t) }

  function Pow(x: real, n: nat): real
  {
    if n == 0 then 1.0 else x * Pow(x, n - 1)
  }

  lemma {:induction false} PowAdd(x: real, m: nat, n: nat)
    ensures Pow(x, m + n) == Pow(x, m) * Pow(x, n)
  {
    if n > 0 {
      PowAdd(x, m, n - 1);
      assert Pow(x, m + n) == x * Pow(x, m + n - 1);
    }
  }

  /** The first n terms of the series at t. */
  function Terms(f: seq<Linear>, n: nat, t: real): real
    requires n <= |f|
  {
    if n == 0 then 0.0 else Terms(f, n - 1, t) + LEval(f[n - 1], t) * Pow(S(t), n - 1)
  }

  function Eval(f: seq<Linear>, t: real): real
  {
    Terms(f, |f|, t)
  }

  /** S_basis.__call__: the loop over the terms with a running power of s. */
  method Call(f: seq<Linear>, t: real) returns (result: real)
    requires |f| >= 1
    ensures result == Eval(f, t)
  {
    var s := t * (1.0 - t);
    result := LEval(f[0], t);
    var p := s;
    for i := 1 to |f|
      invariant result == Terms(f, i, t) && p == Pow(s, i)
    {
      assert Pow(s, i + 1) == p * s;
      result := result + LEval(f[i], t) * p;
      p := p * s;
    }
  }

  lemma {:induction false} TermsWhereSZero(f: seq<Linear>, n: nat, t: real)
    requires 1 <= n <= |f| && S(t) == 0.0
    ensures Terms(f, n, t) == LEval(f[0], t)
  {
    if n > 1 {
      TermsWhereSZero(f, n - 1, t);
    }
  }

  /** A series evaluates to f[0].a0 at 0 and f[0].a1 at 1, where s vanishes. */
  lemma EvalEnds(f: seq<Linear>)
    requires |f| >= 1
    ensures Eval(f, 0.0) == f[0].a0 && Eval(f, 1.0) == f[0].a1
  {
    TermsWhereSZero(f, |f|, 0.0);
    TermsWhereSZero(f, |f|, 1.0);
  }

  /** Terms summed against pointwise-combined Linears combine the same way. */
  lemma {:induction false} TermsCombine(f: seq<Linear>, g: seq<Linear>, h: seq<Linear>, n: nat, t: real, a: real, b: real)
    requires n <= |f| && n <= |g| && n <= |h|
    requires forall i :: 0 <= i < n ==> LEval(h[i], t) == a * LEval(f[i], t) + b * LEval(g[i], t)
    ensures Terms(h, n, t) == a * Terms(f, n, t) + b * Terms(g, n, t)
  {
    if n > 0 {
      TermsCombine(f, g, h, n - 1, t, a, b);
      var p := Pow(S(t), n - 1);
      var x, y, z := LEval(h[n - 1], t), LEval(f[n - 1], t), LEval(g[n - 1], t);
      MulDistrib(x, y, z, a, b, p);
      SumCollect(Terms(h, n - 1, t), Terms(f, n - 1, t), Terms(g, n - 1, t), x * p, y * p, z * p, a, b);
    }
  }

  lemma MulDistrib(x: real, y: real, z: real, a: real, b: real, p: real)
    requires x == a * y + b * z
    ensures x * p == a * (y * p) + b * (z * p)
  {
  }

  lemma SumCollect(h: real, f: real, g: real, x: real, y: real, z: real, a: real, b: real)
    requires h == a * f + b * g && x == a * y + b * z
    ensures h + x == a * (f + y) + b * (g + z)
  {
  }

  lemma Factor(h: real, f: real, y: real, a: real, b: real)
    requires h == a * f
    ensures h + y * (a * b) == a * (f + y * b)
  {
  }

  lemma {:induction false} TermsPrefix(f: seq<Linear>, g: seq<Linear>, n: nat, t: real)
    requires n <= |f| && n <= |g| && f[..n] == g[..n]
    ensures Terms(f, n, t) == Terms(g, n, t)
  {
    if n > 0 {
      assert f[n - 1] == f[..n][n - 1];
      assert f[..n - 1] == f[..n][..n - 1] && g[..n - 1] == g[..n][..n - 1];
      TermsPrefix(f, g, n - 1, t);
    }
  }

  lemma {:induction false} TermsZeroTail(f: seq<Linear>, m: nat, n: nat, t: real)
    requires m <= n <= |f|
    requires forall i :: m <= i < n ==> f[i] == Zero
    ensures Terms(f, n, t) == Terms(f, m, t)
  {
    if m < n {
      TermsZeroTail(f, m, n - 1, t);
    }
  }

  // scaled, shifted, truncated

  /** S_basis.scaled: every term times c. */
  function Scaled(f: seq<Linear>, c: real): (r: seq<Linear>)
    ensures |r| == |f| && forall i :: 0 <= i < |f| ==> r[i] == LScale(f[i], c)
  {
    seq(|f|, i requires 0 <= i < |f| => LScale(f[i], c))
  }

  lemma EvalScaled(f: seq<Linear>, c: real, t: real)
    ensures Eval(Scaled(f, c), t) == c * Eval(f, t)
  {
    TermsScaled(f, Scaled(f, c), c, |f|, t);
  }

  lemma {:induction false} TermsScaled(f: seq<Linear>, g: seq<Linear>, c: real, n: nat, t: real)
    requires n <= |f| && n <= |g|
    requires forall i :: 0 <= i < n ==> g[i] == LScale(f[i], c)
    ensures Terms(g, n, t) == c * Terms(f, n, t)
  {
    if n > 0 {
      TermsScaled(f, g, c, n - 1, t);
      ScaleEval(f[n - 1], g[n - 1], c, t);
      ScaleStep(Terms(g, n - 1, t), Terms(f, n - 1, t), LEval(g[n - 1], t), LEval(f[n - 1], t), Pow(S(t), n - 1), c);
    }
  }

  lemma ScaleEval(p: Linear, q: Linear, c: real, t: real)
    requires q == LScale(p, c)
    ensures LEval(q, t) == c * LEval(p, t)
  {
    LinearLaws(p, p, c, t);
  }

  lemma ScaleStep(h: real, f: real, x: real, y: real, p: real, c: real)
    requires h == c * f && x == c * y
    ensures h + x * p == c * (f + y * p)
  {
  }

  /** S_basis.shifted: i zero terms in front. */
  function Shifted(f: seq<Linear>, i: nat): (r: seq<Linear>)
    ensures |r| == |f| + i
    ensures forall k :: 0 <= k < i ==> r[k] == Zero
    ensures r[i..] == f
  {
    seq(i, _ => Zero) + f
  }

  /** Shifts compose, and dropping the i leading terms undoes a shift. */
  lemma ShiftedLaws(f: seq<Linear>, i: nat, j: nat)
    ensures Shifted(Shifted(f, i), j) == Shifted(f, i + j)
    ensures Shifted(f, i)[i..] == f
  {
    var g, h := Shifted(Shifted(f, i), j), Shifted(f, i + j);
    assert |g| == |h|;
    forall k | 0 <= k < |g|
      ensures g[k] == h[k]
    {
      if k >= i + j {
        assert g[k] == g[j..][k - j] == Shifted(f, i)[i..][k - j - i];
        assert h[k] == h[i + j..][k - i - j];
      } else if k >= j {
        assert g[k] == g[j..][k - j];
      }
    }
  }

  /** A shifted series (i > 0) vanishes at both ends. */
  lemma ShiftedEnds(f: seq<Linear>, i: nat)
    requires i > 0
    ensures Eval(Shifted(f, i), 0.0) == 0.0 && Eval(Shifted(f, i), 1.0) == 0.0
  {
    EvalEnds(Shifted(f, i));
  }

  /** S_basis.truncated: the first n terms. */
  function Truncated(f: seq<Linear>, n: nat): (r: seq<Linear>)
    ensures |r| == if n < |f| then n else |f|
    ensures r == f[..|r|]
  {
    if n < |f| then f[..n] else f
  }

  // _compat, + and -

  /** The series padded with zero terms to the given size. */
  function Padded(f: seq<Linear>, size: nat): (r: seq<Linear>)
    ensures |r| == if size > |f| then size else |f|
    ensures r[..|f|] == f
    ensures forall k :: |f| <= k < |r| ==> r[k] == Zero
  {
    if |f| < size then f + seq(size - |f|, _ => Zero) else f
  }

  lemma EvalPadded(f: seq<Linear>, size: nat, t: real)
    ensures Eval(Padded(f, size), t) == Eval(f, t)
  {
    var g := Padded(f, size);
    TermsZeroTail(g, |f|, |g|, t);
    TermsPrefix(g, f, |f|, t);
  }

  function MaxN(a: nat, b: nat): nat { if a < b then b else a }

  /** S_basis.__add__: both padded to the longer length, added termwise. */
  function Plus(f: seq<Linear>, g: seq<Linear>): (r: seq<Linear>)
    ensures |r| == MaxN(|f|, |g|)
    ensures forall i :: 0 <= i < |r| ==> r[i] == LAdd(Padded(f, |r|)[i], Padded(g, |r|)[i])
  {
    var size := MaxN(|f|, |g|);
    var pf, pg := Padded(f, size), Padded(g, size);
    seq(size, i requires 0 <= i < size => LAdd(pf[i], pg[i]))
  }

  /** S_basis.__sub__. */
  function Minus(f: seq<Linear>, g: seq<Linear>): (r: seq<Linear>)
    ensures |r| == MaxN(|f|, |g|)
    ensures forall i :: 0 <= i < |r| ==> r[i] == LSub(Padded(f, |r|)[i], Padded(g, |r|)[i])
  {
    var size := MaxN(|f|, |g|);
    var pf, pg := Padded(f, size), Padded(g, size);
    seq(size, i requires 0 <= i < size => LSub(pf[i], pg[i]))
  }

  /** Sums evaluate pointwise. */
  lemma EvalPlus(f: seq<Linear>, g: seq<Linear>, t: real)
    ensures Eval(Plus(f, g), t) == Eval(f, t) + Eval(g, t)
  {
    var size := MaxN(|f|, |g|);
    var pf, pg := Padded(f, size), Padded(g, size);
    var sum := Plus(f, g);
    forall i | 0 <= i < size
      ensures LEval(sum[i], t) == 1.0 * LEval(pf[i], t) + 1.0 * LEval(pg[i], t)
    {
      LinearLaws(pf[i], pg[i], 1.0, t);
    }
    TermsCombine(pf, pg, sum, size, t, 1.0, 1.0);
    EvalPadded(f, size, t);
    EvalPadded(g, size, t);
  }

  /** Differences evaluate pointwise. */
  lemma EvalMinus(f: seq<Linear>, g: seq<Linear>, t: real)
    ensures Eval(Minus(f, g), t) == Eval(f, t) - Eval(g, t)
  {
    var size := MaxN(|f|, |g|);
    var pf, pg := Padded(f, size), Padded(g, size);
    var diff := Minus(f, g);
    forall i | 0 <= i < size
      ensures LEval(diff[i], t) == 1.0 * LEval(pf[i], t) + -1.0 * LEval(pg[i], t)
    {
      LinearLaws(pf[i], pg[i], 1.0, t);
    }
    TermsCombine(pf, pg, diff, size, t, 1.0, -1.0);
    EvalPadded(f, size, t);
    EvalPadded(g, size, t);
  }

  // multiplied, derivative, integral

  /** The leading term of a product: the pointwise product of the leading terms. */
  function LeadingProduct(a: seq<Linear>, b: seq<Linear>): Linear
    requires |a| >= 1 && |b| >= 1
  {
    Linear(b[0].a0 * a[0].a0, b[0].a1 * a[0].a1)
  }

  /** S_basis.multiplied with scalar multiplication (__mul__): the double loop
      accumulating into len(a) + len(b) zero-initialised terms. The product is
      exact where s vanishes, at t = 0 and t = 1. */
  method Multiplied(a: seq<Linear>, b: seq<Linear>) returns (c: seq<Linear>)
    requires |a| >= 1 && |b| >= 1
    ensures |c| == |a| + |b|
    ensures c[0] == LeadingProduct(a, b)
    ensures Eval(c, 0.0) == Eval(a, 0.0) * Eval(b, 0.0)
    ensures Eval(c, 1.0) == Eval(a, 1.0) * Eval(b, 1.0)
  {
    c := seq(|a| + |b|, _ => Zero);
    for j := 0 to |b|
      invariant |c| == |a| + |b|
      invariant c[0] == if j == 0 then Zero else LeadingProduct(a, b)
    {
      for i := j to j + |a|
        invariant |c| == |a| + |b|
        invariant c[0] == if j == 0 && i == 0 then Zero else LeadingProduct(a, b)
      {
        var tri := Tri(b[j]) * Tri(a[i - j]);
        c := c[i + 1 := LAdd(c[i + 1], Linear(-tri, -tri))];
        c := c[i := LAdd(c[i], Linear(b[j].a0 * a[i - j].a0, b[j].a1 * a[i - j].a1))];
      }
    }
    EvalEnds(a);
    EvalEnds(b);
    EvalEnds(c);
  }

  /** Term k of S_basis.derivative. */
  function DerivativeTerm(f: seq<Linear>, k: nat): Linear
    requires k < |f|
  {
    var d := (2 * k + 1) as real * Tri(f[k]);
    if k + 1 < |f| then Linear(d + (k + 1) as real * f[k + 1].a0, d - (k + 1) as real * f[k + 1].a1)
    else Linear(d, d)
  }

  function DerivativeOf(f: seq<Linear>): (r: seq<Linear>)
    requires |f| >= 1
    ensures |r| == |f| && forall k :: 0 <= k < |f| ==> r[k] == DerivativeTerm(f, k)
  {
    seq(|f|, k requires 0 <= k < |f| => DerivativeTerm(f, k))
  }

  /** S_basis.derivative: one term per term of f. */
  method Derivative(f: seq<Linear>) returns (c: seq<Linear>)
    requires |f| >= 1
    ensures c == DerivativeOf(f)
  {
    c := [];
    for k := 0 to |f| - 1
      invariant |c| == k && forall m :: 0 <= m < k ==> c[m] == DerivativeTerm(f, m)
    {
      var d := (2 * k + 1) as real * (f[k].a1 - f[k].a0);
      c := c + [Linear(d + (k + 1) as real * f[k + 1].a0, d - (k + 1) as real * f[k + 1].a1)];
    }
    var k := |f| - 1;
    var d := (2 * k + 1) as real * (f[k].a1 - f[k].a0);
    assert Linear(d, d) == DerivativeTerm(f, k);
    c := c + [Linear(d, d)];
    assert forall m :: 0 <= m < |f| ==> c[m] == DerivativeOf(f)[m];
  }

  /** The running aTri of S_basis.integral, computed from the top term down. */
  function TriAcc(f: seq<Linear>, k: nat): real
    decreases |f| - k
  {
    if k >= |f| then 0.0
    else (Hat(f[k]) + (k + 1) as real * 0.5 * TriAcc(f, k + 1)) * (1.0 / (2 * k + 1) as real)
  }

  /** The symmetric part ahat of integral term k (1 <= k <= len f). */
  function AHat(f: seq<Linear>, k: nat): real
    requires 1 <= k <= |f|
  {
    Tri(f[k - 1]) * (-1.0 / (2 * k) as real)
  }

  function IntegralBase(f: seq<Linear>, k: nat): Linear
    requires k <= |f|
  {
    if k == 0 then Zero else Linear(AHat(f, k), AHat(f, k))
  }

  function IntegralTerm(f: seq<Linear>, k: nat): Linear
    requires k <= |f|
  {
    if k < |f| then LAdd(IntegralBase(f, k), Linear(-0.5 * TriAcc(f, k), 0.5 * TriAcc(f, k)))
    else IntegralBase(f, k)
  }

  function IntegralOf(f: seq<Linear>): (r: seq<Linear>)
    ensures |r| == |f| + 1 && forall k :: 0 <= k <= |f| ==> r[k] == IntegralTerm(f, k)
  {
    seq(|f| + 1, k requires 0 <= k <= |f| => IntegralTerm(f, k))
  }

  /** S_basis.integral: the forward loop of symmetric terms, then the backward
      loop adding the antisymmetric parts. */
  method Integral(f: seq<Linear>) returns (a: seq<Linear>)
    ensures a == IntegralOf(f)
  {
    a := [Zero];
    for k := 1 to |f| + 1
      invariant |a| == k && forall m :: 0 <= m < k ==> a[m] == IntegralBase(f, m)
    {
      var ahat := (f[k - 1].a1 - f[k - 1].a0) * (-1.0 / (2 * k) as real);
      a := a + [Linear(ahat, ahat)];
    }
    var aTri := 0.0;
    var k := |f|;
    while k > 0
      invariant 0 <= k <= |f| && |a| == |f| + 1 && aTri == TriAcc(f, k)
      invariant forall m :: 0 <= m < k ==> a[m] == IntegralBase(f, m)
      invariant forall m :: k <= m <= |f| ==> a[m] == IntegralTerm(f, m)
    {
      k := k - 1;
      aTri := (Hat(f[k]) + (k + 1) as real * 0.5 * aTri) * (1.0 / (2 * k + 1) as real);
      a := a[k := LAdd(a[k], Linear(-0.5 * aTri, 0.5 * aTri))];
    }
  }

  /** One term of the derivative of the integral, on plain reals: t is aTri at
      k and t1 at k + 1. */
  lemma DerivativeIntegralStep(x0: real, x1: real, k: nat, t: real, t1: real, lo: real, hi: real)
    requires t == ((x1 + x0) * 0.5 + (k + 1) as real * 0.5 * t1) * (1.0 / (2 * k + 1) as real)
    requires lo == (x1 - x0) * (-1.0 / (2 * (k + 1)) as real) - 0.5 * t1
    requires hi == (x1 - x0) * (-1.0 / (2 * (k + 1)) as real) + 0.5 * t1
    ensures (2 * k + 1) as real * t + (k + 1) as real * lo == x0
    ensures (2 * k + 1) as real * t - (k + 1) as real * hi == x1
  {
    var n := k as real;
    assert (2 * k + 1) as real == 2.0 * n + 1.0 && (k + 1) as real == n + 1.0 && (2 * (k + 1)) as real == 2.0 * (n + 1.0);
    assert (2.0 * n + 1.0) * (1.0 / (2.0 * n + 1.0)) == 1.0;
    assert (n + 1.0) * (1.0 / (2.0 * (n + 1.0))) == 0.5;
  }

  /** The derivative term k of any series g whose terms k and k + 1 have the
      shape integral gives them. */
  lemma DerivativeTermOfIntegralShape(g: seq<Linear>, k: nat, l: Linear, t: real, t1: real)
    requires k + 1 < |g|
    requires t == (Hat(l) + (k + 1) as real * 0.5 * t1) * (1.0 / (2 * k + 1) as real)
    requires Tri(g[k]) == t
    requires g[k + 1].a0 == Tri(l) * (-1.0 / (2 * (k + 1)) as real) - 0.5 * t1
    requires g[k + 1].a1 == Tri(l) * (-1.0 / (2 * (k + 1)) as real) + 0.5 * t1
    ensures DerivativeTerm(g, k) == l
  {
    DerivativeIntegralStep(l.a0, l.a1, k, t, t1, g[k + 1].a0, g[k + 1].a1);
  }

  /** Term k < len f of the derivative of the integral is f[k]: integral term
      k has tri() equal to aTri at k, and term k + 1 spreads aTri at k + 1
      symmetrically about its ahat. */
  lemma DerivativeOfIntegralAt(f: seq<Linear>, k: nat)
    requires k < |f|
    ensures DerivativeTerm(IntegralOf(f), k) == f[k]
  {
    var a := IntegralOf(f);
    var t, t1 := TriAcc(f, k), TriAcc(f, k + 1);
    assert Tri(a[k]) == t by {
      if k == 0 {
        assert a[k] == Linear(-0.5 * t, 0.5 * t);
      } else {
        assert a[k] == Linear(AHat(f, k) - 0.5 * t, AHat(f, k) + 0.5 * t);
      }
    }
    assert AHat(f, k + 1) == Tri(f[k]) * (-1.0 / (2 * (k + 1)) as real);
    DerivativeTermOfIntegralShape(a, k, f[k], t, t1);
  }

  /** The derivative undoes the integral: derivative(integral(f)) is f with a
      zero term appended. */
  lemma DerivativeOfIntegral(f: seq<Linear>)
    requires |f| >= 1
    ensures DerivativeOf(IntegralOf(f)) == f + [Zero]
  {
    var a := IntegralOf(f);
    var c := DerivativeOf(a);
    forall k | 0 <= k < |c|
      ensures c[k] == (f + [Zero])[k]
    {
      if k < |f| {
        DerivativeOfIntegralAt(f, k);
      } else {
        assert Tri(a[k]) == 0.0;
      }
    }
  }
}
