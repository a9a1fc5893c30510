/** Small shared vocabulary: optional values, results carrying an error
    message, and a few numeric helpers used throughout the model. */
module Common {

  datatype Option<+T> = None | Some(value: T)

  /** The Python code raises exceptions; the model returns Err instead. */
  datatype Result<+T> = Ok(value: T) | Err(message: string)

  function Abs(x: real): (r: real)
    ensures r >= 0.0 && (r == x || r == -x)
  {
    if x < 0.0 then -x else x
  }

  function IAbs(x: int): (r: nat)
    ensures r == x || r == -x
  {
    if x < 0 then -x else x
  }

  function MinR(a: real, b: real): (r: real)
    ensures r <= a && r <= b && (r == a || r == b)
  {
    if a <= b then a else b
  }

  function MaxR(a: real, b: real): (r: real)
    ensures r >= a && r >= b && (r == a || r == b)
  {
    if a >= b then a else b
  }

  function MinI(a: int, b: int): (r: int)
    ensures r <= a && r <= b && (r == a || r == b)
  {
    if a <= b then a else b
  }

  function MaxI(a: int, b: int): (r: int)
    ensures r >= a && r >= b && (r == a || r == b)
  {
    if a >= b then a else b
  }

  /** Python's int() on a real: truncation toward zero. */
  function Trunc(x: real): (r: int)
    ensures x >= 0.0 ==> r == x.Floor
    ensures x < 0.0 ==> r == -((-x).Floor)
  {
    if x >= 0.0 then x.Floor else -((-x).Floor)
  }

  /** Round half up, the `int(v + 0.5)`-style rounding used for non-negative
      values and the floor(v + 0.5) of int_round. */
  function RoundHalfUp(x: real): (r: int)
    ensures r as real <= x + 0.5 < r as real + 1.0
  {
    (x + 0.5).Floor
  }

  /** Maximum of a non-empty sequence. */
  function MaxSeq(s: seq<real>): (r: real)
    requires |s| > 0
    ensures forall k :: 0 <= k < |s| ==> s[k] <= r
    ensures exists k :: 0 <= k < |s| && s[k] == r
  {
    if |s| == 1 then s[0]
    else
      var m := MaxSeq(s[1..]);
      assert forall k :: 1 <= k < |s| ==> s[k] == s[1..][k - 1];
      if s[0] >= m then s[0] else m
  }

  /** Minimum of a non-empty sequence. */
  function MinSeq(s: seq<real>): (r: real)
    requires |s| > 0
    ensures forall k :: 0 <= k < |s| ==> r <= s[k]
    ensures exists k :: 0 <= k < |s| && s[k] == r
  {
    if |s| == 1 then s[0]
    else
      var m := MinSeq(s[1..]);
      assert forall k :: 1 <= k < |s| ==> s[k] == s[1..][k - 1];
      if s[0] <= m then s[0] else m
  }

  function SumR(s: seq<real>): real
  {
    if |s| == 0 then 0.0 else SumR(s[..|s| - 1]) + s[|s| - 1]
  }

  function SumI(s: seq<int>): int
  {
    if |s| == 0 then 0 else SumI(s[..|s| - 1]) + s[|s| - 1]
  }

  function Reverse<T>(s: seq<T>): (r: seq<T>)
    ensures |r| == |s|
    ensures forall k :: 0 <= k < |s| ==> r[k] == s[|s| - 1 - k]
  {
    seq(|s|, k requires 0 <= k < |s| => s[|s| - 1 - k])
  }

  predicate Sorted(s: seq<real>)
  {
    forall i, j :: 0 <= i < j < |s| ==> s[i] <= s[j]
  }

  predicate StrictlySorted(s: seq<real>)
  {
    forall i, j :: 0 <= i < j < |s| ==> s[i] < s[j]
  }

  /** The index of the first occurrence of c in s. */
  function FirstIndex<T(==)>(s: seq<T>, c: T): (r: nat)
    requires c in s
    ensures r < |s| && s[r] == c && c !in s[..r]
  {
    if s[0] == c then 0 else 1 + FirstIndex(s[1..], c)
  }

  /** str.split(sep) for a single-character separator. */
  function Split(s: string, sep: char): (r: seq<string>)
    ensures |r| >= 1
    decreases |s|
  {
    if sep !in s then [s]
    else
      var i := FirstIndex(s, sep);
      [s[..i]] + Split(s[i + 1..], sep)
  }

  /** No part of a split contains the separator. */
  lemma {:induction false} SplitFree(s: string, sep: char)
    ensures forall k :: 0 <= k < |Split(s, sep)| ==> sep !in Split(s, sep)[k]
    decreases |s|
  {
    if sep in s {
      var i := FirstIndex(s, sep);
      SplitFree(s[i + 1..], sep);
      SplitAt(s, sep);
    }
  }

  /** sep.join(parts). */
  function Join(parts: seq<string>, sep: char): string
    requires |parts| >= 1
  {
    if |parts| == 1 then parts[0] else parts[0] + [sep] + Join(parts[1..], sep)
  }

  /** Splitting and joining back on the same separator gives the string. */
  lemma {:induction false} JoinSplit(s: string, sep: char)
    ensures Join(Split(s, sep), sep) == s
    decreases |s|
  {
    if sep in s {
      var i := FirstIndex(s, sep);
      var head, tail := s[..i], s[i + 1..];
      var parts := Split(tail, sep);
      SplitAt(s, sep);
      JoinSplit(tail, sep);
      JoinCons(head, parts, sep);
      Around(s, i);
    }
  }

  /** A sequence is the part before an index, the element, and the rest. */
  lemma Around<T>(s: seq<T>, i: nat)
    requires i < |s|
    ensures s == s[..i] + [s[i]] + s[i + 1..]
  { }

  /** Split at the first separator, unfolded once. */
  lemma SplitAt(s: string, sep: char)
    requires sep in s
    ensures Split(s, sep) == [s[..FirstIndex(s, sep)]] + Split(s[FirstIndex(s, sep) + 1..], sep)
  { }

  /** Join of a part in front of a non-empty list, unfolded once. */
  lemma JoinCons(head: string, rest: seq<string>, sep: char)
    requires |rest| >= 1
    ensures Join([head] + rest, sep) == head + [sep] + Join(rest, sep)
  {
    assert ([head] + rest)[1..] == rest;
  }

  /** One more element extends a prefix sum by that element. */
  lemma SumPrefixStep(s: seq<real>, i: nat)
    requires i < |s|
    ensures SumR(s[..i + 1]) == SumR(s[..i]) + s[i]
  {
    assert s[..i + 1][..i] == s[..i];
  }

  /** A bound of every element that some element attains is the minimum. */
  lemma MinSeqUnique(s: seq<real>, r: real, k: nat)
    requires k < |s| && s[k] == r
    requires forall i :: 0 <= i < |s| ==> r <= s[i]
    ensures r == MinSeq(s)
  {
  }

  /** A bound of every element that some element attains is the maximum. */
  lemma MaxSeqUnique(s: seq<real>, r: real, k: nat)
    requires k < |s| && s[k] == r
    requires forall i :: 0 <= i < |s| ==> s[i] <= r
    ensures r == MaxSeq(s)
  {
  }

  /** Sums split over concatenation. */
  lemma {:induction false} SumAppend(a: seq<real>, b: seq<real>)
    ensures SumR(a + b) == SumR(a) + SumR(b)
    decreases |b|
  {
    if |b| > 0 {
      SumAppend(a, b[..|b| - 1]);
      assert (a + b)[..|a + b| - 1] == a + b[..|b| - 1];
    } else {
      assert a + b == a;
    }
  }

  /** Summing in reverse order gives the same total. */
  lemma {:induction false} SumReverse(s: seq<real>)
    ensures SumR(Reverse(s)) == SumR(s)
    decreases |s|
  {
    if |s| > 0 {
      var t := s[..|s| - 1];
      SumReverse(t);
      assert Reverse(s) == [s[|s| - 1]] + Reverse(t);
      SumAppend([s[|s| - 1]], Reverse(t));
      assert SumR([s[|s| - 1]]) == s[|s| - 1] by {
        assert [s[|s| - 1]][..0] == [];
      }
    }
  }

  /** A termwise combination a[i] + c * b[i] sums to the same combination of sums. */
  lemma {:induction false} SumCombine(a: seq<real>, b: seq<real>, r: seq<real>, c: real)
    requires |a| == |b| == |r|
    requires forall i :: 0 <= i < |r| ==> r[i] == a[i] + c * b[i]
    ensures SumR(r) == SumR(a) + c * SumR(b)
    decreases |r|
  {
    if |r| > 0 {
      var n := |r| - 1;
      SumCombine(a[..n], b[..n], r[..n], c);
      SumCombineStep(SumR(r[..n]), SumR(a[..n]), SumR(b[..n]), r[n], a[n], b[n], c);
    }
  }

  lemma SumCombineStep(sr: real, sa: real, sb: real, x: real, y: real, z: real, c: real)
    requires sr == sa + c * sb && x == y + c * z
    ensures sr + x == (sa + y) + c * (sb + z)
  {
  }

  /** A termwise multiple c * a[i] sums to c times the sum. */
  lemma {:induction false} SumScale(a: seq<real>, r: seq<real>, c: real)
    requires |a| == |r|
    requires forall i :: 0 <= i < |r| ==> r[i] == c * a[i]
    ensures SumR(r) == c * SumR(a)
    decreases |r|
  {
    if |r| > 0 {
      var n := |r| - 1;
      SumScale(a[..n], r[..n], c);
      SumCombineStep(SumR(r[..n]), 0.0, SumR(a[..n]), r[n], 0.0, a[n], c);
    }
  }

  // decimal formatting

  function DigitChar(d: nat): char
    requires d < 10
  {
    "0123456789"[d]
  }

  function DigitValue(c: char): int
  {
    if '0' <= c <= '9' then c as int - '0' as int else -1
  }

  /** '%d' % n for a natural number. */
  function Decimal(n: nat): (r: string)
    ensures |r| >= 1
    ensures forall k :: 0 <= k < |r| ==> 0 <= DigitValue(r[k]) < 10
    decreases n
  {
    if n < 10 then [DigitChar(n)] else Decimal(n / 10) + [DigitChar(n % 10)]
  }

  /** int() of a string of decimal digits. */
  function ParseDecimal(s: string): int
    decreases |s|
  {
    if |s| == 0 then 0 else 10 * ParseDecimal(s[..|s| - 1]) + DigitValue(s[|s| - 1])
  }

  /** Formatting then parsing gives the number back, so distinct numbers format
      differently. */
  lemma {:induction false} ParseDecimalOf(n: nat)
    ensures ParseDecimal(Decimal(n)) == n
    decreases n
  {
    var r := Decimal(n);
    if n < 10 {
      assert r[..0] == [];
    } else {
      ParseDecimalOf(n / 10);
      assert r[..|r| - 1] == Decimal(n / 10);
    }
    assert DigitValue(DigitChar(n % 10)) == n % 10;
  }

  lemma DecimalInjective(m: nat, n: nat)
    requires m != n
    ensures Decimal(m) != Decimal(n)
  {
    ParseDecimalOf(m);
    ParseDecimalOf(n);
  }

  // integer parsing and formatting

  predicate AllDigits(s: string)
  {
    forall k :: 0 <= k < |s| ==> 0 <= DigitValue(s[k]) < 10
  }

  /** int() of a text: an optional sign followed by decimal digits (surrounding
      whitespace is not accepted here). */
  function ParseInt(s: string): (r: Option<int>)
  {
    if |s| == 0 then None
    else if s[0] == '-' || s[0] == '+' then
      var digits := s[1..];
      if |digits| > 0 && AllDigits(digits) then
        Some(if s[0] == '-' then -ParseDecimal(digits) else ParseDecimal(digits))
      else None
    else if AllDigits(s) then Some(ParseDecimal(s))
    else None
  }

  /** str() of an integer. */
  function IntText(n: int): (r: string)
    ensures |r| >= 1 && '*' !in r && ',' !in r && r[0] != 'b' && r[0] != '#'
  {
    if n < 0 then "-" + Decimal(-n) else Decimal(n)
  }

  lemma ParseIntText(n: int)
    ensures ParseInt(IntText(n)) == Some(n)
  {
    if n < 0 {
      ParseNegative(n);
    } else {
      ParseNatural(n);
    }
  }

  lemma ParseNatural(n: int)
    requires n >= 0
    ensures ParseInt(IntText(n)) == Some(n)
  {
    var d := Decimal(n);
    assert IntText(n) == d;
    ParseDigits(d);
    ParseDecimalOf(n);
  }

  lemma ParseNegative(n: int)
    requires n < 0
    ensures ParseInt(IntText(n)) == Some(n)
  {
    var d := Decimal(-n);
    assert IntText(n) == ['-'] + d;
    ParseMinusDigits(d);
    ParseDecimalOf(-n);
  }

  lemma ParseDigits(d: string)
    requires |d| > 0 && forall k :: 0 <= k < |d| ==> 0 <= DigitValue(d[k]) < 10
    ensures ParseInt(d) == Some(ParseDecimal(d))
  {
    assert DigitValue(d[0]) >= 0;
  }

  lemma ParseMinusDigits(d: string)
    requires |d| > 0 && forall k :: 0 <= k < |d| ==> 0 <= DigitValue(d[k]) < 10
    ensures ParseInt(['-'] + d) == Some(-ParseDecimal(d))
  {
    var s := ['-'] + d;
    assert s[0] == '-' && s[1..] == d;
  }

  /** Splitting a join of separator-free parts gives the parts back. */
  lemma {:induction false} SplitJoin(parts: seq<string>, sep: char)
    requires |parts| >= 1
    requires forall k :: 0 <= k < |parts| ==> sep !in parts[k]
    ensures Split(Join(parts, sep), sep) == parts
    decreases |parts|
  {
    if |parts| > 1 {
      var head, tail := parts[0], parts[1..];
      var rest := Join(tail, sep);
      assert parts == [head] + tail;
      JoinCons(head, tail, sep);
      var s := head + [sep] + rest;
      var i := FirstAfterFree(head, rest, sep);
      SplitAt(s, sep);
      Pieces(head, sep, rest);
      SplitJoin(tail, sep);
    }
  }

  /** The two sides of a separator placed between two texts. */
  lemma Pieces(head: string, sep: char, rest: string)
    ensures (head + [sep] + rest)[..|head|] == head
    ensures (head + [sep] + rest)[|head| + 1..] == rest
  { }

  /** In a text that starts with a separator-free part and a separator, the
      first separator is the one after the part. */
  lemma FirstAfterFree(head: string, rest: string, sep: char) returns (i: nat)
    requires sep !in head
    ensures sep in head + [sep] + rest && i == |head| == FirstIndex(head + [sep] + rest, sep)
  {
    var s := head + [sep] + rest;
    i := |head|;
    assert s[i] == sep && s[..i] == head;
    FirstIndexIs(s, sep, i);
  }

  /** An occurrence with none before it is the first one. */
  lemma {:induction false} FirstIndexIs<T>(s: seq<T>, c: T, i: nat)
    requires i < |s| && s[i] == c && c !in s[..i]
    ensures c in s && FirstIndex(s, c) == i
    decreases i
  {
    if i > 0 {
      assert s[0] == s[..i][0];
      assert s[1..][..i - 1] == s[..i][1..];
      FirstIndexIs(s[1..], c, i - 1);
    }
  }

  // trimming

  /** str.lstrip(chars): drop leading characters from the set. */
  function TrimStart(s: string, chars: set<char>): (r: string)
    ensures |r| <= |s| && r == s[|s| - |r|..]
    ensures |r| > 0 ==> r[0] !in chars
    ensures forall k :: 0 <= k < |s| - |r| ==> s[k] in chars
    decreases |s|
  {
    if |s| > 0 && s[0] in chars then TrimStart(s[1..], chars) else s
  }

  /** str.rstrip(chars): drop trailing characters from the set. */
  function TrimEnd(s: string, chars: set<char>): (r: string)
    ensures |r| <= |s| && r == s[..|r|]
    ensures |r| > 0 ==> r[|r| - 1] !in chars
    ensures forall k :: |r| <= k < |s| ==> s[k] in chars
    decreases |s|
  {
    if |s| > 0 && s[|s| - 1] in chars then TrimEnd(s[..|s| - 1], chars) else s
  }

  /** The characters str.strip() removes by default. */
  const Whitespace: set<char> := {' ', '\t', '\n', '\r', '\U{0B}', '\U{0C}'}

  /** str.strip(). */
  function Strip(s: string): (r: string)
  {
    TrimEnd(TrimStart(s, Whitespace), Whitespace)
  }

  // real fractions

  lemma DivPositive(a: real, m: real)
    requires a > 0.0 && m > 0.0
    ensures a / m > 0.0
  {
  }

  lemma DivBelow(a: real, b: real, m: real)
    requires m > 0.0 && a < b * m
    ensures a / m < b
  {
    var q := a / m;
    assert q * m == a;
    assert (b - q) * m == b * m - a;
  }

  lemma FractionInside(f: real, m: real, d: real)
    requires 0.0 < f < m && d > 0.0
    ensures 0.0 < f * d / m < d
  {
    assert f * d > 0.0;
    DivPositive(f * d, m);
    assert d * m - f * d == (m - f) * d;
    DivBelow(f * d, d, m);
  }

  lemma FractionIncreasing(fi: real, fj: real, m: real, d: real)
    requires fi < fj && m > 0.0 && d > 0.0
    ensures fi * d / m < fj * d / m
  {
    assert fj * d - fi * d == (fj - fi) * d;
    assert (fj * d - fi * d) / m > 0.0;
    assert fj * d / m - fi * d / m == (fj * d - fi * d) / m;
  }
}
