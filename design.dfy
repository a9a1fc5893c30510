// The design encoding and scoring skeleton of demakein/design.py: note names
// and semitones, the layout of the optimiser's state vector, the constraint
// score, the event and action ordering of Instrument.prepare, and the
// interpolation step and fallback of the resonance search. The acoustic
// formulas (complex replies, pow, log, atan2, sqrt) are not modelled.

module Design {
  import opened Common
  import opened Profiles

  // ------------------------------------------------------- notes and names

  /** semitone_name: the name of each semitone above C. */
  const SemitoneNames: seq<string> := ["C", "C#", "D", "Eb", "E", "F", "F#", "G", "G#", "A", "Bb", "B"]

  /** semitone[c.upper()]: the natural notes; any other letter is a KeyError. */
  function Natural(c: char): (r: Option<int>)
    ensures r.Some? ==> 0 <= r.value < 12
  {
    match c
    case 'C' => Some(0) case 'c' => Some(0)
    case 'D' => Some(2) case 'd' => Some(2)
    case 'E' => Some(4) case 'e' => Some(4)
    case 'F' => Some(5) case 'f' => Some(5)
    case 'G' => Some(7) case 'g' => Some(7)
    case 'A' => Some(9) case 'a' => Some(9)
    case 'B' => Some(11) case 'b' => Some(11)
    case _ => None
  }

  /** The semitone part of fqc: a '*k' suffix only scales the frequency and
      is split off (more than one '*' fails to unpack). */
  function Semitone(note: string): (r: Result<int>)
  {
    var parts := Split(note, '*');
    if |parts| > 2 then Err("too many values to unpack") else NameSemitone(parts[0])
  }

  /** The letter's semitone, -1 for a following 'b', +1 for a following '#'
      (in that order), and 12 per octave. */
  function NameSemitone(name: string): (r: Result<int>)
  {
    if |name| == 0 then Err("string index out of range")
    else if Natural(name[0]).None? then Err("unknown note letter")
    else
      var (s, rest) := Accidentals(Natural(name[0]).value, name[1..]);
      match ParseInt(rest)
      case None => Err("invalid literal for int()")
      case Some(octave) => Ok(s + 12 * octave)
  }

  function Accidentals(s: int, rest: string): (int, string)
  {
    var (s1, rest1) := if |rest| > 0 && rest[0] == 'b' then (s - 1, rest[1..]) else (s, rest);
    if |rest1| > 0 && rest1[0] == '#' then (s1 + 1, rest1[1..]) else (s1, rest1)
  }

  /** The naming half of describe: semitone_name[s % 12] + str(s // 12). */
  function Name(s: int): (r: string)
  {
    SemitoneNames[s % 12] + IntText(s / 12)
  }

  /** Each name is a letter, possibly followed by one accidental that
      moves it to the named semitone. */
  lemma NameShape(k: int)
    requires 0 <= k < 12
    ensures var n := SemitoneNames[k];
      1 <= |n| <= 2 && Natural(n[0]).Some?
      && (|n| == 1 ==> Natural(n[0]).value == k)
      && (|n| == 2 ==> (n[1] == '#' && Natural(n[0]).value + 1 == k)
                       || (n[1] == 'b' && Natural(n[0]).value - 1 == k))
  {
    if k == 0 {} else if k == 1 {} else if k == 2 {} else if k == 3 {}
    else if k == 4 {} else if k == 5 {} else if k == 6 {} else if k == 7 {}
    else if k == 8 {} else if k == 9 {} else if k == 10 {} else {}
  }

  /** Each semitone name reads back as its own semitone, with whatever
      octave text follows it untouched. */
  lemma NameLetters(k: int, oct: string)
    requires 0 <= k < 12 && |oct| > 0 && oct[0] != 'b' && oct[0] != '#'
    ensures var name := SemitoneNames[k] + oct;
      Natural(name[0]).Some? && Accidentals(Natural(name[0]).value, name[1..]) == (k, oct)
  {
    var n := SemitoneNames[k];
    NameShape(k);
    assert (n + oct)[0] == n[0];
    if |n| == 2 {
      assert (n + oct)[1..] == [n[1]] + oct;
      assert ([n[1]] + oct)[1..] == oct;
    } else {
      assert (n + oct)[1..] == oct;
    }
  }

  /** Parsing a name gives its semitone back, for every semitone, so the
      naming is an inverse of the semitone part of fqc. */
  lemma NameRoundTrip(s: int)
    ensures Semitone(Name(s)) == Ok(s)
  {
    var k, q := s % 12, s / 12;
    var name := SemitoneNames[k] + IntText(q);
    assert Name(s) == name;
    NameSemitoneOf(k, q);
    NoStar(k, q);
    SemitoneUnscaled(name);
    assert k + 12 * q == s;
  }

  /** Without a '*', the semitone part is the whole note. */
  lemma SemitoneUnscaled(note: string)
    requires Split(note, '*') == [note]
    ensures Semitone(note) == NameSemitone(note)
  {
  }

  lemma NameSemitoneOf(k: int, q: int)
    requires 0 <= k < 12
    ensures NameSemitone(SemitoneNames[k] + IntText(q)) == Ok(k + 12 * q)
  {
    var oct := IntText(q);
    var name := SemitoneNames[k] + oct;
    ParseIntText(q);
    NameLetters(k, oct);
    NameSemitoneParts(name, k, oct, q);
  }

  /** A letter whose accidentals give semitone k, followed by the octave text
      of v, names semitone k + 12 * v. */
  lemma NameSemitoneParts(name: string, k: int, oct: string, v: int)
    requires |name| > 0 && Natural(name[0]).Some?
    requires Accidentals(Natural(name[0]).value, name[1..]) == (k, oct)
    requires ParseInt(oct) == Some(v)
    ensures NameSemitone(name) == Ok(k + 12 * v)
  {
  }

  lemma NoStar(k: int, q: int)
    requires 0 <= k < 12
    ensures Split(SemitoneNames[k] + IntText(q), '*') == [SemitoneNames[k] + IntText(q)]
  {
    assert '*' !in SemitoneNames[k];
  }

  /** The A above middle C is semitone 57, the 440 Hz reference. */
  lemma ReferencePitch()
    ensures Semitone("A4") == Ok(57)
    ensures Name(57) == "A4"
  {
    assert Split("A4", '*') == ["A4"];
    assert "A4"[1..] == "4";
    assert AllDigits("4");
    assert ParseDecimal("4") == 4 by {
      assert "4"[..0] == [];
    }
  }

  // ---------------------------------------------------------------- low_high

  /** An entry of a diameter or angle list: one value, or a sequence that is
      meant to be a (low, high) pair. */
  datatype Entry<T> = Single(value: T) | Several(items: seq<T>)

  predicate PairsOnly<T>(vec: seq<Entry<T>>)
  {
    forall k :: 0 <= k < |vec| ==> vec[k].Several? ==> |vec[k].items| == 2
  }

  function LowOf<T>(e: Entry<T>): T
    requires e.Several? ==> |e.items| == 2
  {
    if e.Single? then e.value else e.items[0]
  }

  function HighOf<T>(e: Entry<T>): T
    requires e.Several? ==> |e.items| == 2
  {
    if e.Single? then e.value else e.items[1]
  }

  /** low_high: a pair contributes its two items, a single value goes to both
      lists; any other sequence length fails the assertion. */
  method LowHigh<T>(vec: seq<Entry<T>>) returns (r: Result<(seq<T>, seq<T>)>)
    ensures r.Ok? <==> PairsOnly(vec)
    ensures r.Ok? ==> |r.value.0| == |vec| && |r.value.1| == |vec|
    ensures r.Ok? ==> forall k :: 0 <= k < |vec| ==>
      r.value.0[k] == LowOf(vec[k]) && r.value.1[k] == HighOf(vec[k])
  {
    var low: seq<T> := [];
    var high: seq<T> := [];
    for i := 0 to |vec|
      invariant PairsOnly(vec[..i])
      invariant |low| == i && |high| == i
      invariant forall k :: 0 <= k < i ==> low[k] == LowOf(vec[k]) && high[k] == HighOf(vec[k])
    {
      var item := vec[i];
      if item.Several? {
        if |item.items| != 2 {
          return Err("assert len(item) == 2");
        }
        low := low + [item.items[0]];
        high := high + [item.items[1]];
      } else {
        low := low + [item.value];
        high := high + [item.value];
      }
      assert vec[..i + 1] == vec[..i] + [vec[i]];
    }
    assert vec[..|vec|] == vec;
    r := Ok((low, high));
  }

  // ------------------------------------------------------ the state vector

  /** 1 + 2 * n_holes + (len(inner_diameters) - 2) + (len(outer_diameters) - 2) */
  function StateLength(nHoles: nat, nInner: nat, nOuter: nat): int
  {
    1 + 2 * nHoles + (nInner - 2) + (nOuter - 2)
  }

  /** The designer's initial guesses: hole fractions, hole diameter fractions
      and the inner and outer kink fractions. */
  datatype Guesses = Guesses(
    holeFractions: seq<real>, holeDiameterFractions: seq<real>,
    innerFractions: seq<real>, outerFractions: seq<real>)

  predicate GuessesFit(g: Guesses, nHoles: nat, nInner: nat, nOuter: nat)
  {
    |g.holeFractions| == nHoles && |g.holeDiameterFractions| == nHoles
    && |g.innerFractions| == nInner - 2 && |g.outerFractions| == nOuter - 2
  }

  /** initial_state_vec: the four length assertions, then [1.0], the hole
      fractions, the squared diameter fractions and the kink fractions. */
  function InitialStateVec(g: Guesses, nHoles: nat, nInner: nat, nOuter: nat): (r: Result<seq<real>>)
    ensures r.Ok? <==> GuessesFit(g, nHoles, nInner, nOuter)
    ensures r.Ok? ==> |r.value| == StateLength(nHoles, nInner, nOuter)
  {
    if !GuessesFit(g, nHoles, nInner, nOuter) then Err("wrong length")
    else
      Ok([1.0] + g.holeFractions + Squares(g.holeDiameterFractions)
         + g.innerFractions + g.outerFractions)
  }

  function Squares(xs: seq<real>): (r: seq<real>)
    ensures |r| == |xs| && forall i :: 0 <= i < |xs| ==> r[i] == xs[i] * xs[i]
  {
    seq(|xs|, i requires 0 <= i < |xs| => xs[i] * xs[i])
  }

  /** The fields unpack reads from the state vector: the length, the hole
      positions, the raw diameter block (before its signed square root), and
      the inner and outer kink positions. */
  datatype Layout = Layout(
    length: real, holePositions: seq<real>, diameterBlock: seq<real>,
    innerKinks: seq<real>, outerKinks: seq<real>)

  /** Python's s[lo:hi] for 0 <= lo <= hi: cut short at the end of s. */
  function Slice(s: seq<real>, lo: nat, hi: nat): (r: seq<real>)
    requires lo <= hi
    ensures hi <= |s| ==> r == s[lo..hi]
  {
    if hi <= |s| then s[lo..hi] else if lo <= |s| then s[lo..] else []
  }

  function Scaled(xs: seq<real>, c: real): (r: seq<real>)
    ensures |r| == |xs| && forall i :: 0 <= i < |xs| ==> r[i] == xs[i] * c
  {
    seq(|xs|, i requires 0 <= i < |xs| => xs[i] * c)
  }

  /** The layout unpack reads: the blocks of the state vector in order,
      the first scaling the initial length and the positions scaling that
      length. */
  function Unpacked(sv: seq<real>, nHoles: nat, nInner: nat, nOuter: nat, initialLength: real, scale: real)
    : (r: Result<Layout>)
    requires nInner >= 2 && nOuter >= 2
    ensures r.Ok? <==> |sv| == StateLength(nHoles, nInner, nOuter)
  {
    if |sv| != StateLength(nHoles, nInner, nOuter) then Err("assert p == len(state_vec)")
    else
      var length := sv[0] * initialLength * scale;
      var a := 1 + nHoles;
      var b := a + nHoles;
      var c := b + (nInner - 2);
      Ok(Layout(length, Scaled(sv[1..a], length), sv[a..b], Scaled(sv[b..c], length), Scaled(sv[c..], length)))
  }

  /** unpack: read the blocks with a cursor p that advances block by block;
      the final assertion p == len(state_vec) rejects a vector of any other
      length. Inner and outer profiles always have both ends, so nInner and
      nOuter are at least 2. */
  method Unpack(sv: seq<real>, nHoles: nat, nInner: nat, nOuter: nat, initialLength: real, scale: real)
    returns (r: Result<Layout>)
    requires nInner >= 2 && nOuter >= 2
    ensures r.Ok? <==> |sv| == StateLength(nHoles, nInner, nOuter)
    ensures r.Ok? ==> r == Unpacked(sv, nHoles, nInner, nOuter, initialLength, scale)
  {
    if |sv| == 0 {
      return Err("list index out of range");
    }
    var p := 0;
    var length := sv[0] * initialLength * scale;
    p := p + 1;
    var holePositions := Scaled(Slice(sv, p, p + nHoles), length);
    p := p + nHoles;
    var diameterBlock := Slice(sv, p, p + nHoles);
    p := p + nHoles;
    var innerKinks := Scaled(Slice(sv, p, p + (nInner - 2)), length);
    p := p + (nInner - 2);
    var outerKinks := Scaled(Slice(sv, p, p + (nOuter - 2)), length);
    p := p + (nOuter - 2);
    if p != |sv| {
      return Err("assert p == len(state_vec)");
    }
    assert sv[p - (nOuter - 2)..p] == sv[p - (nOuter - 2)..];
    r := Ok(Layout(length, holePositions, diameterBlock, innerKinks, outerKinks));
  }

  /** Unpacking the initial state vector gives the designer's guesses back:
      the full initial length (times the scale), the hole and kink fractions
      of that length, and the squared diameter fractions. */
  lemma UnpackInitial(g: Guesses, nHoles: nat, nInner: nat, nOuter: nat, initialLength: real, scale: real)
    requires nInner >= 2 && nOuter >= 2
    requires GuessesFit(g, nHoles, nInner, nOuter)
    ensures var length := initialLength * scale;
      Unpacked(InitialStateVec(g, nHoles, nInner, nOuter).value, nHoles, nInner, nOuter, initialLength, scale)
      == Ok(Layout(length, Scaled(g.holeFractions, length), Squares(g.holeDiameterFractions),
                   Scaled(g.innerFractions, length), Scaled(g.outerFractions, length)))
  {
    var sv := InitialStateVec(g, nHoles, nInner, nOuter).value;
    var a := 1 + nHoles;
    var b := a + nHoles;
    var c := b + (nInner - 2);
    assert sv[0] == 1.0;
    var length := sv[0] * initialLength * scale;
    assert length == initialLength * scale;
    assert |sv| == StateLength(nHoles, nInner, nOuter);
    assert Unpacked(sv, nHoles, nInner, nOuter, initialLength, scale).Ok?;
    assert Unpacked(sv, nHoles, nInner, nOuter, initialLength, scale).value.length == length;
    assert Unpacked(sv, nHoles, nInner, nOuter, initialLength, scale).value.diameterBlock == sv[a..b];
    assert Unpacked(sv, nHoles, nInner, nOuter, initialLength, scale)
      == Ok(Layout(length, Scaled(sv[1..a], length), sv[a..b], Scaled(sv[b..c], length), Scaled(sv[c..], length)));
    assert sv[1..a] == g.holeFractions;
    assert sv[a..b] == Squares(g.holeDiameterFractions);
    assert sv[b..c] == g.innerFractions;
    assert sv[c..] == g.outerFractions;
  }

  // -------------------------------------------------------- constraint_score

  /** The designer's limits that constraint_score checks; None entries are
      skipped. n_holes is len(max_hole_diameters). */
  datatype Limits = Limits(
    minInnerFractionSep: seq<real>, minOuterFractionSep: seq<real>,
    bottomClearanceFraction: real, topClearanceFraction: real,
    minHoleSpacing: seq<Option<real>>, maxHoleSpacing: seq<Option<real>>,
    minHoleDiameters: seq<real>, maxHoleDiameters: seq<Option<real>>,
    balance: seq<Option<real>>)

  /** The parts of an unpacked instrument that the constraints read. */
  datatype Shape = Shape(
    length: real, innerKinks: seq<real>, outerKinks: seq<real>,
    holePositions: seq<real>, holeDiameters: seq<real>)

  /** Every index constraint_score uses is in range. */
  predicate Fits(lim: Limits, sh: Shape)
  {
    var n := |lim.maxHoleDiameters|;
    |lim.minInnerFractionSep| > |sh.innerKinks|
    && |lim.minOuterFractionSep| > |sh.outerKinks|
    && |sh.holePositions| == n && |sh.holeDiameters| == n
    && (n > 0 ==>
          |lim.minHoleSpacing| < n && |lim.maxHoleSpacing| < n
          && |lim.minHoleDiameters| <= n && |lim.balance| + 1 < n)
  }

  /** The separation checks of consecutive breakpoints [0] + kinks + [length]. */
  function Gaps(xs: seq<real>, sep: seq<real>, length: real, k: nat): (r: seq<real>)
    requires k < |xs| && k <= |sep|
    ensures |r| == k
    ensures forall i :: 0 <= i < k ==> r[i] == xs[i + 1] - xs[i] - sep[i] * length
  {
    if k == 0 then [] else Gaps(xs, sep, length, k - 1) + [xs[k] - xs[k - 1] - sep[k - 1] * length]
  }

  /** The checks of the first k optional limits, each a function of the limit
      and its index; None entries contribute nothing. */
  function MinSpacingChecks(pos: seq<real>, vals: seq<Option<real>>, k: nat): (r: seq<real>)
    requires k <= |vals| < |pos|
  {
    if k == 0 then []
    else
      var rest := MinSpacingChecks(pos, vals, k - 1);
      match vals[k - 1]
      case None => rest
      case Some(v) => rest + [(pos[k] - pos[k - 1]) - v]
  }

  function MaxSpacingChecks(pos: seq<real>, vals: seq<Option<real>>, k: nat): (r: seq<real>)
    requires k <= |vals| < |pos|
  {
    if k == 0 then []
    else
      var rest := MaxSpacingChecks(pos, vals, k - 1);
      match vals[k - 1]
      case None => rest
      case Some(v) => rest + [v - (pos[k] - pos[k - 1])]
  }

  function MaxDiameterChecks(diams: seq<real>, vals: seq<Option<real>>, k: nat): (r: seq<real>)
    requires k <= |vals| <= |diams|
  {
    if k == 0 then []
    else
      var rest := MaxDiameterChecks(diams, vals, k - 1);
      match vals[k - 1]
      case None => rest
      case Some(v) => rest + [v - diams[k - 1]]
  }

  function BalanceChecks(pos: seq<real>, vals: seq<Option<real>>, k: nat): (r: seq<real>)
    requires k <= |vals| && |vals| + 1 < |pos|
  {
    if k == 0 then []
    else
      var rest := BalanceChecks(pos, vals, k - 1);
      match vals[k - 1]
      case None => rest
      case Some(v) => rest + [Balance(pos, k - 1, v)]
  }

  /** How far hole i + 1 may still move off the midpoint of its neighbours:
      a fraction v of half their distance, less its distance from the
      midpoint. */
  function Balance(pos: seq<real>, i: nat, v: real): real
    requires i + 2 < |pos|
  {
    v * 0.5 * (pos[i + 2] - pos[i]) - Abs(0.5 * pos[i] + 0.5 * pos[i + 2] - pos[i + 1])
  }

  function MinDiameterChecks(diams: seq<real>, vals: seq<real>): (r: seq<real>)
    requires |vals| <= |diams|
    ensures |r| == |vals| && forall i :: 0 <= i < |vals| ==> r[i] == diams[i] - vals[i]
  {
    seq(|vals|, i requires 0 <= i < |vals| => diams[i] - vals[i])
  }

  function Breakpoints(kinks: seq<real>, length: real): (r: seq<real>)
    ensures |r| == |kinks| + 2
  {
    [0.0] + kinks + [length]
  }

  /** Every check of constraint_score, in the order the scores list is
      filled. */
  function Checks(lim: Limits, sh: Shape): (r: seq<real>)
    requires Fits(lim, sh)
  {
    var inners := Breakpoints(sh.innerKinks, sh.length);
    var outers := Breakpoints(sh.outerKinks, sh.length);
    var base := [sh.length]
      + Gaps(inners, lim.minInnerFractionSep, sh.length, |inners| - 1)
      + Gaps(outers, lim.minOuterFractionSep, sh.length, |outers| - 1);
    base + HoleChecks(lim, sh)
  }

  function HoleChecks(lim: Limits, sh: Shape): (r: seq<real>)
    requires Fits(lim, sh)
  {
    if |lim.maxHoleDiameters| == 0 then []
    else
      Clearances(lim, sh)
      + MinSpacingChecks(sh.holePositions, lim.minHoleSpacing, |lim.minHoleSpacing|)
      + MaxSpacingChecks(sh.holePositions, lim.maxHoleSpacing, |lim.maxHoleSpacing|)
      + MinDiameterChecks(sh.holeDiameters, lim.minHoleDiameters)
      + MaxDiameterChecks(sh.holeDiameters, lim.maxHoleDiameters, |lim.maxHoleDiameters|)
      + BalanceChecks(sh.holePositions, lim.balance, |lim.balance|)
  }

  /** The bottom hole's distance above the bottom clearance and the top
      hole's distance below the top clearance. */
  function Clearances(lim: Limits, sh: Shape): (r: seq<real>)
    requires |sh.holePositions| > 0
  {
    [sh.holePositions[0] - lim.bottomClearanceFraction * sh.length,
     (1.0 - lim.topClearanceFraction) * sh.length - sh.holePositions[|sh.holePositions| - 1]]
  }

  /** The summed violation: -item over the negative items. */
  function Penalty(xs: seq<real>): real
  {
    if |xs| == 0 then 0.0
    else Penalty(xs[..|xs| - 1]) + (if xs[|xs| - 1] < 0.0 then -xs[|xs| - 1] else 0.0)
  }

  /** The penalty is never negative, and is zero exactly when no check is
      negative. */
  lemma {:induction false} PenaltyZero(xs: seq<real>)
    ensures Penalty(xs) >= 0.0
    ensures Penalty(xs) == 0.0 <==> forall i :: 0 <= i < |xs| ==> xs[i] >= 0.0
  {
    if |xs| > 0 {
      var n := |xs| - 1;
      PenaltyZero(xs[..n]);
      assert forall i :: 0 <= i < n ==> xs[..n][i] == xs[i];
    }
  }

  /** The penalty is the sum of the absolute values of the negative checks:
      it splits over concatenation like a sum. */
  lemma {:induction false} PenaltyAppend(a: seq<real>, b: seq<real>)
    ensures Penalty(a + b) == Penalty(a) + Penalty(b)
    decreases |b|
  {
    if |b| == 0 {
      assert a + b == a;
    } else {
      var n := |b| - 1;
      PenaltyAppend(a, b[..n]);
      assert (a + b)[..|a + b| - 1] == a + b[..n];
    }
  }

  /** constraint_score: fill the scores list check by check, then sum the
      negated negative items. */
  method ConstraintScore(lim: Limits, sh: Shape) returns (score: real)
    requires Fits(lim, sh)
    ensures score == Penalty(Checks(lim, sh))
    ensures score >= 0.0
    ensures score == 0.0 <==> forall i :: 0 <= i < |Checks(lim, sh)| ==> Checks(lim, sh)[i] >= 0.0
  {
    var scores: seq<real> := [sh.length];
    var inners := Breakpoints(sh.innerKinks, sh.length);
    scores := AddGaps(scores, inners, lim.minInnerFractionSep, sh.length);
    var outers := Breakpoints(sh.outerKinks, sh.length);
    scores := AddGaps(scores, outers, lim.minOuterFractionSep, sh.length);
    var holes := HoleScores(lim, sh);
    scores := scores + holes;
    score := NegativeSum(scores);
    PenaltyZero(scores);
  }

  /** The separation loop over consecutive breakpoints. */
  method AddGaps(scores: seq<real>, xs: seq<real>, sep: seq<real>, length: real) returns (r: seq<real>)
    requires |xs| >= 1 && |xs| - 1 <= |sep|
    ensures r == scores + Gaps(xs, sep, length, |xs| - 1)
  {
    r := scores;
    for i := 0 to |xs| - 1
      invariant r == scores + Gaps(xs, sep, length, i)
    {
      r := r + [xs[i + 1] - xs[i] - sep[i] * length];
    }
  }

  /** The hole part of constraint_score, run only when there are holes. */
  method HoleScores(lim: Limits, sh: Shape) returns (scores: seq<real>)
    requires Fits(lim, sh)
    ensures scores == HoleChecks(lim, sh)
  {
    var n := |lim.maxHoleDiameters|;
    scores := [];
    if n == 0 {
      return;
    }
    var pos := sh.holePositions;
    scores := Clearances(lim, sh);
    scores := AddMinSpacing(scores, pos, lim.minHoleSpacing);
    scores := AddMaxSpacing(scores, pos, lim.maxHoleSpacing);
    scores := AddMinDiameters(scores, sh.holeDiameters, lim.minHoleDiameters);
    scores := AddMaxDiameters(scores, sh.holeDiameters, lim.maxHoleDiameters);
    scores := AddBalance(scores, pos, lim.balance);
  }

  method AddMinSpacing(scores: seq<real>, pos: seq<real>, vals: seq<Option<real>>) returns (r: seq<real>)
    requires |vals| < |pos|
    ensures r == scores + MinSpacingChecks(pos, vals, |vals|)
  {
    r := scores;
    for i := 0 to |vals|
      invariant r == scores + MinSpacingChecks(pos, vals, i)
    {
      if vals[i].Some? {
        r := r + [(pos[i + 1] - pos[i]) - vals[i].value];
      }
    }
  }

  method AddMaxSpacing(scores: seq<real>, pos: seq<real>, vals: seq<Option<real>>) returns (r: seq<real>)
    requires |vals| < |pos|
    ensures r == scores + MaxSpacingChecks(pos, vals, |vals|)
  {
    r := scores;
    for i := 0 to |vals|
      invariant r == scores + MaxSpacingChecks(pos, vals, i)
    {
      if vals[i].Some? {
        r := r + [vals[i].value - (pos[i + 1] - pos[i])];
      }
    }
  }

  method AddMinDiameters(scores: seq<real>, diams: seq<real>, vals: seq<real>) returns (r: seq<real>)
    requires |vals| <= |diams|
    ensures r == scores + MinDiameterChecks(diams, vals)
  {
    r := scores;
    for i := 0 to |vals|
      invariant r == scores + MinDiameterChecks(diams, vals[..i])
    {
      r := r + [diams[i] - vals[i]];
      assert MinDiameterChecks(diams, vals[..i + 1]) == MinDiameterChecks(diams, vals[..i]) + [diams[i] - vals[i]];
    }
    assert vals[..|vals|] == vals;
  }

  method AddMaxDiameters(scores: seq<real>, diams: seq<real>, vals: seq<Option<real>>) returns (r: seq<real>)
    requires |vals| <= |diams|
    ensures r == scores + MaxDiameterChecks(diams, vals, |vals|)
  {
    r := scores;
    for i := 0 to |vals|
      invariant r == scores + MaxDiameterChecks(diams, vals, i)
    {
      if vals[i].Some? {
        r := r + [vals[i].value - diams[i]];
      }
    }
  }

  method AddBalance(scores: seq<real>, pos: seq<real>, vals: seq<Option<real>>) returns (r: seq<real>)
    requires |vals| + 1 < |pos|
    ensures r == scores + BalanceChecks(pos, vals, |vals|)
  {
    r := scores;
    for i := 0 to |vals|
      invariant r == scores + BalanceChecks(pos, vals, i)
    {
      if vals[i].Some? {
        r := r + [Balance(pos, i, vals[i].value)];
      }
    }
  }

  /** sum(-item for item in scores if item < 0.0), or 0.0 when there is none. */
  method NegativeSum(scores: seq<real>) returns (total: real)
    ensures total == Penalty(scores)
  {
    total := 0.0;
    for i := 0 to |scores|
      invariant total == Penalty(scores[..i])
    {
      assert scores[..i + 1][..i] == scores[..i];
      if scores[i] < 0.0 {
        total := total + -scores[i];
      }
    }
    assert scores[..|scores|] == scores;
  }

  // ---------------------------------------------- the resonance search step

  /** evaluate(i) of true_wavelength_near: the zero of the line through
      (x1, y1) and (x2, y2) and the gradient there, or None when the
      gradient exceeds max_grad. */
  function Chord(x1: real, y1: real, x2: real, y2: real, maxGrad: real): (r: Option<(real, real)>)
    requires x1 != x2 && y1 != y2
  {
    var m := (y2 - y1) / (x2 - x1);
    var c := y1 - m * x1;
    var intercept := -c / m;
    var grad := -m * intercept;
    if grad > maxGrad then None else Some((intercept, grad))
  }

  /** The chord's intercept is a zero of the line through both samples, and
      a sign change from y1 >= 0 to y2 < 0 over x1 < x2 puts it in
      [x1, x2]. The result is None exactly when the gradient is too steep. */
  lemma ChordZero(x1: real, y1: real, x2: real, y2: real, maxGrad: real)
    requires x1 != x2 && y1 != y2
    ensures var m := (y2 - y1) / (x2 - x1);
      var z := -(y1 - m * x1) / m;
      && y1 + m * (z - x1) == 0.0
      && (Chord(x1, y1, x2, y2, maxGrad).None? <==> -m * z > maxGrad)
      && (Chord(x1, y1, x2, y2, maxGrad).Some? ==> Chord(x1, y1, x2, y2, maxGrad).value == (z, -m * z))
      && (x1 < x2 && y1 >= 0.0 > y2 ==> x1 <= z <= x2)
  {
    var dx, dy := x2 - x1, y2 - y1;
    var m := dy / dx;
    ChordSlope(dx, dy, m);
    var z := -(y1 - m * x1) / m;
    ChordLine(x1, y1, m, z);
    ChordUnfold(x1, y1, x2, y2, maxGrad, m, z);
    if x1 < x2 && y1 >= 0.0 > y2 {
      ChordBracket(x1, y1, x2, y2, m, z);
    }
  }

  lemma ChordSlope(dx: real, dy: real, m: real)
    requires dx != 0.0 && dy != 0.0 && m == dy / dx
    ensures m * dx == dy && m != 0.0
    ensures dx > 0.0 && dy < 0.0 ==> m < 0.0
  {
    assert m * dx == dy;
    if dx > 0.0 && m >= 0.0 {
      assert m * dx >= 0.0;
    }
  }

  lemma ChordUnfold(x1: real, y1: real, x2: real, y2: real, maxGrad: real, m: real, z: real)
    requires x1 != x2 && y1 != y2
    requires m == (y2 - y1) / (x2 - x1) && z == -(y1 - m * x1) / m
    ensures Chord(x1, y1, x2, y2, maxGrad) == if -m * z > maxGrad then None else Some((z, -m * z))
  {
    var c := y1 - m * x1;
    assert z == -c / m;
    var r := Chord(x1, y1, x2, y2, maxGrad);
    assert r.None? <==> -m * z > maxGrad;
    assert r.Some? ==> r.value.0 == z;
    assert r.Some? ==> r.value.1 == -m * z;
    assert r == (if -m * z > maxGrad then None else Some((z, -m * z)));
  }

  lemma ChordLine(x1: real, y1: real, m: real, z: real)
    requires m != 0.0 && z == -(y1 - m * x1) / m
    ensures y1 + m * (z - x1) == 0.0
  {
    assert m * z == -(y1 - m * x1);
    assert m * (z - x1) == m * z - m * x1;
  }

  lemma ChordBracket(x1: real, y1: real, x2: real, y2: real, m: real, z: real)
    requires x1 < x2 && y1 >= 0.0 > y2 && m < 0.0
    requires m * (x2 - x1) == y2 - y1
    requires y1 + m * (z - x1) == 0.0
    ensures x1 <= z <= x2
  {
    assert m * (z - x1) == -y1 <= 0.0;
    assert m * (x2 - z) == y2 < 0.0 by {
      assert m * (x2 - z) == m * (x2 - x1) - m * (z - x1);
    }
  }

  /** The fallback after max_steps: the outer probe whose score is smaller
      in magnitude (the first one on a tie), with gradient 0.0. */
  function Fallback(probes: seq<real>, scores: seq<real>): (r: (real, real))
    requires |probes| == |scores| > 0
    ensures r.1 == 0.0
    ensures r.0 == probes[0] || r.0 == probes[|probes| - 1]
    ensures r.0 == probes[|probes| - 1] && probes[|probes| - 1] != probes[0]
      ==> Abs(scores[|scores| - 1]) < Abs(scores[0])
    ensures Abs(scores[|scores| - 1]) < Abs(scores[0]) ==> r.0 == probes[|probes| - 1]
  {
    if Abs(scores[|scores| - 1]) < Abs(scores[0]) then (probes[|probes| - 1], 0.0)
    else (probes[0], 0.0)
  }
}
