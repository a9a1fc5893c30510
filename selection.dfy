// Tag-selection expressions of demakein/selection.py. An expression is a
// chain of possibly negated atoms joined by ':' (and), '/' (or) and '^'
// (xor), read left to right with equal precedence; an atom is a name or a
// bracketed sub-expression.

module Selection {
  import opened Common

  /** term_specification: the part of the term before the first '='. */
  function TermSpecification(term: string): (r: string)
    ensures '=' !in term ==> r == term
    ensures '=' in term ==> |r| < |term| && term[..|r|] == r && term[|r|] == '=' && '=' !in r
  {
    if '=' !in term then term else term[..FirstIndex(term, '=')]
  }

  /** term_name: the part of the term after the first '='. */
  function TermName(term: string): (r: string)
    ensures '=' !in term ==> r == term
    ensures '=' in term ==> |r| < |term| && term[|term| - |r|..] == r
  {
    if '=' !in term then term else term[FirstIndex(term, '=') + 1..]
  }

  /** A term with '=' is its specification, '=', then its name. */
  lemma TermParts(term: string)
    requires '=' in term
    ensures TermSpecification(term) + "=" + TermName(term) == term
  {
    var i := FirstIndex(term, '=');
    assert term == term[..i] + [term[i]] + term[i + 1..];
  }

  /** Characters that end a name. */
  predicate Stop(c: char)
  {
    c == '[' || c == ']' || c == ':' || c == '/' || c == '^'
  }

  predicate IsOperator(c: char)
  {
    c == ':' || c == '/' || c == '^'
  }

  /** The length of the name at the front of e: the run of non-stop characters. */
  function NameLen(e: string): (n: nat)
    ensures n <= |e|
    ensures forall k :: 0 <= k < n ==> !Stop(e[k])
    ensures n < |e| ==> Stop(e[n])
  {
    if |e| == 0 || Stop(e[0]) then 0 else 1 + NameLen(e[1..])
  }

  /** The value of `value op value2`; '^' is written (not b and a) or (not a and b). */
  function Combine(op: char, a: bool, b: bool): (r: bool)
    ensures op == ':' ==> (r <==> a && b)
    ensures op == '/' ==> (r <==> a || b)
    ensures op != ':' && op != '/' ==> (r <==> a != b)
  {
    if op == ':' then a && b
    else if op == '/' then a || b
    else (!b && a) || (!a && b)
  }

  /** The text left over is a proper suffix of the input. */
  predicate ConsumedFrom(rest: string, e: string)
  {
    |rest| < |e| && rest == e[|e| - |rest|..]
  }

  predicate SuffixOf(rest: string, e: string)
  {
    |rest| <= |e| && rest == e[|e| - |rest|..]
  }

  /** parse2: a bracketed sub-expression or a name. */
  function ParseAtom(e: string, tags: set<string>): (r: Result<(bool, string)>)
    ensures r.Ok? ==> ConsumedFrom(r.value.1, e)
    decreases |e|, 0
  {
    if |e| == 0 then Err("unexpected end of expression")
    else if e[0] == '[' then
      match ParseExpr(e[1..], tags)
      case Err(m) => Err(m)
      case Ok((v, rest)) =>
        if |rest| > 0 && rest[0] == ']' then Ok((v, rest[1..])) else Err("expected a closing ]")
    else
      var i := NameLen(e);
      if i == 0 then Err("unexpected " + [e[0]])
      else Ok((e[..i] == "all" || e[..i] in tags, e[i..]))
  }

  /** parse1: an atom, negated by a leading '-'. */
  function ParseUnary(e: string, tags: set<string>): (r: Result<(bool, string)>)
    ensures r.Ok? ==> ConsumedFrom(r.value.1, e)
    decreases |e|, 1
  {
    if |e| == 0 then Err("unexpected end of expression")
    else if e[0] == '-' then
      match ParseAtom(e[1..], tags)
      case Err(m) => Err(m)
      case Ok((v, rest)) => Ok((!v, rest))
    else ParseAtom(e, tags)
  }

  /** parse: a unary term followed by the operator loop. */
  function ParseExpr(e: string, tags: set<string>): (r: Result<(bool, string)>)
    ensures r.Ok? ==> ConsumedFrom(r.value.1, e)
    ensures r.Ok? ==> |r.value.1| == 0 || !IsOperator(r.value.1[0])
    decreases |e|, 2
  {
    match ParseUnary(e, tags)
    case Err(m) => Err(m)
    case Ok((v, rest)) => ParseChain(v, rest, tags)
  }

  /** The operator loop of parse, from the value so far. */
  function ParseChain(value: bool, e: string, tags: set<string>): (r: Result<(bool, string)>)
    ensures r.Ok? ==> SuffixOf(r.value.1, e)
    ensures r.Ok? ==> |r.value.1| == 0 || !IsOperator(r.value.1[0])
    decreases |e|, 3
  {
    if |e| > 0 && IsOperator(e[0]) then
      match ParseUnary(e[1..], tags)
      case Err(m) => Err(m)
      case Ok((v2, rest)) => ParseChain(Combine(e[0], value, v2), rest, tags)
    else Ok((value, e))
  }

  /** matches(expression, tags): the empty expression matches nothing; any
      other must parse completely. */
  function Matches(expression: string, tags: set<string>): (r: Result<bool>)
    ensures expression == "" ==> r == Ok(false)
    ensures expression != "" ==>
      (r.Ok? <==> ParseExpr(expression, tags).Ok? && ParseExpr(expression, tags).value.1 == "")
  {
    if expression == "" then Ok(false)
    else
      match ParseExpr(expression, tags)
      case Err(m) => Err("Could not parse: " + expression + ", " + m)
      case Ok((v, rest)) =>
        if rest != "" then Err("Could not parse: " + rest + ", don't know what to do with: " + rest)
        else Ok(v)
  }

  // The parser as the source writes it, with its while loops.

  /** The name-scanning loop of parse2. */
  method ScanName(e: string) returns (i: nat)
    ensures i == NameLen(e)
  {
    i := 0;
    while i < |e| && !Stop(e[i])
      invariant i <= |e| && NameLen(e) == i + NameLen(e[i..])
    {
      assert e[i..][1..] == e[i + 1..];
      i := i + 1;
    }
  }

  method Parse2(e: string, tags: set<string>) returns (r: Result<(bool, string)>)
    ensures r == ParseAtom(e, tags)
    decreases |e|, 0
  {
    if |e| == 0 {
      return Err("unexpected end of expression");
    }
    if e[0] == '[' {
      var inner := Parse(e[1..], tags);
      if inner.Err? {
        return Err(inner.message);
      }
      var (v, rest) := inner.value;
      if |rest| > 0 && rest[0] == ']' {
        return Ok((v, rest[1..]));
      }
      return Err("expected a closing ]");
    }
    var i := ScanName(e);
    if i == 0 {
      return Err("unexpected " + [e[0]]);
    }
    r := Ok((e[..i] == "all" || e[..i] in tags, e[i..]));
  }

  method Parse1(e: string, tags: set<string>) returns (r: Result<(bool, string)>)
    ensures r == ParseUnary(e, tags)
    decreases |e|, 1
  {
    if |e| == 0 {
      return Err("unexpected end of expression");
    }
    if e[0] == '-' {
      var atom := Parse2(e[1..], tags);
      if atom.Err? {
        return Err(atom.message);
      }
      return Ok((!atom.value.0, atom.value.1));
    }
    r := Parse2(e, tags);
  }

  method Parse(e: string, tags: set<string>) returns (r: Result<(bool, string)>)
    ensures r == ParseExpr(e, tags)
    decreases |e|, 2
  {
    var first := Parse1(e, tags);
    if first.Err? {
      return Err(first.message);
    }
    var (value, expression) := first.value;
    while |expression| > 0 && IsOperator(expression[0])
      invariant ConsumedFrom(expression, e)
      invariant ParseExpr(e, tags) == ParseChain(value, expression, tags)
      decreases |expression|
    {
      var operator := expression[0];
      var next := Parse1(expression[1..], tags);
      if next.Err? {
        return Err(next.message);
      }
      value, expression := Combine(operator, value, next.value.0), next.value.1;
    }
    r := Ok((value, expression));
  }

  // Expression trees, their printed form and their meaning.

  datatype Atom = Name(name: string) | Group(chain: Chain)
  datatype Unary = Unary(negated: bool, atom: Atom)
  datatype Chain = Chain(first: Unary, rest: seq<(char, Unary)>)

  predicate PlainName(n: string)
  {
    |n| > 0 && n[0] != '-' && forall k :: 0 <= k < |n| ==> !Stop(n[k])
  }

  predicate AtomOk(a: Atom)
  {
    match a
    case Name(n) => PlainName(n)
    case Group(c) => ChainOk(c)
  }

  predicate ChainOk(c: Chain)
    decreases c, 1
  {
    AtomOk(c.first.atom) && OpsOk(c, 0)
  }

  predicate OpsOk(c: Chain, k: nat)
    decreases c, 0, |c.rest| - k
  {
    k < |c.rest| ==> IsOperator(c.rest[k].0) && AtomOk(c.rest[k].1.atom) && OpsOk(c, k + 1)
  }

  function PrintAtom(a: Atom): string
  {
    match a
    case Name(n) => n
    case Group(c) => "[" + PrintChain(c) + "]"
  }

  function PrintUnary(u: Unary): string
  {
    (if u.negated then "-" else "") + PrintAtom(u.atom)
  }

  /** The operators and operands of c from the k-th on. */
  function PrintOps(c: Chain, k: nat): string
    decreases c, 0, |c.rest| - k
  {
    if k >= |c.rest| then "" else [c.rest[k].0] + PrintUnary(c.rest[k].1) + PrintOps(c, k + 1)
  }

  function PrintChain(c: Chain): string
    decreases c, 1
  {
    PrintUnary(c.first) + PrintOps(c, 0)
  }

  function EvalAtom(a: Atom, tags: set<string>): bool
  {
    match a
    case Name(n) => n == "all" || n in tags
    case Group(c) => EvalChain(c, tags)
  }

  function EvalUnary(u: Unary, tags: set<string>): bool
  {
    if u.negated then !EvalAtom(u.atom, tags) else EvalAtom(u.atom, tags)
  }

  /** Operators apply left to right, all with the same precedence. */
  function EvalOps(value: bool, c: Chain, k: nat, tags: set<string>): bool
    decreases c, 0, |c.rest| - k
  {
    if k >= |c.rest| then value
    else EvalOps(Combine(c.rest[k].0, value, EvalUnary(c.rest[k].1, tags)), c, k + 1, tags)
  }

  function EvalChain(c: Chain, tags: set<string>): bool
    decreases c, 1
  {
    EvalOps(EvalUnary(c.first, tags), c, 0, tags)
  }

  predicate AtomEnd(rest: string)
  {
    |rest| == 0 || Stop(rest[0])
  }

  lemma PrintAtomStart(a: Atom)
    requires AtomOk(a)
    ensures |PrintAtom(a)| > 0 && PrintAtom(a)[0] != '-' && !IsOperator(PrintAtom(a)[0])
  {
  }

  /** An atom printed in front of text that ends a name parses back to its value. */
  lemma {:induction false} AtomRoundTrip(a: Atom, rest: string, tags: set<string>)
    requires AtomOk(a) && AtomEnd(rest)
    ensures ParseAtom(PrintAtom(a) + rest, tags) == Ok((EvalAtom(a, tags), rest))
    decreases a, 3
  {
    var e := PrintAtom(a) + rest;
    match a
    case Name(n) =>
      assert e[..|n|] == n && e[|n|..] == rest;
      NameLenPrefix(n, rest);
    case Group(c) =>
      assert e[1..] == PrintChain(c) + ("]" + rest);
      ChainRoundTrip(c, "]" + rest, tags);
  }

  lemma {:induction false} NameLenPrefix(n: string, rest: string)
    requires forall k :: 0 <= k < |n| ==> !Stop(n[k])
    requires AtomEnd(rest)
    ensures NameLen(n + rest) == |n|
    decreases |n|
  {
    if |n| > 0 {
      assert (n + rest)[1..] == n[1..] + rest;
      NameLenPrefix(n[1..], rest);
    } else {
      assert n + rest == rest;
    }
  }

  lemma {:induction false} UnaryRoundTrip(u: Unary, rest: string, tags: set<string>)
    requires AtomOk(u.atom) && AtomEnd(rest)
    ensures ParseUnary(PrintUnary(u) + rest, tags) == Ok((EvalUnary(u, tags), rest))
    decreases u, 3
  {
    PrintAtomStart(u.atom);
    if u.negated {
      assert (PrintUnary(u) + rest)[1..] == PrintAtom(u.atom) + rest;
    } else {
      assert PrintUnary(u) + rest == PrintAtom(u.atom) + rest;
    }
    AtomRoundTrip(u.atom, rest, tags);
  }

  /** The operator loop reads printed operators back, left to right. */
  lemma {:induction false} OpsRoundTrip(value: bool, c: Chain, k: nat, rest: string, tags: set<string>)
    requires OpsOk(c, k)
    requires |rest| == 0 || rest[0] == ']'
    ensures ParseChain(value, PrintOps(c, k) + rest, tags) == Ok((EvalOps(value, c, k, tags), rest))
    decreases c, 0, |c.rest| - k
  {
    if k >= |c.rest| {
      assert PrintOps(c, k) + rest == rest;
    } else {
      var e := PrintOps(c, k) + rest;
      var tail := PrintOps(c, k + 1) + rest;
      assert e == [c.rest[k].0] + (PrintUnary(c.rest[k].1) + tail);
      assert e[1..] == PrintUnary(c.rest[k].1) + tail;
      OpsStart(c, k + 1, rest);
      UnaryRoundTrip(c.rest[k].1, tail, tags);
      OpsRoundTrip(Combine(c.rest[k].0, value, EvalUnary(c.rest[k].1, tags)), c, k + 1, rest, tags);
    }
  }

  lemma OpsStart(c: Chain, k: nat, rest: string)
    requires OpsOk(c, k)
    requires |rest| == 0 || rest[0] == ']'
    ensures AtomEnd(PrintOps(c, k) + rest)
  {
    if k < |c.rest| {
      assert (PrintOps(c, k) + rest)[0] == c.rest[k].0;
    } else {
      assert PrintOps(c, k) + rest == rest;
    }
  }

  /** A printed chain parses back to its value, leaving the closing text. */
  lemma {:induction false} ChainRoundTrip(c: Chain, rest: string, tags: set<string>)
    requires ChainOk(c)
    requires |rest| == 0 || rest[0] == ']'
    ensures ParseExpr(PrintChain(c) + rest, tags) == Ok((EvalChain(c, tags), rest))
    decreases c, 1
  {
    var tail := PrintOps(c, 0) + rest;
    assert PrintChain(c) + rest == PrintUnary(c.first) + tail;
    OpsStart(c, 0, rest);
    UnaryRoundTrip(c.first, tail, tags);
    OpsRoundTrip(EvalUnary(c.first, tags), c, 0, rest, tags);
  }

  /** matches() on a printed expression is its value: '-' binds to one atom,
      brackets group, and operators apply left to right. */
  lemma MatchesRoundTrip(c: Chain, tags: set<string>)
    requires ChainOk(c)
    ensures Matches(PrintChain(c), tags) == Ok(EvalChain(c, tags))
  {
    ChainParses(c, tags);
    PrintChainStart(c);
    MatchesOfParse(PrintChain(c), tags, EvalChain(c, tags));
  }

  /** A missing ']' is a parse error. */
  lemma MatchesUnclosed(c: Chain, tags: set<string>)
    requires ChainOk(c)
    ensures Matches("[" + PrintChain(c), tags).Err?
  {
    var p := PrintChain(c);
    ChainParses(c, tags);
    var e := "[" + p;
    assert e[1..] == p && e[0] == '[';
    AtomUnclosed(e, tags, EvalChain(c, tags));
    UnaryOfAtom(e, tags);
    ExprOfUnaryErr(e, tags);
    MatchesOfParseErr(e, tags);
  }

  /** A printed chain parses back to its value, consuming all of it. */
  lemma ChainParses(c: Chain, tags: set<string>)
    requires ChainOk(c)
    ensures ParseExpr(PrintChain(c), tags) == Ok((EvalChain(c, tags), ""))
  {
    var p := PrintChain(c);
    ChainRoundTrip(c, "", tags);
    EmptyRest(p, tags);
  }

  lemma EmptyRest(p: string, tags: set<string>)
    ensures ParseExpr(p + "", tags) == ParseExpr(p, tags)
  {
    assert p + "" == p;
  }

  lemma PrintChainStart(c: Chain)
    requires ChainOk(c)
    ensures |PrintChain(c)| > 0
  {
    PrintAtomStart(c.first.atom);
  }

  lemma MatchesOfParse(e: string, tags: set<string>, v: bool)
    requires e != "" && ParseExpr(e, tags) == Ok((v, ""))
    ensures Matches(e, tags) == Ok(v)
  { }

  lemma MatchesOfParseErr(e: string, tags: set<string>)
    requires e != "" && ParseExpr(e, tags).Err?
    ensures Matches(e, tags).Err?
  { }

  lemma AtomUnclosed(e: string, tags: set<string>, v: bool)
    requires |e| > 0 && e[0] == '[' && ParseExpr(e[1..], tags) == Ok((v, ""))
    ensures ParseAtom(e, tags).Err?
  { }

  lemma UnaryOfAtom(e: string, tags: set<string>)
    requires |e| > 0 && e[0] != '-'
    ensures ParseUnary(e, tags) == ParseAtom(e, tags)
  { }

  lemma ExprOfUnaryErr(e: string, tags: set<string>)
    requires ParseUnary(e, tags).Err?
    ensures ParseExpr(e, tags).Err?
  { }

  /** Text left after a complete expression is a parse error. */
  lemma MatchesLeftover(c: Chain, tags: set<string>)
    requires ChainOk(c)
    ensures Matches(PrintChain(c) + "]", tags) == Err("Could not parse: ], don't know what to do with: ]")
  {
    var e := PrintChain(c) + "]";
    ChainRoundTrip(c, "]", tags);
    assert e[|e| - 1] == ']';
    LeftoverMessage(e, tags, EvalChain(c, tags), "]");
    BracketMessage();
  }

  lemma BracketMessage()
    ensures "Could not parse: " + "]" + ", don't know what to do with: " + "]" ==
      "Could not parse: ], don't know what to do with: ]"
  {
  }

  lemma LeftoverMessage(e: string, tags: set<string>, v: bool, rest: string)
    requires e != "" && rest != "" && ParseExpr(e, tags) == Ok((v, rest))
    ensures Matches(e, tags) == Err("Could not parse: " + rest + ", don't know what to do with: " + rest)
  {
  }

  // select_and_sort: keep the matching items, then sort them stably by the
  // vector of 0 (matches) / 1 (does not) over the comma-separated sort parts.

  /** Python's list comparison: lexicographic, a proper prefix first. */
  predicate KeyLess(a: seq<int>, b: seq<int>)
  {
    if |a| == 0 then |b| > 0
    else if |b| == 0 then false
    else a[0] < b[0] || (a[0] == b[0] && KeyLess(a[1..], b[1..]))
  }

  lemma {:induction false} KeyTrichotomy(a: seq<int>, b: seq<int>)
    ensures KeyLess(a, b) || a == b || KeyLess(b, a)
  {
    if |a| > 0 && |b| > 0 && a[0] == b[0] {
      KeyTrichotomy(a[1..], b[1..]);
      if a[1..] == b[1..] {
        assert a == [a[0]] + a[1..] && b == [b[0]] + b[1..];
      }
    }
  }

  /** The sort key of the tags: 0 for each part they match, 1 otherwise. */
  function SortKey(parts: seq<string>, tags: set<string>): (r: Result<seq<int>>)
    ensures r.Ok? ==> |r.value| == |parts|
    ensures r.Ok? ==> forall k :: 0 <= k < |parts| ==>
        Matches(parts[k], tags).Ok? && r.value[k] == if Matches(parts[k], tags).value then 0 else 1
  {
    if |parts| == 0 then Ok([])
    else
      match Matches(parts[0], tags)
      case Err(m) => Err(m)
      case Ok(b) =>
        match SortKey(parts[1..], tags)
        case Err(m) => Err(m)
        case Ok(rest) => Ok([if b then 0 else 1] + rest)
  }

  /** An item with its sort key and its position among the selected items. */
  datatype Entry<T> = Entry(item: T, key: seq<int>, pos: nat)

  predicate Before<T>(a: Entry<T>, b: Entry<T>)
  {
    KeyLess(a.key, b.key) || (a.key == b.key && a.pos < b.pos)
  }

  /** Ordered by key, ties by original position: a stable sort's order. */
  predicate Ordered<T>(s: seq<Entry<T>>)
  {
    forall i :: 0 <= i < |s| - 1 ==> Before(s[i], s[i + 1])
  }

  /** Place x after every entry whose key is not greater. */
  function InsertStable<T>(x: Entry<T>, s: seq<Entry<T>>): (r: seq<Entry<T>>)
    ensures |r| == |s| + 1
  {
    if |s| == 0 then [x]
    else if KeyLess(x.key, s[0].key) then [x] + s
    else [s[0]] + InsertStable(x, s[1..])
  }

  function SortStable<T>(s: seq<Entry<T>>): (r: seq<Entry<T>>)
    ensures |r| == |s|
  {
    if |s| == 0 then [] else InsertStable(s[|s| - 1], SortStable(s[..|s| - 1]))
  }

  lemma {:induction false} InsertStableOrdered<T>(x: Entry<T>, s: seq<Entry<T>>)
    requires Ordered(s)
    requires forall k :: 0 <= k < |s| ==> s[k].pos < x.pos
    ensures Ordered(InsertStable(x, s))
    ensures multiset(InsertStable(x, s)) == multiset(s) + multiset{x}
    ensures |s| > 0 ==> InsertStable(x, s)[0] == x || InsertStable(x, s)[0] == s[0]
  {
    if |s| > 0 && !KeyLess(x.key, s[0].key) {
      var tail := InsertStable(x, s[1..]);
      InsertStableOrdered(x, s[1..]);
      KeyTrichotomy(x.key, s[0].key);
      assert Before(s[0], tail[0]) by {
        if tail[0] != x {
          assert Before(s[0], s[1]);
        }
      }
      assert s == [s[0]] + s[1..];
    }
  }

  lemma {:induction false} SortStableOrdered<T>(s: seq<Entry<T>>)
    requires forall k :: 0 <= k < |s| ==> s[k].pos == k
    ensures Ordered(SortStable(s))
    ensures multiset(SortStable(s)) == multiset(s)
  {
    if |s| > 0 {
      var init, last := s[..|s| - 1], s[|s| - 1];
      SortStableOrdered(init);
      var sorted := SortStable(init);
      PositionsBelow(init, sorted, last.pos);
      InsertStableOrdered(last, sorted);
      SortStableStep(s, init, last, sorted);
    }
  }

  /** The stable sort inserts the last entry into the sorted rest. */
  lemma SortStableStep<T>(s: seq<Entry<T>>, init: seq<Entry<T>>, last: Entry<T>, sorted: seq<Entry<T>>)
    requires |s| > 0 && init == s[..|s| - 1] && last == s[|s| - 1] && sorted == SortStable(init)
    ensures SortStable(s) == InsertStable(last, sorted)
    ensures multiset(s) == multiset(init) + multiset{last}
  {
    MultisetInitLast(s);
  }

  lemma MultisetInitLast<T>(s: seq<T>)
    requires |s| > 0
    ensures multiset(s) == multiset(s[..|s| - 1]) + multiset{s[|s| - 1]}
  {
    assert s == s[..|s| - 1] + [s[|s| - 1]];
  }

  /** A rearrangement of entries all before position p has all its entries before p. */
  lemma PositionsBelow<T>(s: seq<Entry<T>>, t: seq<Entry<T>>, p: nat)
    requires forall k :: 0 <= k < |s| ==> s[k].pos < p
    requires multiset(t) == multiset(s)
    ensures forall k :: 0 <= k < |t| ==> t[k].pos < p
  {
    forall k | 0 <= k < |t|
      ensures t[k].pos < p
    {
      assert t[k] in multiset(s);
    }
  }

  /** The items whose tags match the selection, in their original order. */
  function Select<T>(selectExpression: string, items: seq<T>, getTags: T -> set<string>): (r: Result<seq<T>>)
    ensures r.Ok? ==> forall k :: 0 <= k < |items| ==> Matches(selectExpression, getTags(items[k])).Ok?
    ensures r.Ok? ==> forall k :: 0 <= k < |r.value| ==> Matches(selectExpression, getTags(r.value[k])) == Ok(true)
    ensures r.Ok? ==> forall k :: 0 <= k < |items| && Matches(selectExpression, getTags(items[k])) == Ok(true) ==>
      items[k] in r.value
  {
    if |items| == 0 then Ok([])
    else
      match Matches(selectExpression, getTags(items[|items| - 1]))
      case Err(m) => Err(m)
      case Ok(keep) =>
        match Select(selectExpression, items[..|items| - 1], getTags)
        case Err(m) => Err(m)
        case Ok(init) =>
          assert items == items[..|items| - 1] + [items[|items| - 1]];
          Ok(init + if keep then [items[|items| - 1]] else [])
  }

  /** Selecting only drops items: the kept ones, with their repetitions,
      come from the input. */
  lemma {:induction false} SelectDropsOnly<T>(selectExpression: string, items: seq<T>, getTags: T -> set<string>)
    requires Select(selectExpression, items, getTags).Ok?
    ensures multiset(Select(selectExpression, items, getTags).value) <= multiset(items)
    decreases |items|
  {
    if |items| > 0 {
      var init, last := items[..|items| - 1], items[|items| - 1];
      var keep := SelectStep(selectExpression, items, getTags);
      SelectDropsOnly(selectExpression, init, getTags);
      var kept := Select(selectExpression, init, getTags).value;
      assert items == init + [last];
      assert multiset(items) == multiset(init) + multiset{last};
      if keep {
        assert multiset(kept + [last]) == multiset(kept) + multiset{last};
      } else {
        assert kept + [] == kept;
      }
    }
  }

  /** Selection distributes over concatenation: the result keeps the input's
      order and each occurrence on its own. */
  lemma {:induction false} SelectConcat<T>(selectExpression: string, a: seq<T>, b: seq<T>, getTags: T -> set<string>)
    requires Select(selectExpression, a + b, getTags).Ok?
    ensures Select(selectExpression, a, getTags).Ok? && Select(selectExpression, b, getTags).Ok?
    ensures Select(selectExpression, a + b, getTags).value ==
      Select(selectExpression, a, getTags).value + Select(selectExpression, b, getTags).value
    decreases |b|
  {
    if |b| == 0 {
      assert a + b == a;
    } else {
      var ab := a + b;
      var front, last := b[..|b| - 1], b[|b| - 1];
      var keep := SelectStep(selectExpression, ab, getTags);
      assert ab[..|ab| - 1] == a + front;
      assert ab[|ab| - 1] == last;
      SelectConcat(selectExpression, a, front, getTags);
      SelectSnoc(selectExpression, b, getTags, keep);
      var sa, sf := Select(selectExpression, a, getTags).value, Select(selectExpression, front, getTags).value;
      var tail: seq<T> := if keep then [last] else [];
      assert sa + sf + tail == sa + (sf + tail);
    }
  }

  /** Select folded once: a selectable prefix and a parsing last item select
      the whole list. */
  lemma SelectSnoc<T>(selectExpression: string, items: seq<T>, getTags: T -> set<string>, keep: bool)
    requires |items| > 0 && Matches(selectExpression, getTags(items[|items| - 1])) == Ok(keep)
    requires Select(selectExpression, items[..|items| - 1], getTags).Ok?
    ensures Select(selectExpression, items, getTags) ==
      Ok(Select(selectExpression, items[..|items| - 1], getTags).value + if keep then [items[|items| - 1]] else [])
  {
  }

  /** A single item is kept exactly when it matches, and its parse error is
      the selection's error. */
  lemma SelectOne<T>(selectExpression: string, x: T, getTags: T -> set<string>)
    ensures Select(selectExpression, [x], getTags) ==
      match Matches(selectExpression, getTags(x))
      case Err(m) => Err(m)
      case Ok(keep) => Ok(if keep then [x] else [])
  {
    assert [x][..0] == [];
    var none: seq<T> := [];
    assert none + [x] == [x];
    assert none + [] == [];
  }

  /** Select unfolded once: the selection of all but the last item, then the
      last item when it matches. */
  lemma SelectStep<T>(selectExpression: string, items: seq<T>, getTags: T -> set<string>) returns (keep: bool)
    requires |items| > 0 && Select(selectExpression, items, getTags).Ok?
    ensures Matches(selectExpression, getTags(items[|items| - 1])) == Ok(keep)
    ensures Select(selectExpression, items[..|items| - 1], getTags).Ok?
    ensures Select(selectExpression, items, getTags).value ==
      Select(selectExpression, items[..|items| - 1], getTags).value + if keep then [items[|items| - 1]] else []
  {
    keep := Matches(selectExpression, getTags(items[|items| - 1])).value;
  }

  /** Tag the selected items with their keys and positions. */
  function Entries<T>(items: seq<T>, parts: seq<string>, getTags: T -> set<string>, from: nat): (r: Result<seq<Entry<T>>>)
    ensures r.Ok? ==> |r.value| == |items|
    ensures r.Ok? ==> forall k :: 0 <= k < |items| ==>
        r.value[k].item == items[k] && r.value[k].pos == from + k && SortKey(parts, getTags(items[k])) == Ok(r.value[k].key)
  {
    if |items| == 0 then Ok([])
    else
      match SortKey(parts, getTags(items[0]))
      case Err(m) => Err(m)
      case Ok(key) =>
        match Entries(items[1..], parts, getTags, from + 1)
        case Err(m) => Err(m)
        case Ok(rest) => Ok([Entry(items[0], key, from)] + rest)
  }

  /** select_and_sort, returning the sorted entries; the items are their `item` fields. */
  function SelectAndSort<T>(selectExpression: string, sortExpression: string, items: seq<T>,
                            getTags: T -> set<string>): (r: Result<seq<Entry<T>>>)
  {
    var parts := if sortExpression == "" then [] else Split(sortExpression, ',');
    match Select(selectExpression, items, getTags)
    case Err(m) => Err(m)
    case Ok(selected) =>
      match Entries(selected, parts, getTags, 0)
      case Err(m) => Err(m)
      case Ok(entries) => Ok(SortStable(entries))
  }

  /** The items of a list of entries. */
  function Items<T>(s: seq<Entry<T>>): (r: seq<T>)
    ensures |r| == |s| && forall k :: 0 <= k < |s| ==> r[k] == s[k].item
  {
    seq(|s|, k requires 0 <= k < |s| => s[k].item)
  }

  /** Inserting an entry adds its item and nothing else. */
  lemma {:induction false} ItemsInsert<T>(x: Entry<T>, s: seq<Entry<T>>)
    ensures multiset(Items(InsertStable(x, s))) == multiset(Items(s)) + multiset{x.item}
  {
    if |s| == 0 {
      assert Items([x]) == [x.item];
    } else if KeyLess(x.key, s[0].key) {
      ItemsCons(x, s);
    } else {
      ItemsInsert(x, s[1..]);
      ItemsInsertBehind(x, s, InsertStable(x, s[1..]), InsertStable(x, s));
    }
  }

  /** The step of ItemsInsert where the entry goes behind the head: r is
      the head followed by rest, and rest has the tail's items plus x's. */
  lemma ItemsInsertBehind<T>(x: Entry<T>, s: seq<Entry<T>>, rest: seq<Entry<T>>, r: seq<Entry<T>>)
    requires |s| > 0 && r == [s[0]] + rest
    requires multiset(Items(rest)) == multiset(Items(s[1..])) + multiset{x.item}
    ensures multiset(Items(r)) == multiset(Items(s)) + multiset{x.item}
  {
    ItemsCons(s[0], rest);
    assert [s[0]] + s[1..] == s;
    ItemsCons(s[0], s[1..]);
  }

  lemma ItemsCons<T>(e: Entry<T>, s: seq<Entry<T>>)
    ensures multiset(Items([e] + s)) == multiset{e.item} + multiset(Items(s))
  {
    assert Items([e] + s) == [e.item] + Items(s);
  }

  /** The stable sort rearranges the items and keeps every occurrence. */
  lemma {:induction false} ItemsSort<T>(s: seq<Entry<T>>)
    ensures multiset(Items(SortStable(s))) == multiset(Items(s))
  {
    if |s| > 0 {
      var init, last := s[..|s| - 1], s[|s| - 1];
      var sorted := SortStable(init);
      ItemsSort(init);
      ItemsInsert(last, sorted);
      SortStableStep(s, init, last, sorted);
      ItemsSnoc(s, init, last);
    }
  }

  lemma ItemsSnoc<T>(s: seq<Entry<T>>, init: seq<Entry<T>>, last: Entry<T>)
    requires |s| > 0 && init == s[..|s| - 1] && last == s[|s| - 1]
    ensures multiset(Items(s)) == multiset(Items(init)) + multiset{last.item}
  {
    var a, b := Items(s), Items(init) + [last.item];
    forall k | 0 <= k < |a|
      ensures a[k] == b[k]
    {
      if k < |init| {
        assert s[k] == init[k];
      }
    }
    assert a == b;
  }

  /** The result holds exactly the matching items, each once per occurrence
      in the selection, ordered by key and, for equal keys, by original order. */
  lemma SelectAndSortSpec<T>(selectExpression: string, sortExpression: string, items: seq<T>,
                             getTags: T -> set<string>)
    requires SelectAndSort(selectExpression, sortExpression, items, getTags).Ok?
    ensures var r := SelectAndSort(selectExpression, sortExpression, items, getTags).value;
      Ordered(r) &&
      (forall k :: 0 <= k < |r| ==> Matches(selectExpression, getTags(r[k].item)) == Ok(true)) &&
      |r| == |Select(selectExpression, items, getTags).value| &&
      multiset(Items(r)) == multiset(Select(selectExpression, items, getTags).value)
    ensures var r := SelectAndSort(selectExpression, sortExpression, items, getTags).value;
      var parts := if sortExpression == "" then [] else Split(sortExpression, ',');
      var selected := Select(selectExpression, items, getTags).value;
      forall k :: 0 <= k < |r| ==>
        SortKey(parts, getTags(r[k].item)) == Ok(r[k].key) && r[k].pos < |selected| && selected[r[k].pos] == r[k].item
  {
    var parts := if sortExpression == "" then [] else Split(sortExpression, ',');
    var selected := Select(selectExpression, items, getTags).value;
    var entries := Entries(selected, parts, getTags, 0).value;
    SortStableOrdered(entries);
    SortedEntriesMatch(entries, SortStable(entries), selectExpression, getTags);
    SortedEntriesKeyed(selected, parts, getTags, entries, SortStable(entries));
    ItemsSort(entries);
    assert Items(entries) == selected;
  }

  /** Every sorted entry is one of the entries built from the selected
      items: its key is that item's sort key and pos its index. */
  lemma SortedEntriesKeyed<T>(selected: seq<T>, parts: seq<string>, getTags: T -> set<string>,
                              entries: seq<Entry<T>>, r: seq<Entry<T>>)
    requires Entries(selected, parts, getTags, 0) == Ok(entries)
    requires multiset(r) == multiset(entries)
    ensures forall k :: 0 <= k < |r| ==>
      SortKey(parts, getTags(r[k].item)) == Ok(r[k].key) && r[k].pos < |selected| && selected[r[k].pos] == r[k].item
  {
    forall k | 0 <= k < |r|
      ensures SortKey(parts, getTags(r[k].item)) == Ok(r[k].key) && r[k].pos < |selected| && selected[r[k].pos] == r[k].item
    {
      assert r[k] in multiset(entries);
      var j :| 0 <= j < |entries| && entries[j] == r[k];
    }
  }

  lemma SortedEntriesMatch<T>(entries: seq<Entry<T>>, r: seq<Entry<T>>, selectExpression: string, getTags: T -> set<string>)
    requires multiset(r) == multiset(entries)
    requires forall j :: 0 <= j < |entries| ==> Matches(selectExpression, getTags(entries[j].item)) == Ok(true)
    ensures forall k :: 0 <= k < |r| ==> Matches(selectExpression, getTags(r[k].item)) == Ok(true)
  {
    forall k | 0 <= k < |r|
      ensures Matches(selectExpression, getTags(r[k].item)) == Ok(true)
    {
      assert r[k] in multiset(entries);
      var j :| 0 <= j < |entries| && entries[j] == r[k];
    }
  }

  // weight: the sum, over the comma-separated parts that match, of each
  // part's "{w}" prefix, or 1.0 without one.

  /** The position of the last '}' in s, if any. */
  function LastClose(s: string): (r: Option<nat>)
    ensures r.Some? ==> r.value < |s| && s[r.value] == '}' && '}' !in s[r.value + 1..]
    ensures r.None? ==> '}' !in s
  {
    if |s| == 0 then None
    else if s[|s| - 1] == '}' then Some(|s| - 1)
    else
      match LastClose(s[..|s| - 1])
      case None => None
      case Some(i) => assert s[i + 1..] == s[..|s| - 1][i + 1..] + [s[|s| - 1]]; Some(i)
  }

  /** The match of ^{(.*)}(.*)$ on a part: the text between the leading '{'
      and the last '}', and the text after it. */
  function BracePrefix(part: string): (r: Option<(string, string)>)
    ensures r.Some? ==> part == "{" + r.value.0 + "}" + r.value.1 && '}' !in r.value.1
    ensures r.None? ==> |part| == 0 || part[0] != '{' || '}' !in part[1..]
  {
    if |part| == 0 || part[0] != '{' then None
    else
      match LastClose(part[1..])
      case None => None
      case Some(i) =>
        assert part == [part[0]] + part[1..][..i] + [part[1..][i]] + part[1..][i + 1..];
        Some((part[1..][..i], part[1..][i + 1..]))
  }

  /** The weight of one part and the expression it guards; a bad number is an error. */
  function PartWeight(part: string, tags: set<string>, parseFloat: string -> Option<real>): Result<real>
  {
    var (w, expr) := match BracePrefix(part)
      case None => (Some(1.0), part)
      case Some((number, rest)) => (parseFloat(number), rest);
    if w.None? then Err("could not convert string to float")
    else
      match Matches(expr, tags)
      case Err(m) => Err(m)
      case Ok(b) => Ok(if b then w.value else 0.0)
  }

  /** The total over the first m parts, stopping at the first error. */
  function WeightOf(parts: seq<string>, m: nat, tags: set<string>, parseFloat: string -> Option<real>): Result<real>
    requires m <= |parts|
  {
    if m == 0 then Ok(0.0)
    else
      match WeightOf(parts, m - 1, tags, parseFloat)
      case Err(e) => Err(e)
      case Ok(total) =>
        match PartWeight(parts[m - 1], tags, parseFloat)
        case Err(e) => Err(e)
        case Ok(w) => Ok(total + w)
  }

  /** weight(expression, tags): the summing loop over the parts. */
  method Weight(expression: string, tags: set<string>, parseFloat: string -> Option<real>) returns (r: Result<real>)
    ensures var parts := Split(expression, ','); r == WeightOf(parts, |parts|, tags, parseFloat)
  {
    var parts := Split(expression, ',');
    var total := 0.0;
    for k := 0 to |parts|
      invariant WeightOf(parts, k, tags, parseFloat) == Ok(total)
    {
      var w := PartWeight(parts[k], tags, parseFloat);
      WeightStep(parts, k, total, w, tags, parseFloat);
      if w.Err? {
        ErrorStays(parts, k + 1, |parts|, tags, parseFloat);
        return Err(w.message);
      }
      total := total + w.value;
    }
    r := Ok(total);
  }

  lemma WeightStep(parts: seq<string>, k: nat, total: real, w: Result<real>, tags: set<string>, parseFloat: string -> Option<real>)
    requires k < |parts| && WeightOf(parts, k, tags, parseFloat) == Ok(total)
    requires w == PartWeight(parts[k], tags, parseFloat)
    ensures w.Err? ==> WeightOf(parts, k + 1, tags, parseFloat) == Err(w.message)
    ensures w.Ok? ==> WeightOf(parts, k + 1, tags, parseFloat) == Ok(total + w.value)
  {
  }

  lemma {:induction false} ErrorStays(parts: seq<string>, m: nat, n: nat, tags: set<string>, parseFloat: string -> Option<real>)
    requires m <= n <= |parts| && WeightOf(parts, m, tags, parseFloat).Err?
    ensures WeightOf(parts, n, tags, parseFloat) == WeightOf(parts, m, tags, parseFloat)
    decreases n - m
  {
    if m < n {
      ErrorStays(parts, m + 1, n, tags, parseFloat);
    }
  }

  /** Number of parts among the first m that match. */
  function CountMatching(parts: seq<string>, m: nat, tags: set<string>): nat
    requires m <= |parts|
    requires forall k :: 0 <= k < |parts| ==> Matches(parts[k], tags).Ok?
  {
    if m == 0 then 0
    else CountMatching(parts, m - 1, tags) + if Matches(parts[m - 1], tags).value then 1 else 0
  }

  /** Without "{w}" prefixes every matching part weighs 1.0: the weight counts the matches. */
  lemma {:induction false} WeightCountsMatches(parts: seq<string>, m: nat, tags: set<string>, parseFloat: string -> Option<real>)
    requires m <= |parts|
    requires forall k :: 0 <= k < |parts| ==> BracePrefix(parts[k]).None? && Matches(parts[k], tags).Ok?
    ensures WeightOf(parts, m, tags, parseFloat) == Ok(CountMatching(parts, m, tags) as real)
  {
    if m > 0 {
      WeightCountsMatches(parts, m - 1, tags, parseFloat);
      PartWeightPlain(parts[m - 1], tags, parseFloat);
    }
  }

  /** A part without a "{w}" prefix weighs 1.0 when it matches, 0.0 when it
      does not, and is an error exactly when it does not parse. */
  lemma PartWeightPlain(part: string, tags: set<string>, parseFloat: string -> Option<real>)
    requires BracePrefix(part).None?
    ensures PartWeight(part, tags, parseFloat).Ok? <==> Matches(part, tags).Ok?
    ensures PartWeight(part, tags, parseFloat).Ok? ==>
      PartWeight(part, tags, parseFloat).value == if Matches(part, tags).value then 1.0 else 0.0
  {
  }
}
