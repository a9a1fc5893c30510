// The bookkeeping of the job coordinator: chunking and interleaving of work
// lists, the core counter with its queue of waiting jobs, numbered mail, and
// reference-counted futures. Blocking on events is abstract: a waiter is
// identified by a ticket, and granting it records the ticket as signalled.

module Legion {
  import opened Common

  // chunk and interleave

  /** The lists joined end to end. */
  function Concat<T>(ss: seq<seq<T>>): (r: seq<T>)
  {
    if |ss| == 0 then [] else Concat(ss[..|ss| - 1]) + ss[|ss| - 1]
  }

  lemma ConcatSnoc<T>(ss: seq<seq<T>>, s: seq<T>)
    ensures Concat(ss + [s]) == Concat(ss) + s
  {
    assert (ss + [s])[..|ss|] == ss;
  }

  /** The chunk size in effect: a size below 1 flushes after every item. */
  function Width(size: int): (w: nat)
    ensures w >= 1 && (size >= 1 ==> w == size)
  {
    if size < 1 then 1 else size
  }

  /** chunk: the items in order, cut into non-empty lists of chunk_size
      items, the last one possibly shorter. */
  method Chunk<T>(xs: seq<T>, size: int) returns (chunks: seq<seq<T>>)
    ensures Concat(chunks) == xs
    ensures forall k :: 0 <= k < |chunks| ==> 0 < |chunks[k]| <= Width(size)
    ensures forall k :: 0 <= k < |chunks| - 1 ==> |chunks[k]| == Width(size)
  {
    var w := Width(size);
    chunks := [];
    var items: seq<T> := [];
    for i := 0 to |xs|
      invariant Chunked(xs[..i], chunks, items, w)
    {
      ChunkedNext(xs, i, chunks, items, w);
      items := items + [xs[i]];
      if |items| >= size {
        ConcatSnoc(chunks, items);
        chunks := chunks + [items];
        items := [];
      }
    }
    assert xs[..|xs|] == xs;
    ChunkedDone(xs, chunks, items, w);
    if |items| > 0 {
      chunks := chunks + [items];
    }
  }

  /** The state of chunk's loop over prefix: full chunks, then the pending items. */
  ghost predicate Chunked<T>(prefix: seq<T>, chunks: seq<seq<T>>, items: seq<T>, w: nat)
  {
    Concat(chunks) + items == prefix && |items| < w &&
    forall k :: 0 <= k < |chunks| ==> |chunks[k]| == w
  }

  lemma ChunkedNext<T>(xs: seq<T>, i: nat, chunks: seq<seq<T>>, items: seq<T>, w: nat)
    requires i < |xs| && Chunked(xs[..i], chunks, items, w)
    ensures Concat(chunks) + (items + [xs[i]]) == xs[..i + 1]
  {
    assert xs[..i + 1] == xs[..i] + [xs[i]];
  }

  /** Flushing the pending items ends chunk with every chunk full but the last. */
  lemma ChunkedDone<T>(xs: seq<T>, chunks: seq<seq<T>>, items: seq<T>, w: nat)
    requires Chunked(xs, chunks, items, w) && w >= 1
    ensures var r := if |items| > 0 then chunks + [items] else chunks;
      Concat(r) == xs &&
      (forall k :: 0 <= k < |r| ==> 0 < |r[k]| <= w) &&
      (forall k :: 0 <= k < |r| - 1 ==> |r[k]| == w)
  {
    if |items| > 0 {
      ConcatSnoc(chunks, items);
    } else {
      assert Concat(chunks) + items == Concat(chunks);
    }
  }

  /** The items of out whose tag is k, in order. */
  function Pick<T>(out: seq<T>, tags: seq<nat>, k: nat): seq<T>
    requires |out| == |tags|
  {
    if |out| == 0 then []
    else Pick(out[..|out| - 1], tags[..|tags| - 1], k) + (if tags[|tags| - 1] == k then [out[|out| - 1]] else [])
  }

  lemma PickSnoc<T>(out: seq<T>, tags: seq<nat>, x: T, t: nat, k: nat)
    requires |out| == |tags|
    ensures Pick(out + [x], tags + [t], k) == Pick(out, tags, k) + (if t == k then [x] else [])
  {
    assert (out + [x])[..|out|] == out;
    assert (tags + [t])[..|tags|] == tags;
  }

  /** Total number of items left in the lists. */
  function Total<T>(ss: seq<seq<T>>): nat
  {
    if |ss| == 0 then 0 else |ss[0]| + Total(ss[1..])
  }

  lemma {:induction false} TotalConcat<T>(a: seq<seq<T>>, b: seq<seq<T>>)
    ensures Total(a + b) == Total(a) + Total(b)
  {
    if |a| > 0 {
      assert (a + b)[1..] == a[1..] + b;
      TotalConcat(a[1..], b);
    } else {
      assert a + b == b;
    }
  }

  /** Total after replacing or removing entry i. */
  lemma TotalSplit<T>(ss: seq<seq<T>>, i: nat, s: seq<T>)
    requires i < |ss|
    ensures Total(ss[i := s]) == Total(ss) - |ss[i]| + |s|
    ensures Total(ss[..i] + ss[i + 1..]) == Total(ss) - |ss[i]|
  {
    assert ss == ss[..i] + [ss[i]] + ss[i + 1..];
    assert ss[i := s] == ss[..i] + [s] + ss[i + 1..];
    TotalConcat(ss[..i] + [ss[i]], ss[i + 1..]);
    TotalConcat(ss[..i], [ss[i]]);
    TotalConcat(ss[..i] + [s], ss[i + 1..]);
    TotalConcat(ss[..i], [s]);
    TotalConcat(ss[..i], ss[i + 1..]);
    assert Total([ss[i]]) == |ss[i]| && Total([s]) == |s| by {
      assert [ss[i]][1..] == [] && [s][1..] == [];
    }
  }

  /** The state of interleave: rest[j] is what is left of list live[j]
      after taken[live[j]] items; lists no longer live are used up; the
      items out so far from list k are its first taken[k]. */
  ghost predicate Dealt<T>(its: seq<seq<T>>, rest: seq<seq<T>>, live: seq<nat>, taken: seq<nat>, out: seq<T>, tags: seq<nat>)
  {
    && |rest| == |live| && |taken| == |its| && |out| == |tags|
    && (forall j :: 0 <= j < |live| ==> live[j] < |its|)
    && (forall a, b :: 0 <= a < b < |live| ==> live[a] < live[b])
    && (forall k :: 0 <= k < |its| ==> taken[k] <= |its[k]|)
    && (forall j :: 0 <= j < |rest| ==> rest[j] == its[live[j]][taken[live[j]]..])
    && (forall k :: 0 <= k < |its| && k !in live ==> taken[k] == |its[k]|)
    && (forall n :: 0 <= n < |tags| ==> tags[n] < |its|)
    && (forall k :: 0 <= k < |its| ==> Pick(out, tags, k) == its[k][..taken[k]])
  }

  /** Taking the next item of live list i. */
  lemma DealTake<T>(its: seq<seq<T>>, rest: seq<seq<T>>, live: seq<nat>, taken: seq<nat>, out: seq<T>, tags: seq<nat>, i: nat)
    requires Dealt(its, rest, live, taken, out, tags) && i < |rest| && |rest[i]| > 0
    ensures Dealt(its, rest[i := rest[i][1..]], live, taken[live[i] := taken[live[i]] + 1], out + [rest[i][0]], tags + [live[i]])
  {
    var l, x := live[i], rest[i][0];
    var taken' := taken[l := taken[l] + 1];
    var rest' := rest[i := rest[i][1..]];
    forall k | 0 <= k < |its|
      ensures Pick(out + [x], tags + [l], k) == its[k][..taken'[k]]
    {
      PickSnoc(out, tags, x, l, k);
      if k == l {
        assert its[k][..taken[k] + 1] == its[k][..taken[k]] + [x];
      }
    }
    forall j | 0 <= j < |rest'|
      ensures rest'[j] == its[live[j]][taken'[live[j]]..]
    {
      if j != i {
        assert live[j] != l;
      }
    }
  }

  /** Deleting position i keeps the other elements, in order. */
  lemma RemoveAt<X>(s: seq<X>, i: nat)
    requires i < |s|
    ensures |s[..i] + s[i + 1..]| == |s| - 1
    ensures forall j :: 0 <= j < i ==> (s[..i] + s[i + 1..])[j] == s[j]
    ensures forall j :: i < j < |s| ==> (s[..i] + s[i + 1..])[j - 1] == s[j]
    ensures forall j {:trigger s[j]} :: 0 <= j < |s| && j != i ==> s[j] in s[..i] + s[i + 1..]
  {
    var r := s[..i] + s[i + 1..];
    forall j | 0 <= j < |s| && j != i
      ensures s[j] in r
    {
      assert s[j] == r[if j < i then j else j - 1];
    }
  }

  /** A list dropped by interleave is used up. */
  lemma DropUsedUp<T>(its: seq<seq<T>>, rest: seq<seq<T>>, live: seq<nat>, taken: seq<nat>, out: seq<T>, tags: seq<nat>, i: nat)
    requires Dealt(its, rest, live, taken, out, tags) && i < |rest| && |rest[i]| == 0
    ensures forall k :: 0 <= k < |its| && k !in live[..i] + live[i + 1..] ==> taken[k] == |its[k]|
  {
    RemoveAt(live, i);
    forall k | 0 <= k < |its| && k !in live[..i] + live[i + 1..]
      ensures taken[k] == |its[k]|
    {
      if k in live {
        var j :| 0 <= j < |live| && live[j] == k;
        assert j == i;
      }
    }
  }

  /** Dropping live list i once it is used up. */
  lemma DealDrop<T>(its: seq<seq<T>>, rest: seq<seq<T>>, live: seq<nat>, taken: seq<nat>, out: seq<T>, tags: seq<nat>, i: nat)
    requires Dealt(its, rest, live, taken, out, tags) && i < |rest| && |rest[i]| == 0
    ensures Dealt(its, rest[..i] + rest[i + 1..], live[..i] + live[i + 1..], taken, out, tags)
  {
    RemoveAt(live, i);
    RemoveAt(rest, i);
    DropUsedUp(its, rest, live, taken, out, tags, i);
  }

  function Indices(n: nat): (r: seq<nat>)
    ensures |r| == n && forall k :: 0 <= k < n ==> r[k] == k
  {
    seq(n, k requires 0 <= k < n => k)
  }

  function Zeros(n: nat): (r: seq<nat>)
    ensures |r| == n && forall k :: 0 <= k < n ==> r[k] == 0
  {
    seq(n, k => 0)
  }

  /** Before the first turn every list is live and untouched. */
  lemma DealtStart<T>(its: seq<seq<T>>)
    ensures Dealt(its, its, Indices(|its|), Zeros(|its|), [], [])
  {
    assert forall k :: 0 <= k < |its| ==> its[k][..0] == [] && its[k][0..] == its[k];
  }

  /** Once no list is live every list has been dealt in full. */
  lemma DealtDone<T>(its: seq<seq<T>>, live: seq<nat>, taken: seq<nat>, out: seq<T>, tags: seq<nat>)
    requires Dealt(its, [], live, taken, out, tags)
    ensures |tags| == |out|
    ensures forall n :: 0 <= n < |tags| ==> tags[n] < |its|
    ensures forall k :: 0 <= k < |its| ==> Pick(out, tags, k) == its[k]
  {
    assert forall k :: 0 <= k < |its| ==> k !in live && its[k][..|its[k]|] == its[k];
  }

  /** The heads of the non-empty lists, in order: one round of interleave. */
  function Heads<T>(ss: seq<seq<T>>): seq<T>
  {
    if |ss| == 0 then [] else (if |ss[0]| > 0 then [ss[0][0]] else []) + Heads(ss[1..])
  }

  /** The tails of the non-empty lists, in order: what a round leaves live. */
  function Tails<T>(ss: seq<seq<T>>): seq<seq<T>>
  {
    if |ss| == 0 then [] else (if |ss[0]| > 0 then [ss[0][1..]] else []) + Tails(ss[1..])
  }

  lemma {:induction false} HeadsTails<T>(ss: seq<seq<T>>)
    ensures Total(Tails(ss)) + |Heads(ss)| == Total(ss)
    ensures |Heads(ss)| == 0 ==> Total(ss) == 0
  {
    if |ss| > 0 {
      HeadsTails(ss[1..]);
      if |ss[0]| > 0 {
        TotalConcat([ss[0][1..]], Tails(ss[1..]));
        assert Total([ss[0][1..]]) == |ss[0]| - 1 by { assert [ss[0][1..]][1..] == []; }
      } else {
        assert Tails(ss) == Tails(ss[1..]);
      }
    }
  }

  /** Round-robin order, round by round: the heads of the lists still
      holding items, then the round-robin of their tails. */
  function RoundRobin<T>(ss: seq<seq<T>>): (r: seq<T>)
    ensures |r| == Total(ss)
    decreases Total(ss)
  {
    HeadsTails(ss);
    if Total(ss) == 0 then [] else Heads(ss) + RoundRobin(Tails(ss))
  }

  lemma RoundRobinUnfold<T>(ss: seq<seq<T>>)
    ensures RoundRobin(ss) == Heads(ss) + RoundRobin(Tails(ss))
  {
    HeadsTails(ss);
  }

  /** While every list still holds items, a round takes one head from
      each list, in list order. */
  lemma {:induction false} HeadsAllLive<T>(ss: seq<seq<T>>)
    requires forall k :: 0 <= k < |ss| ==> |ss[k]| > 0
    ensures Heads(ss) == seq(|ss|, k requires 0 <= k < |ss| && |ss[k]| > 0 => ss[k][0])
  {
    if |ss| > 0 {
      HeadsAllLive(ss[1..]);
    }
  }

  /** The first |ss| items of the round-robin are the lists' heads in order
      when no list is empty. */
  lemma RoundRobinFirstRound<T>(ss: seq<seq<T>>)
    requires forall k :: 0 <= k < |ss| ==> |ss[k]| > 0
    ensures |ss| <= |RoundRobin(ss)|
    ensures forall k :: 0 <= k < |ss| ==> RoundRobin(ss)[k] == ss[k][0]
  {
    RoundRobinUnfold(ss);
    HeadsAllLive(ss);
  }

  /** Round-robin is not concatenation: [[1, 2], [3]] deals 1, 3, 2. */
  lemma RoundRobinExample()
    ensures RoundRobin([[1, 2], [3]]) == [1, 3, 2]
  {
    var ss: seq<seq<int>> := [[1, 2], [3]];
    assert Heads(ss) == [1, 3] && Tails(ss) == [[2], []] by {
      assert ss[1..] == [[3]] && ss[1..][1..] == [];
    }
    var ts: seq<seq<int>> := [[2], []];
    var e: seq<seq<int>> := [[]];
    assert Heads(ts) == [2] && Tails(ts) == [[]] by {
      assert ts[1..] == e && ts[1..][1..] == [];
    }
    RoundRobinUnfold(ss);
    RoundRobinUnfold(ts);
    assert RoundRobin(e) == [] by { assert Total(e) == 0 by { assert e[1..] == []; } }
  }

  /** What interleave still yields with the cursor at i: the rest of the
      current round, then the round-robin of the lists as that round
      leaves them. */
  ghost function Remaining<T>(rest: seq<seq<T>>, i: nat): seq<T>
    requires i <= |rest|
  {
    Heads(rest[i..]) + RoundRobin(rest[..i] + Tails(rest[i..]))
  }

  /** A cursor past the last list starts the next round. */
  lemma RemainingWrap<T>(rest: seq<seq<T>>)
    ensures Remaining(rest, |rest|) == RoundRobin(rest) == Remaining(rest, 0)
  {
    assert rest[|rest|..] == [] && rest[..|rest|] + [] == rest;
    assert rest[0..] == rest && rest[..0] + Tails(rest) == Tails(rest);
    RoundRobinUnfold(rest);
  }

  lemma RemainingTake<T>(rest: seq<seq<T>>, j: nat)
    requires j < |rest| && |rest[j]| > 0
    ensures Remaining(rest, j) == [rest[j][0]] + Remaining(rest[j := rest[j][1..]], j + 1)
  {
    var r' := rest[j := rest[j][1..]];
    assert rest[j..][0] == rest[j] && rest[j..][1..] == rest[j + 1..] == r'[j + 1..];
    assert r'[..j + 1] == rest[..j] + [rest[j][1..]];
    assert rest[..j] + Tails(rest[j..]) == r'[..j + 1] + Tails(r'[j + 1..]);
  }

  lemma RemainingDrop<T>(rest: seq<seq<T>>, j: nat)
    requires j < |rest| && |rest[j]| == 0
    ensures Remaining(rest, j) == Remaining(rest[..j] + rest[j + 1..], j)
  {
    var r' := rest[..j] + rest[j + 1..];
    assert rest[j..][0] == rest[j] && rest[j..][1..] == rest[j + 1..] == r'[j..];
    assert r'[..j] == rest[..j];
    assert Heads(rest[j..]) == Heads(r'[j..]) && Tails(rest[j..]) == Tails(r'[j..]);
  }

  /** The cursor wraps to the first list once it runs past the last. */
  lemma CursorWrap(i: nat, n: nat)
    requires 0 < n && i <= n
    ensures i % n == if i == n then 0 else i
  {
  }

  /** One turn at cursor i, at list j, yields the next head or drops a
      used-up list. */
  lemma RemainingTurn<T>(rest: seq<seq<T>>, i: nat, j: nat)
    requires i <= |rest| && j < |rest| && j == (if i == |rest| then 0 else i)
    ensures |rest[j]| > 0 ==> Remaining(rest, i) == [rest[j][0]] + Remaining(rest[j := rest[j][1..]], j + 1)
    ensures |rest[j]| == 0 ==> Remaining(rest, i) == Remaining(rest[..j] + rest[j + 1..], j)
  {
    if i == |rest| {
      RemainingWrap(rest);
    }
    if |rest[j]| > 0 {
      RemainingTake(rest, j);
    } else {
      RemainingDrop(rest, j);
    }
  }

  /** One turn of interleave at position i of the live lists: take the
      next item of list i and move on, or drop list i if it is used up. */
  method DealStep<T>(ghost its: seq<seq<T>>, rest: seq<seq<T>>, ghost live: seq<nat>, ghost taken: seq<nat>,
                     out: seq<T>, ghost tags: seq<nat>, i: nat)
    returns (rest': seq<seq<T>>, ghost live': seq<nat>, ghost taken': seq<nat>, out': seq<T>, ghost tags': seq<nat>, i': nat)
    requires Dealt(its, rest, live, taken, out, tags) && 0 < |rest| && i <= |rest|
    ensures Dealt(its, rest', live', taken', out', tags')
    ensures Total(rest') + |rest'| < Total(rest) + |rest|
    ensures i' <= |rest'| && out' + Remaining(rest', i') == out + Remaining(rest, i)
  {
    var j := i % |rest|;
    CursorWrap(i, |rest|);
    RemainingTurn(rest, i, j);
    if |rest[j]| > 0 {
      DealTake(its, rest, live, taken, out, tags, j);
      TotalSplit(rest, j, rest[j][1..]);
      out', tags' := out + [rest[j][0]], tags + [live[j]];
      taken' := taken[live[j] := taken[live[j]] + 1];
      rest', live' := rest[j := rest[j][1..]], live;
      i' := j + 1;
    } else {
      DealDrop(its, rest, live, taken, out, tags, j);
      TotalSplit(rest, j, []);
      rest', live' := rest[..j] + rest[j + 1..], live[..j] + live[j + 1..];
      taken', out', tags', i' := taken, out, tags, j;
    }
  }

  /** interleave: takes one item from each live list in turn, dropping a
      list when it runs out, so the output is the round-robin order. Each
      item is tagged with the list it came from; the items from list k are
      exactly list k, in its order. */
  method Interleave<T>(its: seq<seq<T>>) returns (out: seq<T>, ghost tags: seq<nat>)
    ensures out == RoundRobin(its)
    ensures |tags| == |out|
    ensures forall n :: 0 <= n < |tags| ==> tags[n] < |its|
    ensures forall k :: 0 <= k < |its| ==> Pick(out, tags, k) == its[k]
  {
    var rest := its;
    ghost var live, taken := Indices(|its|), Zeros(|its|);
    var i: nat := 0;
    out, tags := [], [];
    DealtStart(its);
    RemainingWrap(its);
    while |rest| > 0
      invariant Dealt(its, rest, live, taken, out, tags)
      invariant i <= |rest| && out + Remaining(rest, i) == RoundRobin(its)
      decreases Total(rest) + |rest|
    {
      rest, live, taken, out, tags, i := DealStep(its, rest, live, taken, out, tags, i);
    }
    DealtDone(its, live, taken, out, tags);
    assert Remaining(rest, i) == [] by { RemainingWrap(rest); }
  }

  // My_coordinator

  /** A queued request for cores; the ticket stands for its event. */
  datatype Waiter = Waiter(request: int, ticket: nat)

  /** Requests never increase along the list. */
  predicate NonIncreasing(ws: seq<Waiter>)
  {
    forall i, j :: 0 <= i < j < |ws| ==> ws[i].request >= ws[j].request
  }

  /** Equal requests are in ticket (arrival) order. */
  predicate TicketTies(ws: seq<Waiter>)
  {
    forall i, j :: 0 <= i < j < |ws| && ws[i].request == ws[j].request ==> ws[i].ticket < ws[j].ticket
  }

  /** The order _update scans in: biggest request first, then earliest. */
  predicate Ordered(ws: seq<Waiter>)
  {
    NonIncreasing(ws) && TicketTies(ws)
  }

  lemma PrefixOrdered(s: seq<Waiter>, m: nat)
    requires m <= |s|
    ensures NonIncreasing(s) ==> NonIncreasing(s[..m])
    ensures TicketTies(s) ==> TicketTies(s[..m])
  {
    assert forall i :: 0 <= i < m ==> s[..m][i] == s[i];
  }

  /** In a non-increasing list every entry is at least the last one. */
  lemma LastIsLeast(s: seq<Waiter>)
    requires NonIncreasing(s) && |s| > 0
    ensures forall y :: y in s ==> y.request >= s[|s| - 1].request
  {
    forall y | y in s
      ensures y.request >= s[|s| - 1].request
    {
      var k :| 0 <= k < |s| && s[k] == y;
    }
  }

  lemma AppendBelow(s: seq<Waiter>, x: Waiter)
    requires NonIncreasing(s) && forall y :: y in s ==> y.request >= x.request
    ensures NonIncreasing(s + [x])
  {
    var r := s + [x];
    forall i, j | 0 <= i < j < |r|
      ensures r[i].request >= r[j].request
    {
      assert r[i] == s[i] && s[i] in s;
    }
  }

  lemma AppendTies(s: seq<Waiter>, x: Waiter)
    requires TicketTies(s) && forall y :: y in s && y.request == x.request ==> y.ticket < x.ticket
    ensures TicketTies(s + [x])
  {
    var r := s + [x];
    forall i, j | 0 <= i < j < |r| && r[i].request == r[j].request
      ensures r[i].ticket < r[j].ticket
    {
      assert r[i] == s[i] && s[i] in s;
    }
  }

  /** Places x after every entry whose request is at least x's: the step
      of a stable sort by descending request. */
  function InsertDesc(s: seq<Waiter>, x: Waiter): (r: seq<Waiter>)
    requires NonIncreasing(s)
    ensures NonIncreasing(r)
    ensures multiset(r) == multiset(s) + multiset{x}
  {
    if |s| == 0 then [x]
    else if s[|s| - 1].request >= x.request then
      LastIsLeast(s);
      AppendBelow(s, x);
      s + [x]
    else
      PrefixOrdered(s, |s| - 1);
      var front := InsertDesc(s[..|s| - 1], x);
      InsertBehind(s, x, front);
      front + [s[|s| - 1]]
  }

  /** The recursive case of InsertDesc: x went in front of the last entry,
      which stays last. */
  lemma InsertBehind(s: seq<Waiter>, x: Waiter, front: seq<Waiter>)
    requires NonIncreasing(s) && |s| > 0 && s[|s| - 1].request < x.request
    requires NonIncreasing(front) && multiset(front) == multiset(s[..|s| - 1]) + multiset{x}
    ensures NonIncreasing(front + [s[|s| - 1]])
    ensures multiset(front + [s[|s| - 1]]) == multiset(s) + multiset{x}
  {
    var last := s[|s| - 1];
    LastIsLeast(s);
    forall y | y in front
      ensures y.request >= last.request
    {
      assert y in multiset(front);
      if y != x {
        assert y in multiset(s[..|s| - 1]);
        assert y in s;
      }
    }
    AppendBelow(front, last);
    assert s == s[..|s| - 1] + [last];
  }

  /** waiters.sort(key = -request): Python's sort is stable. */
  function SortDesc(ws: seq<Waiter>): (r: seq<Waiter>)
    ensures NonIncreasing(r)
    ensures multiset(r) == multiset(ws)
  {
    if |ws| == 0 then []
    else
      assert ws == ws[..|ws| - 1] + [ws[|ws| - 1]];
      InsertDesc(SortDesc(ws[..|ws| - 1]), ws[|ws| - 1])
  }

  /** Inserting an entry that arrived after every equal request keeps ties
      in ticket order. */
  lemma {:induction false} InsertKeepsTies(s: seq<Waiter>, x: Waiter)
    requires NonIncreasing(s) && TicketTies(s)
    requires forall y :: y in s && y.request == x.request ==> y.ticket < x.ticket
    ensures TicketTies(InsertDesc(s, x))
  {
    if |s| > 0 && s[|s| - 1].request >= x.request {
      AppendTies(s, x);
    } else if |s| > 0 {
      var s' := s[..|s| - 1];
      var last := s[|s| - 1];
      PrefixOrdered(s, |s| - 1);
      assert forall y :: y in s' ==> y in s;
      InsertKeepsTies(s', x);
      var front := InsertDesc(s', x);
      FrontBeforeLast(s, x, front);
      AppendTies(front, last);
    }
  }

  /** Every entry of s minus its last, plus x, with the last entry's request
      arrived before it when x's request differs. */
  lemma FrontBeforeLast(s: seq<Waiter>, x: Waiter, front: seq<Waiter>)
    requires |s| > 0 && TicketTies(s) && x.request != s[|s| - 1].request
    requires multiset(front) == multiset(s[..|s| - 1]) + multiset{x}
    ensures forall y :: y in front && y.request == s[|s| - 1].request ==> y.ticket < s[|s| - 1].ticket
  {
    var s', last := s[..|s| - 1], s[|s| - 1];
    forall y | y in front && y.request == last.request
      ensures y.ticket < last.ticket
    {
      assert y in multiset(front);
      assert y in multiset(s');
      var k :| 0 <= k < |s'| && s'[k] == y;
      assert s[k] == y;
    }
  }

  /** Sorting keeps equal requests in the order they arrived. */
  lemma {:induction false} SortKeepsTies(ws: seq<Waiter>)
    requires TicketTies(ws)
    ensures Ordered(SortDesc(ws))
  {
    if |ws| > 0 {
      var front := ws[..|ws| - 1];
      var x := ws[|ws| - 1];
      assert forall i, j :: 0 <= i < j < |front| ==> front[i] == ws[i] && front[j] == ws[j];
      SortKeepsTies(front);
      var sorted := SortDesc(front);
      forall y | y in sorted && y.request == x.request
        ensures y.ticket < x.ticket
      {
        assert y in multiset(sorted);
        assert y in multiset(front);
        var k :| 0 <= k < |front| && front[k] == y;
        assert ws[k] == y;
      }
      InsertKeepsTies(sorted, x);
    }
  }

  /** The outcome of the grant scan. */
  datatype Grant = Grant(kept: seq<Waiter>, granted: seq<Waiter>, used: int)

  /** The grant loop of _update: in list order, a waiter is granted when
      its request fits in the cores left, and the count grows by it. */
  function Scan(ws: seq<Waiter>, used: int, cores: int): Grant
  {
    if |ws| == 0 then Grant([], [], used)
    else if ws[0].request + used <= cores then
      var g := Scan(ws[1..], used + ws[0].request, cores);
      Grant(g.kept, [ws[0]] + g.granted, g.used)
    else
      var g := Scan(ws[1..], used, cores);
      Grant([ws[0]] + g.kept, g.granted, g.used)
  }

  function Requested(ws: seq<Waiter>): int
  {
    if |ws| == 0 then 0 else ws[0].request + Requested(ws[1..])
  }

  /** Every waiter is either granted or kept. */
  lemma {:induction false} ScanPartition(ws: seq<Waiter>, used: int, cores: int)
    ensures var g := Scan(ws, used, cores);
      multiset(g.kept) + multiset(g.granted) == multiset(ws)
  {
    if |ws| > 0 {
      assert ws == [ws[0]] + ws[1..];
      var u := if ws[0].request + used <= cores then used + ws[0].request else used;
      ScanPartition(ws[1..], u, cores);
      var g := Scan(ws[1..], u, cores);
      if ws[0].request + used <= cores {
        assert Scan(ws, used, cores) == Grant(g.kept, [ws[0]] + g.granted, g.used);
      } else {
        assert Scan(ws, used, cores) == Grant([ws[0]] + g.kept, g.granted, g.used);
      }
    }
  }

  /** The count grows by exactly the granted requests, and stays within
      the cores whenever it started within them or anything was granted. */
  lemma {:induction false} ScanCount(ws: seq<Waiter>, used: int, cores: int)
    ensures var g := Scan(ws, used, cores);
      && g.used == used + Requested(g.granted)
      && (used <= cores || |g.granted| > 0 ==> g.used <= cores)
  {
    if |ws| > 0 {
      if ws[0].request + used <= cores {
        var u := used + ws[0].request;
        ScanCount(ws[1..], u, cores);
        var g := Scan(ws[1..], u, cores);
        assert ([ws[0]] + g.granted)[1..] == g.granted;
      } else {
        ScanCount(ws[1..], used, cores);
      }
    }
  }

  /** With no negative requests, no kept waiter fits once the scan is
      done: _update grants everything it can. */
  lemma {:induction false} ScanMaximal(ws: seq<Waiter>, used: int, cores: int)
    requires forall k :: 0 <= k < |ws| ==> ws[k].request >= 0
    ensures var g := Scan(ws, used, cores);
      g.used >= used && forall w :: w in g.kept ==> w.request + g.used > cores
  {
    if |ws| > 0 {
      if ws[0].request + used <= cores {
        ScanMaximal(ws[1..], used + ws[0].request, cores);
      } else {
        ScanMaximal(ws[1..], used, cores);
      }
    }
  }

  /** The kept waiters stay in scan order. */
  lemma {:induction false} ScanKeepsOrder(ws: seq<Waiter>, used: int, cores: int)
    requires Ordered(ws)
    ensures Ordered(Scan(ws, used, cores).kept)
  {
    if |ws| > 0 {
      var tail := ws[1..];
      assert forall i, j :: 0 <= i < j < |tail| ==> tail[i] == ws[i + 1] && tail[j] == ws[j + 1];
      var u := if ws[0].request + used <= cores then used + ws[0].request else used;
      ScanKeepsOrder(tail, u, cores);
      ScanPartition(tail, u, cores);
      var g := Scan(tail, u, cores);
      if ws[0].request + used > cores {
        var r := [ws[0]] + g.kept;
        forall i, j | 0 <= i < j < |r|
          ensures r[i].request >= r[j].request
          ensures r[i].request == r[j].request ==> r[i].ticket < r[j].ticket
        {
          if i > 0 {
            assert r[i] == g.kept[i - 1] && r[j] == g.kept[j - 1];
          } else {
            assert r[j] == g.kept[j - 1];
            assert r[j] in multiset(g.kept);
            assert r[j] in multiset(tail);
            var k :| 0 <= k < |tail| && tail[k] == r[j];
          }
        }
      }
    }
  }

  /** The tickets of a list of waiters. */
  function Tickets(ws: seq<Waiter>): (r: seq<nat>)
    ensures |r| == |ws| && forall k :: 0 <= k < |ws| ==> r[k] == ws[k].ticket
  {
    seq(|ws|, k requires 0 <= k < |ws| => ws[k].ticket)
  }

  /** A future's slot: its value once delivered (the event set), and its
      reference count. */
  /** Part way through the grant loop over ws: the first i waiters were
      kept, the granted ones removed, and the rest of the scan from here
      finishes the scan the loop started with. */
  ghost predicate ScanSoFar(target: Grant, ws: seq<Waiter>, i: int, used: int, granted: seq<Waiter>, cores: int)
  {
    0 <= i <= |ws| &&
    var g := Scan(ws[i..], used, cores);
    target == Grant(ws[..i] + g.kept, granted + g.granted, g.used)
  }

  lemma GrantStep(target: Grant, ws: seq<Waiter>, i: int, used: int, granted: seq<Waiter>, cores: int)
    requires ScanSoFar(target, ws, i, used, granted, cores) && i < |ws| && ws[i].request + used <= cores
    ensures ScanSoFar(target, ws[..i] + ws[i + 1..], i, used + ws[i].request, granted + [ws[i]], cores)
  {
    var ws' := ws[..i] + ws[i + 1..];
    assert ws[i..] == [ws[i]] + ws[i + 1..];
    assert ws'[i..] == ws[i + 1..] && ws'[..i] == ws[..i];
  }

  lemma KeepStep(target: Grant, ws: seq<Waiter>, i: int, used: int, granted: seq<Waiter>, cores: int)
    requires ScanSoFar(target, ws, i, used, granted, cores) && i < |ws| && ws[i].request + used > cores
    ensures ScanSoFar(target, ws, i + 1, used, granted, cores)
  {
    assert ws[i..] == [ws[i]] + ws[i + 1..];
    assert ws[..i + 1] == ws[..i] + [ws[i]];
  }

  /** Every kept waiter was in the list scanned. */
  lemma ScanKept(ws: seq<Waiter>, used: int, cores: int)
    ensures forall w :: w in Scan(ws, used, cores).kept ==> w in ws
  {
    ScanPartition(ws, used, cores);
    var g := Scan(ws, used, cores);
    forall w | w in g.kept
      ensures w in ws
    {
      assert w in multiset(g.kept);
    }
  }

  /** The grant loop of _update over the sorted queue: removes each
      waiter that fits, in place, and collects the tickets signalled. */
  method GrantLoop(ws: seq<Waiter>, used: int, cores: int) returns (queue: seq<Waiter>, count: int, sent: seq<nat>)
    ensures queue == Scan(ws, used, cores).kept
    ensures count == Scan(ws, used, cores).used
    ensures sent == Tickets(Scan(ws, used, cores).granted)
  {
    ghost var target := Scan(ws, used, cores);
    ghost var granted: seq<Waiter> := [];
    assert ws[..0] == [] && ws[0..] == ws;
    queue, count, sent := ws, used, [];
    var i: nat := 0;
    while i < |queue|
      invariant ScanSoFar(target, queue, i, count, granted, cores)
      invariant sent == Tickets(granted)
      decreases |queue| - i
    {
      var w := queue[i];
      if w.request + count <= cores {
        GrantStep(target, queue, i, count, granted, cores);
        assert Tickets(granted + [w]) == Tickets(granted) + [w.ticket];
        count := count + w.request;
        sent := sent + [w.ticket];
        granted := granted + [w];
        queue := queue[..i] + queue[i + 1..];
      } else {
        KeepStep(target, queue, i, count, granted, cores);
        i := i + 1;
      }
    }
    assert queue[..i] == queue && queue[i..] == [];
  }

  /** After _update the queue is still in descending request order,
      ties by arrival. */
  lemma UpdateKeepsOrder(ws: seq<Waiter>, used: int, cores: int)
    requires TicketTies(ws)
    ensures Ordered(Scan(SortDesc(ws), used, cores).kept)
  {
    SortKeepsTies(ws);
    ScanKeepsOrder(SortDesc(ws), used, cores);
  }

  /** _update only removes waiters. */
  lemma UpdateKeepsTickets(ws: seq<Waiter>, used: int, cores: int, n: nat)
    requires TicketsBelow(ws, n)
    ensures TicketsBelow(Scan(SortDesc(ws), used, cores).kept, n)
  {
    var sorted := SortDesc(ws);
    ScanKept(sorted, used, cores);
    forall w | w in Scan(sorted, used, cores).kept
      ensures w.ticket < n
    {
      assert w in multiset(sorted);
    }
  }

  /** A fresh ticket keeps every queued ticket below the advanced counter. */
  lemma TicketsBelowSnoc(ws: seq<Waiter>, w: Waiter, n: nat)
    requires TicketsBelow(ws, n) && w.ticket == n
    ensures TicketsBelow(ws + [w], n + 1)
  {
  }

  /** The outcome of _update from queue ws with count u: the queue is
      what the scan of the sorted queue kept, the count is the scan's, and
      the tickets of the granted waiters are signalled after sig0. */
  ghost predicate Rescheduled(ws: seq<Waiter>, u: int, cores: int, sig0: seq<nat>, queue: seq<Waiter>, count: int, sig: seq<nat>)
  {
    var g := Scan(SortDesc(ws), u, cores);
    queue == g.kept && count == g.used && sig == sig0 + Tickets(g.granted)
  }

  /** The count of cores in use after delta more are taken (fewer when
      delta is negative). */
  function Shifted(used: int, delta: int): int
  {
    used + delta
  }

  /** The whole of _update on the queue and the count of cores in use:
      sort, then grant. Only waiters already queued stay, and ties stay in
      arrival order. */
  method Regrant(ws: seq<Waiter>, used: int, cores: int, sig0: seq<nat>, ghost bound: nat)
    returns (queue: seq<Waiter>, count: int, sig: seq<nat>)
    ensures Rescheduled(ws, used, cores, sig0, queue, count, sig)
    ensures TicketTies(ws) ==> Ordered(queue)
    ensures TicketsBelow(ws, bound) ==> TicketsBelow(queue, bound)
  {
    var sorted := SortDesc(ws);
    if TicketTies(ws) {
      UpdateKeepsOrder(ws, used, cores);
    }
    if TicketsBelow(ws, bound) {
      UpdateKeepsTickets(ws, used, cores, bound);
    }
    var sent;
    queue, count, sent := GrantLoop(sorted, used, cores);
    sig := sig0 + sent;
  }

  /** Every key was handed out by a counter now at n. */
  predicate KeysBelow<X>(m: map<nat, X>, n: nat)
  {
    forall k :: k in m ==> k < n
  }

  /** Every queued ticket was handed out by a counter now at n. */
  predicate TicketsBelow(ws: seq<Waiter>, n: nat)
  {
    forall w :: w in ws ==> w.ticket < n
  }

  datatype Slot<V> = Slot(value: Option<V>, refs: int)

  /** What get_future finds. */
  datatype Fetch<V> = Missing | WouldBlock | Got(value: V)

  /** The keyword arguments set() accepts; anything else fails its
      assertion. */
  datatype Setting = JobCommand(command: string) | KillCommand(command: string) | Cores(n: int) | Unknown(name: string)

  /** The three attributes set() may assign. */
  datatype Settings = Settings(jobCommand: string, killCommand: string, cores: int)

  /** The attributes after assigning the settings in order; an unknown key
      assigns nothing. */
  function Apply(args: seq<Setting>, s: Settings): Settings
  {
    if |args| == 0 then s
    else
      var t := Apply(args[..|args| - 1], s);
      match args[|args| - 1]
      case JobCommand(c) => t.(jobCommand := c)
      case KillCommand(c) => t.(killCommand := c)
      case Cores(n) => t.(cores := n)
      case Unknown(_) => t
  }

  /** The number of settings before the first unknown key. */
  function KnownPrefix(args: seq<Setting>): (r: nat)
    ensures r <= |args| && (forall j :: 0 <= j < r ==> !args[j].Unknown?)
    ensures r < |args| ==> args[r].Unknown?
  {
    if |args| == 0 || args[0].Unknown? then 0 else 1 + KnownPrefix(args[1..])
  }

  predicate SameKey(a: Setting, b: Setting)
  {
    (a.JobCommand? && b.JobCommand?) || (a.KillCommand? && b.KillCommand?) || (a.Cores? && b.Cores?)
  }

  /** The attributes hold the value a sets. */
  predicate Holds(s: Settings, a: Setting)
  {
    match a
    case JobCommand(c) => s.jobCommand == c
    case KillCommand(c) => s.killCommand == c
    case Cores(n) => s.cores == n
    case Unknown(_) => true
  }

  /** The last assignment to a key wins: a setting not overridden later
      holds afterwards. */
  lemma {:induction false} ApplyLastWins(args: seq<Setting>, s: Settings, k: nat)
    requires k < |args| && forall j :: k < j < |args| ==> !SameKey(args[j], args[k])
    ensures Holds(Apply(args, s), args[k])
  {
    var n := |args| - 1;
    if k < n {
      ApplyLastWins(args[..n], s, k);
      assert !SameKey(args[n], args[k]);
    }
  }

  /** A key no setting mentions keeps its value. */
  lemma {:induction false} ApplyUntouched(args: seq<Setting>, s: Settings, a: Setting)
    requires forall j :: 0 <= j < |args| ==> !SameKey(args[j], a)
    requires Holds(s, a)
    ensures Holds(Apply(args, s), a)
  {
    if |args| > 0 {
      ApplyUntouched(args[..|args| - 1], s, a);
      assert !SameKey(args[|args| - 1], a);
    }
  }

  class Coordinator<V> {
    var cores: int
    var used: int
    var waiters: seq<Waiter>
    var nextTicket: nat
    var signalled: seq<nat>
    var mail: map<nat, V>
    var mailCount: nat
    var futures: map<nat, Slot<V>>
    var futureCount: nat
    var jobCommand: string
    var killCommand: string

    /** Mail and future numbers are below their counters, the queue is in
        scan order and every ticket was handed out. */
    ghost predicate Valid()
      reads this
    {
      && KeysBelow(mail, mailCount)
      && KeysBelow(futures, futureCount)
      && Ordered(waiters)
      && TicketsBelow(waiters, nextTicket)
    }

    /** The main process holds one core; the default commands depend on
        the platform and are parameters. */
    constructor(cpuCount: int, jobCommand: string, killCommand: string)
      ensures Valid()
      ensures cores == cpuCount && used == 1 && waiters == [] && signalled == []
      ensures mail == map[] && mailCount == 0 && futures == map[] && futureCount == 0
      ensures this.jobCommand == jobCommand && this.killCommand == killCommand
    {
      cores, used, waiters, nextTicket, signalled := cpuCount, 1, [], 0, [];
      mail, mailCount, futures, futureCount := map[], 0, map[], 0;
      this.jobCommand, this.killCommand := jobCommand, killCommand;
    }

    /** set(**kwargs): applies the settings in order; an unknown key fails
        the assertion after the earlier ones were applied. */
    method Set(args: seq<Setting>) returns (ok: bool)
      modifies this
      ensures ok <==> forall k :: 0 <= k < |args| ==> !args[k].Unknown?
      ensures Settings(jobCommand, killCommand, cores) ==
        Apply(args[..KnownPrefix(args)], Settings(old(jobCommand), old(killCommand), old(cores)))
      ensures used == old(used) && waiters == old(waiters) && mail == old(mail) && futures == old(futures)
      ensures mailCount == old(mailCount) && futureCount == old(futureCount)
      ensures nextTicket == old(nextTicket) && signalled == old(signalled)
      ensures old(Valid()) ==> Valid()
    {
      ghost var s0 := Settings(jobCommand, killCommand, cores);
      for k := 0 to |args|
        invariant forall j :: 0 <= j < k ==> !args[j].Unknown?
        invariant Settings(jobCommand, killCommand, cores) == Apply(args[..k], s0)
        invariant used == old(used) && waiters == old(waiters) && mail == old(mail) && futures == old(futures)
        invariant mailCount == old(mailCount) && futureCount == old(futureCount)
        invariant nextTicket == old(nextTicket) && signalled == old(signalled)
      {
        assert args[..k + 1][..k] == args[..k];
        match args[k]
        case JobCommand(c) => jobCommand := c;
        case KillCommand(c) => killCommand := c;
        case Cores(n) => cores := n;
        case Unknown(_) =>
          assert KnownPrefix(args) == k;
          return false;
      }
      assert args[..|args|] == args;
      return true;
    }

    /** set_mail: files the value under the next number. */
    method SetMail(value: V) returns (number: nat)
      modifies this
      ensures number == old(mailCount) && mailCount == old(mailCount) + 1
      ensures old(Valid()) ==> number !in old(mail)
      ensures mail == old(mail)[number := value]
      ensures cores == old(cores) && used == old(used) && waiters == old(waiters) && futures == old(futures)
      ensures futureCount == old(futureCount) && nextTicket == old(nextTicket) && signalled == old(signalled)
      ensures jobCommand == old(jobCommand) && killCommand == old(killCommand)
      ensures old(Valid()) ==> Valid()
    {
      number := mailCount;
      mailCount := mailCount + 1;
      mail := mail[number := value];
    }

    /** get_mail: removes and returns the value; a missing number is a
        KeyError. */
    method GetMail(number: nat) returns (r: Result<V>)
      modifies this
      ensures number in old(mail) ==> r == Ok(old(mail)[number]) && mail == old(mail) - {number}
      ensures number !in old(mail) ==> r.Err? && mail == old(mail)
      ensures cores == old(cores) && used == old(used) && waiters == old(waiters) && futures == old(futures)
      ensures mailCount == old(mailCount) && futureCount == old(futureCount)
      ensures nextTicket == old(nextTicket) && signalled == old(signalled)
      ensures jobCommand == old(jobCommand) && killCommand == old(killCommand)
      ensures old(Valid()) ==> Valid()
    {
      if number in mail {
        r := Ok(mail[number]);
        mail := mail - {number};
      } else {
        r := Err("KeyError");
      }
    }

    /** new_future: a fresh number, undelivered, one reference. */
    method NewFuture() returns (number: nat)
      modifies this
      ensures number == old(futureCount) && futureCount == old(futureCount) + 1
      ensures old(Valid()) ==> number !in old(futures)
      ensures futures == old(futures)[number := Slot(None, 1)]
      ensures cores == old(cores) && used == old(used) && waiters == old(waiters) && mail == old(mail)
      ensures mailCount == old(mailCount) && nextTicket == old(nextTicket) && signalled == old(signalled)
      ensures jobCommand == old(jobCommand) && killCommand == old(killCommand)
      ensures old(Valid()) ==> Valid()
    {
      number := futureCount;
      futures := futures[number := Slot(None, 1)];
      futureCount := futureCount + 1;
    }

    /** ref_future: one more reference; a missing number fails the
        assertion. */
    method RefFuture(number: nat) returns (ok: bool)
      modifies this
      ensures ok <==> number in old(futures)
      ensures ok ==> futures == old(futures)[number := old(futures)[number].(refs := old(futures)[number].refs + 1)]
      ensures !ok ==> futures == old(futures)
      ensures cores == old(cores) && used == old(used) && waiters == old(waiters) && mail == old(mail)
      ensures mailCount == old(mailCount) && futureCount == old(futureCount)
      ensures nextTicket == old(nextTicket) && signalled == old(signalled)
      ensures jobCommand == old(jobCommand) && killCommand == old(killCommand)
      ensures old(Valid()) ==> Valid()
    {
      if number !in futures {
        return false;
      }
      futures := futures[number := futures[number].(refs := futures[number].refs + 1)];
      return true;
    }

    /** deref_future: one reference fewer, dropping the entry at zero; a
        missing number fails the assertion. */
    method DerefFuture(number: nat) returns (ok: bool)
      modifies this
      ensures ok <==> number in old(futures)
      ensures ok && old(futures)[number].refs - 1 <= 0 ==> futures == old(futures) - {number}
      ensures ok && old(futures)[number].refs - 1 > 0 ==>
        futures == old(futures)[number := old(futures)[number].(refs := old(futures)[number].refs - 1)]
      ensures !ok ==> futures == old(futures)
      ensures cores == old(cores) && used == old(used) && waiters == old(waiters) && mail == old(mail)
      ensures mailCount == old(mailCount) && futureCount == old(futureCount)
      ensures nextTicket == old(nextTicket) && signalled == old(signalled)
      ensures jobCommand == old(jobCommand) && killCommand == old(killCommand)
      ensures old(Valid()) ==> Valid()
    {
      if number !in futures {
        return false;
      }
      var slot := futures[number].(refs := futures[number].refs - 1);
      if slot.refs <= 0 {
        futures := futures - {number};
      } else {
        futures := futures[number := slot];
      }
      return true;
    }

    /** deliver_future: stores the value and sets the event; an absent
        number changes nothing. */
    method DeliverFuture(number: nat, value: V)
      modifies this
      ensures number in old(futures) ==> futures == old(futures)[number := old(futures)[number].(value := Some(value))]
      ensures number !in old(futures) ==> futures == old(futures)
      ensures cores == old(cores) && used == old(used) && waiters == old(waiters) && mail == old(mail)
      ensures mailCount == old(mailCount) && futureCount == old(futureCount)
      ensures nextTicket == old(nextTicket) && signalled == old(signalled)
      ensures jobCommand == old(jobCommand) && killCommand == old(killCommand)
      ensures old(Valid()) ==> Valid()
    {
      if number in futures {
        futures := futures[number := futures[number].(value := Some(value))];
      }
    }

    /** get_future once the event is set: the value, then one reference
        fewer. Before delivery the source releases a core, waits and takes
        a core again; here that is WouldBlock with nothing changed. */
    method GetFuture(number: nat) returns (r: Fetch<V>)
      modifies this
      ensures number !in old(futures) ==> r == Missing && futures == old(futures)
      ensures number in old(futures) && old(futures)[number].value.None? ==> r == WouldBlock && futures == old(futures)
      ensures number in old(futures) && old(futures)[number].value.Some? ==>
        && r == Got(old(futures)[number].value.value)
        && (old(futures)[number].refs - 1 <= 0 ==> futures == old(futures) - {number})
        && (old(futures)[number].refs - 1 > 0 ==>
              futures == old(futures)[number := old(futures)[number].(refs := old(futures)[number].refs - 1)])
      ensures cores == old(cores) && used == old(used) && waiters == old(waiters) && mail == old(mail)
      ensures mailCount == old(mailCount) && futureCount == old(futureCount)
      ensures nextTicket == old(nextTicket) && signalled == old(signalled)
      ensures jobCommand == old(jobCommand) && killCommand == old(killCommand)
      ensures old(Valid()) ==> Valid()
    {
      if number !in futures {
        return Missing;
      }
      var slot := futures[number];
      if slot.value.None? {
        return WouldBlock;
      }
      var _ := DerefFuture(number);
      return Got(slot.value.value);
    }

    /** _update: sorts the queue by descending request (stably), then
        grants, in that order, every waiter whose request still fits in the
        cores, signalling it and removing it from the queue. */
    method Update()
      modifies this
      ensures Rescheduled(old(waiters), old(used), cores, old(signalled), waiters, used, signalled)
      ensures unchanged(this`cores, this`mail, this`futures, this`mailCount, this`futureCount, this`nextTicket, this`jobCommand, this`killCommand)
      ensures TicketTies(old(waiters)) ==> Ordered(waiters)
      ensures old(Valid()) ==> Valid()
    {
      var queue, count, sig := Regrant(waiters, used, cores, signalled, nextTicket);
      Install(queue, count, sig, nextTicket);
    }

    /** set_cores: a new core count, then the queue is rescanned. */
    method SetCores(n: int)
      modifies this
      ensures cores == n
      ensures Rescheduled(old(waiters), old(used), n, old(signalled), waiters, used, signalled)
      ensures unchanged(this`mail, this`futures, this`mailCount, this`futureCount, this`nextTicket, this`jobCommand, this`killCommand)
      ensures old(Valid()) ==> Valid()
    {
      cores := n;
      Update();
    }

    /** change_cores_used: the count moves by delta with no delay, then
        the queue is rescanned. */
    method ChangeCoresUsed(delta: int)
      modifies this
      ensures Rescheduled(old(waiters), Shifted(old(used), delta), cores, old(signalled), waiters, used, signalled)
      ensures unchanged(this`cores, this`mail, this`futures, this`mailCount, this`futureCount, this`nextTicket, this`jobCommand, this`killCommand)
      ensures old(Valid()) ==> Valid()
    {
      var u := Shifted(used, delta);
      var queue, count, sig := Regrant(waiters, u, cores, signalled, nextTicket);
      Install(queue, count, sig, nextTicket);
    }

    /** release_core: one core fewer in use. */
    method ReleaseCore()
      modifies this
      ensures Rescheduled(old(waiters), Shifted(old(used), -1), cores, old(signalled), waiters, used, signalled)
      ensures unchanged(this`cores, this`mail, this`futures, this`mailCount, this`futureCount, this`nextTicket, this`jobCommand, this`killCommand)
      ensures old(Valid()) ==> Valid()
    {
      ChangeCoresUsed(-1);
    }

    /** trade_cores(old, new): giving cores back (new <= old) never waits:
        the count becomes used - old + new. Asking for more releases the
        old cores and queues a request for the new ones under a fresh
        ticket; the caller may go on once that ticket is signalled. */
    method TradeCores(released: int, wanted: int) returns (ticket: Option<nat>)
      modifies this
      ensures wanted <= released ==>
        && ticket == None
        && nextTicket == old(nextTicket)
        && Rescheduled(old(waiters), Shifted(old(used), wanted - released), cores, old(signalled), waiters, used, signalled)
      ensures wanted > released ==>
        var queued := old(waiters) + [Waiter(wanted, old(nextTicket))];
        && ticket == Some(old(nextTicket))
        && nextTicket == old(nextTicket) + 1
        && Rescheduled(queued, Shifted(old(used), -released), cores, old(signalled), waiters, used, signalled)
      ensures unchanged(this`cores, this`mail, this`futures, this`mailCount, this`futureCount, this`jobCommand, this`killCommand)
      ensures old(Valid()) ==> Valid()
    {
      if wanted <= released {
        ReturnCores(released, wanted);
        ticket := None;
      } else {
        var t := QueueRequest(released, wanted);
        ticket := Some(t);
      }
    }

    /** The branch of trade_cores that gives cores back. */
    method ReturnCores(released: int, wanted: int)
      modifies this
      ensures nextTicket == old(nextTicket)
      ensures Rescheduled(old(waiters), Shifted(old(used), wanted - released), cores, old(signalled), waiters, used, signalled)
      ensures unchanged(this`cores, this`mail, this`futures, this`mailCount, this`futureCount, this`jobCommand, this`killCommand)
      ensures old(Valid()) ==> Valid()
    {
      var u := Shifted(used, wanted - released);
      var queue, count, sig := Regrant(waiters, u, cores, signalled, nextTicket);
      Install(queue, count, sig, nextTicket);
    }

    /** The branch of trade_cores that waits: the old cores are released
        and a request for the new ones joins the queue. */
    method QueueRequest(released: int, wanted: int) returns (ticket: nat)
      modifies this
      ensures ticket == old(nextTicket) && nextTicket == old(nextTicket) + 1
      ensures Rescheduled(old(waiters) + [Waiter(wanted, old(nextTicket))], Shifted(old(used), -released), cores, old(signalled), waiters, used, signalled)
      ensures unchanged(this`cores, this`mail, this`futures, this`mailCount, this`futureCount, this`jobCommand, this`killCommand)
      ensures old(Valid()) ==> Valid()
    {
      var w := Waiter(wanted, nextTicket);
      if Valid() {
        AppendTies(waiters, w);
        TicketsBelowSnoc(waiters, w, nextTicket);
      }
      var queued, u := waiters + [w], Shifted(used, -released);
      var queue, count, sig := Regrant(queued, u, cores, signalled, nextTicket + 1);
      Install(queue, count, sig, nextTicket + 1);
      ticket := w.ticket;
    }

    /** Stores a rescan's outcome and the ticket counter, and nothing else. */
    method Install(queue: seq<Waiter>, count: int, sig: seq<nat>, tickets: nat)
      modifies this
      ensures waiters == queue && used == count && signalled == sig && nextTicket == tickets
      ensures unchanged(this`cores, this`mail, this`futures, this`mailCount, this`futureCount, this`jobCommand, this`killCommand)
    {
      waiters, used, signalled, nextTicket := queue, count, sig, tickets;
    }

    /** acquire_core: trade_cores(0, 1), which always takes the waiting
        branch since 1 > 0. */
    method AcquireCore() returns (ticket: nat)
      modifies this
      ensures ticket == old(nextTicket) && nextTicket == old(nextTicket) + 1
      ensures Rescheduled(old(waiters) + [Waiter(1, old(nextTicket))], old(used), cores, old(signalled), waiters, used, signalled)
      ensures unchanged(this`cores, this`mail, this`futures, this`mailCount, this`futureCount, this`jobCommand, this`killCommand)
      ensures old(Valid()) ==> Valid()
    {
      var released, wanted := 0, 1;
      ticket := QueueRequest(released, wanted);
      assert Shifted(old(used), -released) == old(used);
    }
  }

  /** What a job delivers: its clock, the exception it raised if any,
      and its result. */
  datatype Outcome<V> = Outcome(time: real, exception: Option<string>, result: V)

  /** What calling a future reference does: raise the job's exception or
      return its result, either way moving the local clock forward to the
      job's; Pending is the wait for delivery, Lost the lookup of a number
      the coordinator no longer holds. */
  datatype Answer<V> = Pending | Lost | Raised(time: real, exception: string) | Returned(time: real, result: V)

  function AnswerOf<V>(o: Outcome<V>, localTime: real): (a: Answer<V>)
    ensures a.Raised? || a.Returned?
    ensures a.time >= localTime && a.time >= o.time && (a.time == localTime || a.time == o.time)
    ensures a.Raised? <==> o.exception.Some?
  {
    if o.exception.Some? then Raised(MaxR(localTime, o.time), o.exception.value)
    else Returned(MaxR(localTime, o.time), o.result)
  }

  /** The attributes __getstate__ hands to pickling: everything but the
      lock. */
  datatype RefState<V> = RefState(number: nat, retrieved: bool, outcome: Option<Outcome<V>>)

  /** Future_reference: a handle on a coordinator future that fetches the
      outcome at most once and keeps it. */
  class FutureReference<V> {
    var number: nat
    var retrieved: bool
    var outcome: Option<Outcome<V>>

    /** The outcome is cached exactly when it was retrieved. */
    predicate Valid()
      reads this
    {
      retrieved <==> outcome.Some?
    }

    constructor(number: nat)
      ensures Valid() && this.number == number && !retrieved
    {
      this.number, retrieved, outcome := number, false, None;
    }

    /** __setstate__: a copy made from the pickled attributes. */
    constructor FromState(state: RefState<V>)
      ensures number == state.number && retrieved == state.retrieved && outcome == state.outcome
    {
      number, retrieved, outcome := state.number, state.retrieved, state.outcome;
    }

    /** __call__: the first successful call takes the outcome from the
        coordinator (dropping the reference the handle held); later calls
        answer from the cache without asking again. */
    method Call(coord: Coordinator<Outcome<V>>, localTime: real) returns (answer: Answer<V>)
      requires Valid()
      modifies this, coord
      ensures Valid() && number == old(number)
      ensures old(coord.Valid()) ==> coord.Valid()
      ensures old(retrieved) ==> outcome == old(outcome) && coord.futures == old(coord.futures)
      ensures !old(retrieved) && number !in old(coord.futures) ==>
        answer == Lost && !retrieved && coord.futures == old(coord.futures)
      ensures !old(retrieved) && number in old(coord.futures) && old(coord.futures)[number].value.None? ==>
        answer == Pending && !retrieved && coord.futures == old(coord.futures)
      ensures !old(retrieved) && number in old(coord.futures) && old(coord.futures)[number].value.Some? ==>
        && outcome == old(coord.futures)[number].value
        && (old(coord.futures)[number].refs - 1 <= 0 ==> coord.futures == old(coord.futures) - {number})
        && (old(coord.futures)[number].refs - 1 > 0 ==>
              coord.futures == old(coord.futures)[number := old(coord.futures)[number].(refs := old(coord.futures)[number].refs - 1)])
      ensures retrieved ==> answer == AnswerOf(outcome.value, localTime)
      ensures coord.cores == old(coord.cores) && coord.used == old(coord.used) && coord.waiters == old(coord.waiters)
      ensures coord.mail == old(coord.mail) && coord.signalled == old(coord.signalled)
      ensures coord.mailCount == old(coord.mailCount) && coord.futureCount == old(coord.futureCount) && coord.nextTicket == old(coord.nextTicket)
      ensures coord.jobCommand == old(coord.jobCommand) && coord.killCommand == old(coord.killCommand)
    {
      if !retrieved {
        var fetched := coord.GetFuture(number);
        if fetched.Missing? {
          return Lost;
        } else if fetched.WouldBlock? {
          return Pending;
        }
        outcome := Some(fetched.value);
        retrieved := true;
      }
      answer := AnswerOf(outcome.value, localTime);
    }

    /** __del__: a handle that never retrieved gives its reference back;
        the coordinator's refcount assertion is ok. */
    method Delete(coord: Coordinator<Outcome<V>>) returns (ok: bool)
      modifies coord
      ensures old(coord.Valid()) ==> coord.Valid()
      ensures retrieved ==> ok && coord.futures == old(coord.futures)
      ensures !retrieved ==> (ok <==> number in old(coord.futures))
      ensures !retrieved && number in old(coord.futures) && old(coord.futures)[number].refs - 1 <= 0 ==>
        coord.futures == old(coord.futures) - {number}
      ensures !retrieved && number in old(coord.futures) && old(coord.futures)[number].refs - 1 > 0 ==>
        coord.futures == old(coord.futures)[number := old(coord.futures)[number].(refs := old(coord.futures)[number].refs - 1)]
      ensures coord.cores == old(coord.cores) && coord.used == old(coord.used) && coord.waiters == old(coord.waiters)
      ensures coord.mail == old(coord.mail) && coord.signalled == old(coord.signalled)
      ensures coord.mailCount == old(coord.mailCount) && coord.futureCount == old(coord.futureCount) && coord.nextTicket == old(coord.nextTicket)
      ensures coord.jobCommand == old(coord.jobCommand) && coord.killCommand == old(coord.killCommand)
    {
      ok := true;
      if !retrieved {
        ok := coord.DerefFuture(number);
      }
    }

    /** __getstate__: the copy being pickled holds a reference of its own
        unless the outcome is already cached. */
    method GetState(coord: Coordinator<Outcome<V>>) returns (ok: bool, state: RefState<V>)
      modifies coord
      ensures old(coord.Valid()) ==> coord.Valid()
      ensures state == RefState(number, retrieved, outcome)
      ensures retrieved ==> ok && coord.futures == old(coord.futures)
      ensures !retrieved ==> (ok <==> number in old(coord.futures))
      ensures !retrieved && number in old(coord.futures) ==>
        coord.futures == old(coord.futures)[number := old(coord.futures)[number].(refs := old(coord.futures)[number].refs + 1)]
      ensures coord.cores == old(coord.cores) && coord.used == old(coord.used) && coord.waiters == old(coord.waiters)
      ensures coord.mail == old(coord.mail) && coord.signalled == old(coord.signalled)
      ensures coord.mailCount == old(coord.mailCount) && coord.futureCount == old(coord.futureCount) && coord.nextTicket == old(coord.nextTicket)
      ensures coord.jobCommand == old(coord.jobCommand) && coord.killCommand == old(coord.killCommand)
    {
      ok := true;
      if !retrieved {
        ok := coord.RefFuture(number);
      }
      state := RefState(number, retrieved, outcome);
    }
  }
}
