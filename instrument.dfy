// Instrument.prepare of demakein/design.py: the bore is cut into events (the
// open end, the steps of the stepped inner profile and the holes), the
// events are stably sorted by position, and each event becomes a pipe
// propagation followed, for a step or a hole, by a junction. The acoustic
// replies each action computes are not modelled; an action records the
// lengths and diameters it was built from.

module Instruments {
  import opened Common
  import opened Profiles

  datatype EventKind = EndOfBore | StepAt(index: nat) | HoleAt(index: nat)

  /** (pos, action, index) of the events list. */
  datatype Event = Event(pos: real, kind: EventKind)

  /** A pipe of the given length; a junction from one bore diameter to the
      next at a step; a hole junction with the bore diameter there, the
      hole's diameter and its length through the wall. */
  datatype Action =
    | Propagate(length: real)
    | Junction(lowDiameter: real, highDiameter: real)
    | HoleJunction(boreDiameter: real, holeDiameter: real, holeLength: real, index: nat)

  // ------------------------------------------------------------ the events

  /** The step events: breakpoints of the stepped profile strictly inside
      (0, length), in index order, among the first k breakpoints. */
  function StepEvents(pos: seq<real>, length: real, k: nat): (r: seq<Event>)
    requires k <= |pos|
  {
    if k == 0 then []
    else
      StepEvents(pos, length, k - 1)
      + (if 0.0 < pos[k - 1] < length then [Event(pos[k - 1], StepAt(k - 1))] else [])
  }

  function HoleEvents(holes: seq<real>, k: nat): (r: seq<Event>)
    requires k <= |holes|
  {
    if k == 0 then [] else HoleEvents(holes, k - 1) + [Event(holes[k - 1], HoleAt(k - 1))]
  }

  /** The events list before sorting. */
  function Events(length: real, pos: seq<real>, holes: seq<real>): seq<Event>
  {
    [Event(length, EndOfBore)] + StepEvents(pos, length, |pos|) + HoleEvents(holes, |holes|)
  }

  /** An event is a step event exactly when it is an interior breakpoint
      with its own index, and a hole event exactly when it is a hole. */
  lemma {:induction false} StepEventsAre(pos: seq<real>, length: real, k: nat, e: Event)
    requires k <= |pos|
    ensures e in StepEvents(pos, length, k) <==>
      e.kind.StepAt? && e.kind.index < k && e.pos == pos[e.kind.index] && 0.0 < e.pos < length
  {
    if k > 0 {
      StepEventsAre(pos, length, k - 1, e);
    }
  }

  lemma {:induction false} HoleEventsAre(holes: seq<real>, k: nat, e: Event)
    requires k <= |holes|
    ensures e in HoleEvents(holes, k) <==>
      e.kind.HoleAt? && e.kind.index < k && e.pos == holes[e.kind.index]
  {
    if k > 0 {
      HoleEventsAre(holes, k - 1, e);
    }
  }

  /** The events are the end, the interior breakpoints and the holes, and
      nothing else. */
  lemma EventsAre(length: real, pos: seq<real>, holes: seq<real>, e: Event)
    ensures e in Events(length, pos, holes) <==>
      e == Event(length, EndOfBore)
      || (e.kind.StepAt? && e.kind.index < |pos| && e.pos == pos[e.kind.index] && 0.0 < e.pos < length)
      || (e.kind.HoleAt? && e.kind.index < |holes| && e.pos == holes[e.kind.index])
  {
    StepEventsAre(pos, length, |pos|, e);
    HoleEventsAre(holes, |holes|, e);
  }

  /** The two event loops of prepare. */
  method BuildEvents(length: real, pos: seq<real>, holes: seq<real>) returns (events: seq<Event>)
    ensures events == Events(length, pos, holes)
  {
    events := [Event(length, EndOfBore)];
    for i := 0 to |pos|
      invariant events == [Event(length, EndOfBore)] + StepEvents(pos, length, i)
    {
      if 0.0 < pos[i] < length {
        events := events + [Event(pos[i], StepAt(i))];
      }
    }
    var base := events;
    for i := 0 to |holes|
      invariant events == base + HoleEvents(holes, i)
    {
      events := events + [Event(holes[i], HoleAt(i))];
    }
  }

  // ------------------------------------------------------ the stable sort

  predicate SortedByPos(s: seq<Event>)
  {
    forall i, j :: 0 <= i < j < |s| ==> s[i].pos <= s[j].pos
  }

  /** x goes before the first event at or after its position. */
  function InsertEvent(x: Event, s: seq<Event>): (r: seq<Event>)
    ensures multiset(r) == multiset(s) + multiset{x}
    ensures |r| == |s| + 1 && r[0] == (if |s| == 0 || x.pos <= s[0].pos then x else s[0])
  {
    if |s| == 0 || x.pos <= s[0].pos then [x] + s
    else
      assert s == [s[0]] + s[1..];
      [s[0]] + InsertEvent(x, s[1..])
  }

  lemma {:induction false} InsertSorted(x: Event, s: seq<Event>)
    requires SortedByPos(s)
    ensures SortedByPos(InsertEvent(x, s))
  {
    if |s| > 0 && x.pos > s[0].pos {
      InsertSorted(x, s[1..]);
      SortedCons(s[0], InsertEvent(x, s[1..]));
    } else if |s| > 0 {
      SortedCons(x, s);
    }
  }

  lemma SortedCons(a: Event, s: seq<Event>)
    requires SortedByPos(s) && |s| > 0 && a.pos <= s[0].pos
    ensures SortedByPos([a] + s)
  {
    assert forall j :: 0 <= j < |s| ==> a.pos <= s[j].pos;
  }

  /** events.sort(key=lambda item: item[0]). */
  function SortEvents(events: seq<Event>): (r: seq<Event>)
    ensures multiset(r) == multiset(events)
  {
    if |events| == 0 then []
    else
      assert events == [events[0]] + events[1..];
      InsertEvent(events[0], SortEvents(events[1..]))
  }

  /** The sorted events are in position order. */
  lemma {:induction false} SortSorted(events: seq<Event>)
    ensures SortedByPos(SortEvents(events))
  {
    if |events| > 0 {
      SortSorted(events[1..]);
      InsertSorted(events[0], SortEvents(events[1..]));
    }
  }

  /** The events at position v, in their order. */
  function AtPos(s: seq<Event>, v: real): seq<Event>
  {
    if |s| == 0 then [] else (if s[0].pos == v then [s[0]] else []) + AtPos(s[1..], v)
  }

  lemma {:induction false} InsertAtPos(x: Event, s: seq<Event>, v: real)
    ensures AtPos(InsertEvent(x, s), v) == (if x.pos == v then [x] else []) + AtPos(s, v)
  {
    var r := InsertEvent(x, s);
    if |s| == 0 || x.pos <= s[0].pos {
      assert r == [x] + s && r[1..] == s;
      assert AtPos(r, v) == (if x.pos == v then [x] else []) + AtPos(s, v);
    } else {
      var rest := InsertEvent(x, s[1..]);
      InsertAtPos(x, s[1..], v);
      assert r[0] == s[0] && r[1..] == rest;
      var tail := AtPos(s[1..], v);
      assert AtPos(s, v) == (if s[0].pos == v then [s[0]] else []) + tail;
      assert AtPos(r, v) == (if s[0].pos == v then [s[0]] else []) + AtPos(rest, v);
      if x.pos == v {
        assert s[0].pos != v;
        assert AtPos(s, v) == tail;
        assert AtPos(r, v) == [x] + tail;
      } else {
        assert AtPos(r, v) == AtPos(s, v);
      }
    }
  }

  /** The sort is stable: the events at any one position keep the order
      they were appended in (the end before a step or hole at the very end,
      a step before a hole at the same place). */
  lemma {:induction false} SortStable(events: seq<Event>, v: real)
    ensures AtPos(SortEvents(events), v) == AtPos(events, v)
  {
    if |events| > 0 {
      SortStable(events[1..], v);
      InsertAtPos(events[0], SortEvents(events[1..]), v);
    }
  }

  // ---------------------------------------------------- the action plan

  /** What the actions read besides the events: the stepped inner profile
      and each hole's diameter and length through the wall. */
  datatype Bore = Bore(stepped: Profile, holeDiameters: seq<real>, holeLengths: seq<real>)

  /** Every step index names a breakpoint of the stepped profile and every
      hole index names a hole diameter and a hole length. */
  predicate IndicesOk(events: seq<Event>, b: Bore)
  {
    WellFormed(b.stepped) && forall i :: 0 <= i < |events| ==> KindOk(events[i].kind, b)
  }

  predicate KindOk(k: EventKind, b: Bore)
  {
    match k
    case EndOfBore => true
    case StepAt(i) => i < |b.stepped.pos| && i < |b.stepped.low| && i < |b.stepped.high|
    case HoleAt(i) => i < |b.holeDiameters| && i < |b.holeLengths|
  }

  /** A step whose low side is not the running diameter fails the
      assertion. */
  predicate Fails(e: Event, diameter: real, b: Bore)
    requires KindOk(e.kind, b)
  {
    e.kind.StepAt? && diameter != b.stepped.low[e.kind.index]
  }

  /** The running diameter after the event: the high side of a step. */
  function After(e: Event, diameter: real, b: Bore): real
    requires KindOk(e.kind, b)
  {
    if e.kind.StepAt? then b.stepped.high[e.kind.index] else diameter
  }

  /** The actions one event appends: the pipe up to it, then (unless the
      step's assertion fails) the junction of a step or a hole. */
  function EventActions(e: Event, position: real, diameter: real, b: Bore): (r: seq<Action>)
    requires KindOk(e.kind, b)
  {
    var pipe := Propagate(e.pos - position);
    if Fails(e, diameter, b) then [pipe]
    else
      match e.kind
      case EndOfBore => [pipe]
      case StepAt(i) => [pipe, Junction(diameter, b.stepped.high[i])]
      case HoleAt(i) => [pipe, HoleJunction(diameter, b.holeDiameters[i], b.holeLengths[i], i)]
  }

  datatype Plan = Plan(actions: seq<Action>, ok: bool)

  /** The actions for the events from the running position and diameter;
      a failed step ends the plan with ok false. */
  function PlanFrom(events: seq<Event>, position: real, diameter: real, b: Bore): (r: Plan)
    requires IndicesOk(events, b)
    decreases |events|
  {
    if |events| == 0 then Plan([], true)
    else
      var e := events[0];
      assert KindOk(events[0].kind, b);
      if Fails(e, diameter, b) then Plan(EventActions(e, position, diameter, b), false)
      else
        var rest := PlanFrom(events[1..], e.pos, After(e, diameter, b), b);
        Plan(EventActions(e, position, diameter, b) + rest.actions, rest.ok)
  }

  /** Steps and holes: the events that bring a junction. */
  function Junctions(events: seq<Event>): nat
  {
    if |events| == 0 then 0 else (if events[0].kind.EndOfBore? then 0 else 1) + Junctions(events[1..])
  }

  /** The number of pipe propagations. */
  function Pipes(actions: seq<Action>): nat
  {
    if |actions| == 0 then 0 else (if actions[0].Propagate? then 1 else 0) + Pipes(actions[1..])
  }

  /** The total pipe length. */
  function PipeLength(actions: seq<Action>): real
  {
    if |actions| == 0 then 0.0
    else (if actions[0].Propagate? then actions[0].length else 0.0) + PipeLength(actions[1..])
  }

  lemma {:induction false} PipesAppend(a: seq<Action>, c: seq<Action>)
    ensures Pipes(a + c) == Pipes(a) + Pipes(c)
    ensures PipeLength(a + c) == PipeLength(a) + PipeLength(c)
  {
    if |a| > 0 {
      PipesAppend(a[1..], c);
      assert (a + c)[1..] == a[1..] + c;
    } else {
      assert a + c == c;
    }
  }

  /** One event's actions: one pipe, of the distance to the event, and a
      junction unless the event is the end or a failed step. */
  lemma EventActionsCount(e: Event, position: real, diameter: real, b: Bore)
    requires KindOk(e.kind, b)
    ensures var r := EventActions(e, position, diameter, b);
      Pipes(r) == 1 && PipeLength(r) == e.pos - position
      && |r| == (if e.kind.EndOfBore? || Fails(e, diameter, b) then 1 else 2)
  {
    var r := EventActions(e, position, diameter, b);
    assert r[0] == Propagate(e.pos - position);
    if |r| == 2 {
      assert !r[1].Propagate?;
      assert r[1..] == [r[1]] && [r[1]][1..] == [];
      assert Pipes(r[1..]) == 0 && PipeLength(r[1..]) == 0.0;
    } else {
      assert r[1..] == [];
    }
  }

  /** A completed plan has one pipe per event and one junction per step or
      hole. */
  lemma {:induction false} PlanCount(events: seq<Event>, position: real, diameter: real, b: Bore)
    requires IndicesOk(events, b)
    ensures var p := PlanFrom(events, position, diameter, b);
      p.ok ==> |p.actions| == |events| + Junctions(events) && Pipes(p.actions) == |events|
  {
    if |events| > 0 {
      var e := events[0];
      assert KindOk(events[0].kind, b);
      if !Fails(e, diameter, b) {
        PlanCount(events[1..], e.pos, After(e, diameter, b), b);
        var rest := PlanFrom(events[1..], e.pos, After(e, diameter, b), b);
        EventActionsCount(e, position, diameter, b);
        PipesAppend(EventActions(e, position, diameter, b), rest.actions);
      }
    }
  }

  /** The pipes telescope: a completed plan's pipe lengths add up to the
      distance from the starting position to the last event. */
  lemma {:induction false} PlanReaches(events: seq<Event>, position: real, diameter: real, b: Bore)
    requires IndicesOk(events, b) && |events| > 0
    ensures var p := PlanFrom(events, position, diameter, b);
      p.ok ==> PipeLength(p.actions) == events[|events| - 1].pos - position
  {
    var e := events[0];
    assert KindOk(events[0].kind, b);
    if !Fails(e, diameter, b) {
      var rest := PlanFrom(events[1..], e.pos, After(e, diameter, b), b);
      EventActionsCount(e, position, diameter, b);
      PipesAppend(EventActions(e, position, diameter, b), rest.actions);
      if |events| > 1 {
        PlanReaches(events[1..], e.pos, After(e, diameter, b), b);
      }
    }
  }

  /** No pipe of the actions has a negative length. */
  predicate NoNegativePipe(actions: seq<Action>)
  {
    forall k :: 0 <= k < |actions| && actions[k].Propagate? ==> actions[k].length >= 0.0
  }

  /** With the events in position order and none before the start, no pipe
      has a negative length. */
  lemma {:induction false} PlanPipesNonNegative(events: seq<Event>, position: real, diameter: real, b: Bore)
    requires IndicesOk(events, b)
    requires SortedByPos(events) && (|events| > 0 ==> position <= events[0].pos)
    ensures NoNegativePipe(PlanFrom(events, position, diameter, b).actions)
  {
    if |events| > 0 {
      var e := events[0];
      assert KindOk(events[0].kind, b);
      var head := EventActions(e, position, diameter, b);
      assert NoNegativePipe(head);
      if !Fails(e, diameter, b) {
        var rest := PlanFrom(events[1..], e.pos, After(e, diameter, b), b);
        PlanPipesNonNegative(events[1..], e.pos, After(e, diameter, b), b);
        assert NoNegativePipe(head + rest.actions) by {
          forall k | 0 <= k < |head + rest.actions|
            ensures (head + rest.actions)[k].Propagate? ==> (head + rest.actions)[k].length >= 0.0
          {
            if k >= |head| {
              assert (head + rest.actions)[k] == rest.actions[k - |head|];
            }
          }
        }
      }
    }
  }

  /** The step indices of the events, in order. */
  function StepIndices(events: seq<Event>): seq<nat>
  {
    if |events| == 0 then []
    else (if events[0].kind.StepAt? then [events[0].kind.index] else []) + StepIndices(events[1..])
  }

  predicate Consecutive(idx: seq<nat>)
  {
    forall k :: 0 <= k < |idx| - 1 ==> idx[k + 1] == idx[k] + 1
  }

  /** Each step's high side is the next step's low side, as in a profile
      made by as_stepped. */
  predicate Chained(p: Profile)
    requires WellFormed(p)
  {
    forall k :: 0 <= k < |p.pos| - 1 ==> p.high[k] == p.low[k + 1]
  }

  /** The step assertion never fails when the stepped profile is chained,
      the steps are met in consecutive index order, and the running
      diameter starts at the first step's low side. */
  lemma {:induction false} ChainedPlanOk(events: seq<Event>, position: real, diameter: real, b: Bore)
    requires IndicesOk(events, b) && Chained(b.stepped)
    requires Consecutive(StepIndices(events))
    requires |StepIndices(events)| > 0 ==>
      StepIndices(events)[0] < |b.stepped.low| && diameter == b.stepped.low[StepIndices(events)[0]]
    ensures PlanFrom(events, position, diameter, b).ok
  {
    if |events| > 0 {
      var e := events[0];
      assert KindOk(events[0].kind, b);
      var rest := events[1..];
      var idx := StepIndices(rest);
      assert IndicesOk(rest, b);
      if e.kind.StepAt? {
        assert StepIndices(events) == [e.kind.index] + idx;
        ConsecutiveTail(e.kind.index, idx);
        if |idx| > 0 {
          StepIndexBound(rest, b, 0);
        }
      } else {
        assert StepIndices(events) == idx;
      }
      ChainedPlanOk(rest, e.pos, After(e, diameter, b), b);
    }
  }

  lemma ConsecutiveTail(i: nat, idx: seq<nat>)
    requires Consecutive([i] + idx)
    ensures Consecutive(idx) && (|idx| > 0 ==> idx[0] == i + 1)
  {
    var all := [i] + idx;
    forall k | 0 <= k < |idx| - 1
      ensures idx[k + 1] == idx[k] + 1
    {
      assert all[k + 1] == idx[k] && all[k + 2] == idx[k + 1];
    }
    if |idx| > 0 {
      assert all[0] == i && all[1] == idx[0];
    }
  }

  lemma {:induction false} StepIndexBound(events: seq<Event>, b: Bore, k: nat)
    requires IndicesOk(events, b) && k < |StepIndices(events)|
    ensures StepIndices(events)[k] < |b.stepped.pos|
  {
    assert KindOk(events[0].kind, b);
    assert IndicesOk(events[1..], b);
    if events[0].kind.StepAt? {
      if k > 0 {
        StepIndexBound(events[1..], b, k - 1);
      }
    } else {
      StepIndexBound(events[1..], b, k);
    }
  }

  /** The sort keeps every event, so indices valid before it stay valid. */
  lemma SortKeepsIndices(events: seq<Event>, b: Bore)
    requires IndicesOk(events, b)
    ensures IndicesOk(SortEvents(events), b)
  {
    var s := SortEvents(events);
    forall i | 0 <= i < |s|
      ensures KindOk(s[i].kind, b)
    {
      assert s[i] in multiset(s);
      assert s[i] in multiset(events);
      var j :| 0 <= j < |events| && events[j] == s[i];
    }
  }

  lemma EventIndicesOk(length: real, holes: seq<real>, b: Bore)
    requires WellFormed(b.stepped)
    requires |b.holeDiameters| >= |holes| && |b.holeLengths| >= |holes|
    ensures IndicesOk(SortEvents(Events(length, b.stepped.pos, holes)), b)
  {
    var events := Events(length, b.stepped.pos, holes);
    forall i | 0 <= i < |events|
      ensures KindOk(events[i].kind, b)
    {
      EventsAre(length, b.stepped.pos, holes, events[i]);
    }
    SortKeepsIndices(events, b);
  }

  /** One step of the plan: the first event's actions, then the plan of
      the rest unless the event fails. */
  lemma PlanStep(events: seq<Event>, i: nat, position: real, diameter: real, b: Bore)
    requires IndicesOk(events, b) && i < |events|
    ensures IndicesOk(events[i..], b) && IndicesOk(events[i + 1..], b) && KindOk(events[i].kind, b)
    ensures var p := PlanFrom(events[i..], position, diameter, b);
      var head := EventActions(events[i], position, diameter, b);
      if Fails(events[i], diameter, b) then p == Plan(head, false)
      else
        var rest := PlanFrom(events[i + 1..], events[i].pos, After(events[i], diameter, b), b);
        p == Plan(head + rest.actions, rest.ok)
  {
    assert events[i..][0] == events[i] && events[i..][1..] == events[i + 1..];
    assert KindOk(events[i].kind, b);
  }

  /** The action loop of prepare, over the sorted events. */
  method Act(events: seq<Event>, position0: real, diameter0: real, b: Bore) returns (actions: seq<Action>, ok: bool)
    requires IndicesOk(events, b)
    ensures actions == PlanFrom(events, position0, diameter0, b).actions
    ensures ok == PlanFrom(events, position0, diameter0, b).ok
  {
    actions := [];
    var position, diameter := position0, diameter0;
    var i := 0;
    while i < |events|
      invariant 0 <= i <= |events|
      invariant IndicesOk(events[i..], b)
      invariant actions + PlanFrom(events[i..], position, diameter, b).actions
        == PlanFrom(events, position0, diameter0, b).actions
      invariant PlanFrom(events[i..], position, diameter, b).ok == PlanFrom(events, position0, diameter0, b).ok
    {
      PlanStep(events, i, position, diameter, b);
      ghost var before, p0, d0 := actions, position, diameter;
      var head, passed, next := ActOn(events[i], position, diameter, b);
      actions := actions + head;
      if !passed {
        return actions, false;
      }
      position, diameter := events[i].pos, next;
      ghost var rest := PlanFrom(events[i + 1..], position, diameter, b).actions;
      assert actions + rest == before + (head + rest);
      i := i + 1;
    }
    ok := true;
  }

  /** The body of the action loop for one event: append the pipe, then
      check a step's low side and append its junction, or append a hole's
      junction. */
  method ActOn(e: Event, position: real, diameter: real, b: Bore) returns (head: seq<Action>, passed: bool, next: real)
    requires KindOk(e.kind, b)
    ensures head == EventActions(e, position, diameter, b)
    ensures passed == !Fails(e, diameter, b)
    ensures passed ==> next == After(e, diameter, b)
  {
    head := [Propagate(e.pos - position)];
    next := diameter;
    passed := true;
    match e.kind {
      case EndOfBore =>
      case StepAt(index) =>
        if diameter != b.stepped.low[index] {
          passed := false;
          return;
        }
        head := head + [Junction(diameter, b.stepped.high[index])];
        next := b.stepped.high[index];
      case HoleAt(index) =>
        head := head + [HoleJunction(diameter, b.holeDiameters[index], b.holeLengths[index], index)];
    }
  }

  /** The plan prepare builds once the stepped profile is known; the
      flange correction of the open end sets the starting position. */
  function Prepared(length: real, stepped: Profile, outer: Profile, holes: seq<real>,
                    holeDiameters: seq<real>, holeLengths: seq<real>, flange: (real, real) -> real): Plan
    requires WellFormed(stepped) && WellFormed(outer)
    requires IndicesOk(SortEvents(Events(length, stepped.pos, holes)), Bore(stepped, holeDiameters, holeLengths))
  {
    var d0 := Eval(stepped, 0.0, true);
    PlanFrom(SortEvents(Events(length, stepped.pos, holes)), -flange(Eval(outer, 0.0, true), d0), d0,
             Bore(stepped, holeDiameters, holeLengths))
  }

  /** The events and actions of prepare once the inner profile is stepped. */
  method Schedule(length: real, stepped: Profile, outer: Profile, holes: seq<real>,
                  holeDiameters: seq<real>, holeLengths: seq<real>, flange: (real, real) -> real)
    returns (actions: seq<Action>, ok: bool)
    requires WellFormed(stepped) && WellFormed(outer)
    requires |holeDiameters| >= |holes| && |holeLengths| >= |holes|
    ensures IndicesOk(SortEvents(Events(length, stepped.pos, holes)), Bore(stepped, holeDiameters, holeLengths))
    ensures var p := Prepared(length, stepped, outer, holes, holeDiameters, holeLengths, flange);
      actions == p.actions && ok == p.ok
  {
    var events := BuildEvents(length, stepped.pos, holes);
    events := SortEvents(events);
    var b := Bore(stepped, holeDiameters, holeLengths);
    EventIndicesOk(length, holes, b);
    var diameter := Eval(stepped, 0.0, true);
    var position := -flange(Eval(outer, 0.0, true), diameter);
    actions, ok := Act(events, position, diameter, b);
  }

  // ----------------------------------------------------------- the class

  class Instrument {
    var length: real
    var inner: Profile
    var outer: Profile
    var innerHolePositions: seq<real>
    var holeDiameters: seq<real>
    var holeLengths: seq<real>
    var coneStep: real
    var steppedInner: Profile
    var actions: seq<Action>

    constructor (length: real, inner: Profile, outer: Profile, innerHolePositions: seq<real>,
                 holeDiameters: seq<real>, holeLengths: seq<real>, coneStep: real)
      ensures this.length == length && this.inner == inner && this.outer == outer
      ensures this.innerHolePositions == innerHolePositions
      ensures this.holeDiameters == holeDiameters && this.holeLengths == holeLengths
      ensures this.coneStep == coneStep && this.steppedInner == inner && this.actions == []
    {
      this.length := length;
      this.inner := inner;
      this.outer := outer;
      this.innerHolePositions := innerHolePositions;
      this.holeDiameters := holeDiameters;
      this.holeLengths := holeLengths;
      this.coneStep := coneStep;
      this.steppedInner := inner;
      this.actions := [];
    }

    /** prepare: step the inner profile, collect and sort the events, and
        turn them into actions; ok is false when a step's assertion fails,
        with the actions appended up to that point. */
    method Prepare(flange: (real, real) -> real) returns (ok: bool)
      requires WellFormed(inner) && |inner.pos| >= 2 && coneStep > 0.0 && WellFormed(outer)
      requires |holeDiameters| >= |innerHolePositions| && |holeLengths| >= |innerHolePositions|
      modifies this
      ensures unchanged(this`length, this`inner, this`outer, this`innerHolePositions)
      ensures unchanged(this`holeDiameters, this`holeLengths, this`coneStep)
      ensures WellFormed(steppedInner) && steppedInner.pos == SteppedPositions(inner, coneStep)
      ensures forall k :: 0 <= k < |steppedInner.pos| - 1 ==> steppedInner.high[k] == steppedInner.low[k + 1]
      ensures IndicesOk(SortEvents(Events(length, steppedInner.pos, innerHolePositions)),
                        Bore(steppedInner, holeDiameters, holeLengths))
      ensures var p := Prepared(length, steppedInner, outer, innerHolePositions, holeDiameters, holeLengths, flange);
        actions == p.actions && ok == p.ok
    {
      var st := AsStepped(inner, coneStep);
      var acts;
      acts, ok := Schedule(length, st, outer, innerHolePositions, holeDiameters, holeLengths, flange);
      steppedInner := st;
      actions := acts;
    }
  }
}
