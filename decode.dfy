// The command emitter and the action reordering of mill/old/decode.py: a
// Mover turns absolute positions into 'V' (speed) and 'Z' (move) commands,
// and the moves of a job are grouped into actions (tool-up to tool-up) that
// are greedily reordered to shorten the travel between them. The shift of
// decode.py is the same code as that of send.py and is modelled there.

module Decode {
  import opened Common
  import opened Send

  type Pos = (int, int, int)

  // ------------------------------------------------------------- shifting

  /** A canonical command: one that shift by (0, 0) gives back unchanged, i.e.
      not a move, or a move written 'Z%d,%d,%d' inside the work area. */
  predicate Canonical(item: string)
  {
    ShiftCommand(item, 0, 0) == Ok(item)
  }

  /** Shifting a canonical command by (x, y) and then by the opposite offset
      (backX, backY) = (-x, -y) gives it back, whenever the first shift succeeds. */
  lemma ShiftRoundTrip(item: string, x: int, y: int, backX: int, backY: int)
    requires backX == -x && backY == -y
    requires Canonical(item) && ShiftCommand(item, x, y).Ok?
    ensures ShiftCommand(ShiftCommand(item, x, y).value, backX, backY) == Ok(item)
  {
    if IsMove(item) {
      var a, b, c := CanonicalMove(item);
      var a2, b2 := a + x, b + y;
      ShiftMove(a, b, c, x, y, a2, b2);
      MoveRoundTrip(a, b, c, x, y, a2, b2, backX, backY);
    }
  }

  /** The round trip on a move inside the work area, (a2, b2) being the
      shifted position. */
  lemma MoveRoundTrip(a: int, b: int, c: int, x: int, y: int, a2: int, b2: int, backX: int, backY: int)
    requires a2 == a + x && b2 == b + y && backX == -x && backY == -y
    requires 0 <= a < MaxX && 0 <= b < MaxY && 0 <= a2 < MaxX && 0 <= b2 < MaxY
    ensures ShiftCommand(FormatZ(a2, b2, c), backX, backY) == Ok(FormatZ(a, b, c))
  {
    ShiftMoveOk(a2, b2, c, backX, backY, a, b);
  }

  /** A canonical move is the canonical text of a position in the work area. */
  lemma CanonicalMove(item: string) returns (a: int, b: int, c: int)
    requires Canonical(item) && IsMove(item)
    ensures item == FormatZ(a, b, c) && 0 <= a < MaxX && 0 <= b < MaxY
  {
    var pos := ParseFields(Split(item[1..], ',')).value;
    a, b, c := pos[0], pos[1], pos[2];
    assert pos[0] + 0 == a && pos[1] + 0 == b;
  }

  /** The same for a whole list: shifting back backY (backX, backY) = (-x, -y)
      restores every command. */
  lemma {:induction false} ShiftListRoundTrip(commands: seq<string>, shifted: seq<string>, x: int, y: int, backX: int, backY: int)
    requires backX == -x && backY == -y
    requires forall k :: 0 <= k < |commands| ==> Canonical(commands[k])
    requires |shifted| == |commands|
    requires forall k :: 0 <= k < |commands| ==> ShiftCommand(commands[k], x, y) == Ok(shifted[k])
    ensures forall k :: 0 <= k < |commands| ==> ShiftCommand(shifted[k], backX, backY) == Ok(commands[k])
  {
    forall k | 0 <= k < |commands|
      ensures ShiftCommand(shifted[k], backX, backY) == Ok(commands[k])
    {
      ShiftRoundTrip(commands[k], x, y, backX, backY);
    }
  }

  // ---------------------------------------------------------------- Mover

  /** '%d' of the tenths q: q / 10 with one decimal. */
  function TenthsText(q: int): (r: string)
    ensures |r| >= 3 && '.' in r
  {
    var m := IAbs(q);
    (if q < 0 then "-" else "") + Decimal(m / 10) + "." + [DigitChar(m % 10)]
  }

  /** 'V%.1f' % v, the speed command, rounding to tenths half up. */
  function SpeedCommand(v: real): (r: string)
    ensures |r| > 0 && r[0] == 'V' && !IsMove(r)
  {
    "V" + TenthsText(RoundHalfUp(v * 10.0))
  }

  /** A move command as written by the Mover. */
  function MoveCommand(p: Pos): (r: string)
    ensures IsMove(r)
  {
    FormatZ(p.0, p.1, p.2)
  }

  /** The commands goto appends on the way from `from` (at speed `speed`) to
      p at v: nothing when p is the current position, else a speed command
      when the speed changes, then the move. The speed of a move made before
      any 'V' command is None: going on at None emits no speed command, but
      changing a set speed to None fails, as 'V%.1f' % None raises a
      TypeError before anything is appended. */
  function GotoCommands(from: Pos, speed: Option<real>, p: Pos, v: Option<real>): (r: Result<seq<string>>)
    ensures r.Err? <==> p != from && speed != v && v.None?
    ensures r.Ok? && p == from ==> r.value == []
    ensures r.Ok? && p != from ==> |r.value| >= 1 && r.value[|r.value| - 1] == MoveCommand(p)
    ensures r.Ok? && p != from ==> (|r.value| == 2 <==> speed != v) && |r.value| <= 2
    ensures r.Ok? && |r.value| == 2 ==> r.value[0] == SpeedCommand(v.value)
  {
    if p == from then Ok([])
    else if speed == v then Ok([MoveCommand(p)])
    else if v.None? then Err("TypeError")
    else Ok([SpeedCommand(v.value), MoveCommand(p)])
  }

  /** Mover with smart = False, the only mode do_it uses. */
  class Mover {
    var commands: seq<string>
    var horizontalV: real
    var verticalV: real
    var ratio: real
    var end: seq<string>
    var pos: Pos
    var speed: Option<real>

    /** The start commands, then a move to the start position; the speed is
        unset. */
    constructor (horizontalV: real, verticalV: real, start: seq<string>, end: seq<string>, startPos: Pos)
      requires verticalV != 0.0
      ensures commands == start + [MoveCommand(startPos)]
      ensures this.horizontalV == horizontalV && this.verticalV == verticalV
      ensures ratio == horizontalV / verticalV
      ensures this.end == end && pos == startPos && speed == None
    {
      commands := start + [MoveCommand(startPos)];
      this.horizontalV := horizontalV;
      this.verticalV := verticalV;
      ratio := horizontalV / verticalV;
      this.end := end;
      pos := startPos;
      speed := None;
    }

    /** close: the end commands are appended. */
    method Close()
      modifies this`commands
      ensures commands == old(commands) + end
    {
      commands := commands + end;
    }

    /** goto: nothing when already at p; otherwise a speed command only when
        the speed changes, then exactly one move, and p becomes the current
        position. A change to the None speed is the TypeError, with nothing
        changed. */
    method Goto(p: Pos, v: Option<real>) returns (ok: bool)
      modifies this`commands, this`pos, this`speed
      ensures ok <==> GotoCommands(old(pos), old(speed), p, v).Ok?
      ensures ok ==> commands == old(commands) + GotoCommands(old(pos), old(speed), p, v).value
      ensures !ok ==> commands == old(commands) && pos == old(pos) && speed == old(speed)
      ensures p == old(pos) ==> pos == old(pos) && speed == old(speed)
      ensures ok && p != old(pos) ==> pos == p && speed == v
    {
      if p == pos {
        return true;
      }
      if speed != v {
        if v.None? {
          return false;
        }
        commands := commands + [SpeedCommand(v.value)];
        speed := v;
      }
      commands := commands + [MoveCommand(p)];
      pos := p;
      return true;
    }
  }

  /** Going to the same place twice emits nothing the second time. */
  lemma GotoTwice(from: Pos, speed: Option<real>, p: Pos, v: Option<real>)
    requires p != from && GotoCommands(from, speed, p, v).Ok?
    ensures GotoCommands(p, v, p, v) == Ok([])
    ensures |GotoCommands(from, speed, p, v).value| >= 1
  {
  }

  /** Keeping the speed, a goto emits exactly one command, the move. */
  lemma GotoSameSpeed(from: Pos, p: Pos, v: Option<real>)
    requires p != from
    ensures GotoCommands(from, v, p, v) == Ok([MoveCommand(p)])
  {
  }

  /** Moves made before the first 'V' command carry no speed: while the
      speed is unset they emit only the move. */
  lemma GotoUnsetSpeed(from: Pos, p: Pos)
    requires p != from
    ensures GotoCommands(from, None, p, None) == Ok([MoveCommand(p)])
  {
  }

  /** Once a speed is set, a move without one fails. */
  lemma GotoUnsetAfterSet(from: Pos, p: Pos, v: real)
    requires p != from
    ensures GotoCommands(from, Some(v), p, None).Err?
  {
  }

  // --------------------------------------------------------------- Action

  datatype Motion = Motion(pos: Pos, v: Option<real>)

  /** An action: its motions, the per-axis (min, max) of their positions,
      and whether it fits in 6 mm (240 steps) in both x and y. */
  datatype Action = Action(motions: seq<Motion>, lo: Pos, hi: Pos, small: bool)

  /** lo and hi bound every motion of the action. */
  predicate Encloses(a: Action)
  {
    forall k :: 0 <= k < |a.motions| ==>
      && a.lo.0 <= a.motions[k].pos.0 <= a.hi.0
      && a.lo.1 <= a.motions[k].pos.1 <= a.hi.1
      && a.lo.2 <= a.motions[k].pos.2 <= a.hi.2
  }

  predicate WellBuilt(a: Action)
  {
    |a.motions| > 0 && Encloses(a) && a.lo.0 <= a.hi.0 && a.lo.1 <= a.hi.1 && a.lo.2 <= a.hi.2
  }

  /** Action(motions): the bounds are the per-axis minimum and maximum of
      the motions' positions (min of an empty list raises ValueError). */
  method NewAction(motions: seq<Motion>) returns (r: Result<Action>)
    ensures r.Err? <==> |motions| == 0
    ensures r.Ok? ==> WellBuilt(r.value) && r.value.motions == motions
    ensures r.Ok? ==> var a := r.value;
      && (exists k :: 0 <= k < |motions| && motions[k].pos.0 == a.lo.0)
      && (exists k :: 0 <= k < |motions| && motions[k].pos.0 == a.hi.0)
      && (exists k :: 0 <= k < |motions| && motions[k].pos.1 == a.lo.1)
      && (exists k :: 0 <= k < |motions| && motions[k].pos.1 == a.hi.1)
      && (exists k :: 0 <= k < |motions| && motions[k].pos.2 == a.lo.2)
      && (exists k :: 0 <= k < |motions| && motions[k].pos.2 == a.hi.2)
    ensures r.Ok? ==> var a := r.value;
      a.small <==> a.hi.0 - a.lo.0 <= 6 * 40 && a.hi.1 - a.lo.1 <= 6 * 40
  {
    if |motions| == 0 {
      return Err("min() arg is an empty sequence");
    }
    var lo := motions[0].pos;
    var hi := motions[0].pos;
    ghost var wlx, whx, wly, why, wlz, whz := 0, 0, 0, 0, 0, 0;
    for i := 1 to |motions|
      invariant lo.0 <= hi.0 && lo.1 <= hi.1 && lo.2 <= hi.2
      invariant forall k :: 0 <= k < i ==>
        && lo.0 <= motions[k].pos.0 <= hi.0
        && lo.1 <= motions[k].pos.1 <= hi.1
        && lo.2 <= motions[k].pos.2 <= hi.2
      invariant wlx < i && whx < i && wly < i && why < i && wlz < i && whz < i
      invariant motions[wlx].pos.0 == lo.0 && motions[whx].pos.0 == hi.0
      invariant motions[wly].pos.1 == lo.1 && motions[why].pos.1 == hi.1
      invariant motions[wlz].pos.2 == lo.2 && motions[whz].pos.2 == hi.2
    {
      var p := motions[i].pos;
      if p.0 < lo.0 { lo := (p.0, lo.1, lo.2); wlx := i; }
      if p.0 > hi.0 { hi := (p.0, hi.1, hi.2); whx := i; }
      if p.1 < lo.1 { lo := (lo.0, p.1, lo.2); wly := i; }
      if p.1 > hi.1 { hi := (hi.0, p.1, hi.2); why := i; }
      if p.2 < lo.2 { lo := (lo.0, lo.1, p.2); wlz := i; }
      if p.2 > hi.2 { hi := (hi.0, hi.1, p.2); whz := i; }
    }
    var small := hi.0 - lo.0 <= 6 * 40 && hi.1 - lo.1 <= 6 * 40;
    r := Ok(Action(motions, lo, hi, small));
  }

  /** cost_to_move_to: the squared xy distance from the end of a to the
      start of b. */
  function CostToMoveTo(a: Action, b: Action): (c: int)
    requires |a.motions| > 0 && |b.motions| > 0
    ensures c >= 0
    ensures c == 0 <==> (a.motions[|a.motions| - 1].pos.0 == b.motions[0].pos.0 &&
                         a.motions[|a.motions| - 1].pos.1 == b.motions[0].pos.1)
  {
    var me := a.motions[|a.motions| - 1].pos;
    var it := b.motions[0].pos;
    var dx := it.0 - me.0;
    var dy := it.1 - me.1;
    SquaresZero(dx, dy);
    dx * dx + dy * dy
  }

  lemma SquaresZero(dx: int, dy: int)
    ensures dx * dx + dy * dy >= 0
    ensures dx * dx + dy * dy == 0 <==> dx == 0 && dy == 0
  {
    if dx != 0 {
      assert dx * dx > 0 by { if dx < 0 { assert dx * dx == (-dx) * (-dx); } }
    }
    if dy != 0 {
      assert dy * dy > 0 by { if dy < 0 { assert dy * dy == (-dy) * (-dy); } }
    }
  }

  /** blocked_by: the xy boxes of the two actions, grown by the tool
      diameter, overlap. */
  predicate BlockedBy(a: Action, b: Action, toolDiam: real)
  {
    && b.lo.0 as real <= a.hi.0 as real + toolDiam && a.lo.0 as real <= b.hi.0 as real + toolDiam
    && b.lo.1 as real <= a.hi.1 as real + toolDiam && a.lo.1 as real <= b.hi.1 as real + toolDiam
  }

  /** Blocking is symmetric, and an action with sensible bounds blocks
      itself for any non-negative tool diameter. */
  lemma BlockedBySymmetric(a: Action, b: Action, toolDiam: real)
    ensures BlockedBy(a, b, toolDiam) <==> BlockedBy(b, a, toolDiam)
  {
  }

  lemma BlockedByReflexive(a: Action, toolDiam: real)
    requires WellBuilt(a) && toolDiam >= 0.0
    ensures BlockedBy(a, a, toolDiam)
  {
  }

  /** Two actions some of whose motions share an xy position block each
      other for any non-negative tool diameter. */
  lemma SharedPointBlocks(a: Action, b: Action, i: nat, j: nat, toolDiam: real)
    requires Encloses(a) && Encloses(b) && toolDiam >= 0.0
    requires i < |a.motions| && j < |b.motions|
    requires a.motions[i].pos.0 == b.motions[j].pos.0 && a.motions[i].pos.1 == b.motions[j].pos.1
    ensures BlockedBy(a, b, toolDiam)
  {
  }

  // ------------------------------------------------------ greedy reordering

  /** Action i may be taken next: no action before it in the remaining list
      is in its way. */
  predicate Unblocked(actions: seq<Action>, i: nat, toolDiam: real)
    requires i < |actions|
  {
    forall j :: 0 <= j < i ==> !BlockedBy(actions[i], actions[j], toolDiam)
  }

  /** The for/else scan from i-1 down to 0. */
  method CheckUnblocked(actions: seq<Action>, i: nat, toolDiam: real) returns (free: bool)
    requires i < |actions|
    ensures free == Unblocked(actions, i, toolDiam)
  {
    var j := i;
    while j > 0
      invariant 0 <= j <= i
      invariant forall m :: j <= m < i ==> !BlockedBy(actions[i], actions[m], toolDiam)
    {
      j := j - 1;
      if BlockedBy(actions[i], actions[j], toolDiam) {
        return false;
      }
    }
    return true;
  }

  /** How far down the remaining list the search looks. */
  const Lookahead: nat := 50

  /** Every action has a motion, so it has a start and an end. */
  predicate AllMove(actions: seq<Action>)
  {
    forall k :: 0 <= k < |actions| ==> |actions[k].motions| > 0
  }

  predicate AllWellBuilt(actions: seq<Action>)
  {
    forall k :: 0 <= k < |actions| ==> WellBuilt(actions[k])
  }

  /** The choice of the next action: among the first 51 remaining actions
      that nothing earlier blocks (the first one always qualifies), the
      first with the least cost from the last action taken. */
  method PickBest(last: Action, actions: seq<Action>, toolDiam: real) returns (best: nat)
    requires |last.motions| > 0 && |actions| > 0 && AllMove(actions)
    ensures best < |actions| && best <= Lookahead && Unblocked(actions, best, toolDiam)
    ensures forall i :: 0 <= i < |actions| && i <= Lookahead && Unblocked(actions, i, toolDiam) ==>
      CostToMoveTo(last, actions[best]) <= CostToMoveTo(last, actions[i])
    ensures forall i :: 0 <= i < best && Unblocked(actions, i, toolDiam) ==>
      CostToMoveTo(last, actions[best]) < CostToMoveTo(last, actions[i])
  {
    best := 0;
    var bestScore := CostToMoveTo(last, actions[0]);
    var i := 0;
    while i < |actions| && i <= Lookahead
      invariant 0 <= i <= |actions| && i <= Lookahead + 1
      invariant BestSoFar(last, actions, toolDiam, i, best, bestScore)
    {
      var best', bestScore' := Consider(last, actions, toolDiam, i, best, bestScore);
      BestStep(last, actions, toolDiam, i, best, bestScore, best', bestScore');
      best, bestScore := best', bestScore';
      i := i + 1;
    }
  }

  /** The loop invariant of the search after the first n candidates: best is
      the first of the cheapest unblocked ones. */
  predicate BestSoFar(last: Action, actions: seq<Action>, toolDiam: real, n: nat, best: nat, bestScore: int)
    requires |last.motions| > 0 && AllMove(actions)
  {
    && best < |actions| && best <= Lookahead && (best < n || best == 0)
    && bestScore == CostToMoveTo(last, actions[best])
    && Unblocked(actions, best, toolDiam)
    && (forall m :: 0 <= m < n && m < |actions| && Unblocked(actions, m, toolDiam) ==>
          bestScore <= CostToMoveTo(last, actions[m]))
    && (forall m :: 0 <= m < best && Unblocked(actions, m, toolDiam) ==>
          bestScore < CostToMoveTo(last, actions[m]))
  }

  lemma BestStep(last: Action, actions: seq<Action>, toolDiam: real, i: nat, best: nat, bestScore: int,
                 best': nat, bestScore': int)
    requires |last.motions| > 0 && AllMove(actions) && i < |actions| && i <= Lookahead
    requires BestSoFar(last, actions, toolDiam, i, best, bestScore)
    requires var score := CostToMoveTo(last, actions[i]);
      if score < bestScore && Unblocked(actions, i, toolDiam) then best' == i && bestScore' == score
      else best' == best && bestScore' == bestScore
    ensures BestSoFar(last, actions, toolDiam, i + 1, best', bestScore')
  {
  }

  /** One round of the search: action i replaces the best so far when it is
      strictly cheaper and unblocked (blocking is only checked then). */
  method Consider(last: Action, actions: seq<Action>, toolDiam: real, i: nat, best: nat, bestScore: int)
    returns (best': nat, bestScore': int)
    requires |last.motions| > 0 && i < |actions| && AllMove(actions)
    ensures var score := CostToMoveTo(last, actions[i]);
      if score < bestScore && Unblocked(actions, i, toolDiam) then best' == i && bestScore' == score
      else best' == best && bestScore' == bestScore
  {
    best', bestScore' := best, bestScore;
    var score := CostToMoveTo(last, actions[i]);
    if score < bestScore {
      var free := CheckUnblocked(actions, i, toolDiam);
      if free {
        bestScore' := score;
        best' := i;
      }
    }
  }

  /** The reordering loop of do_it: the first action stays first, then the
      best next action is popped from the remaining ones until none is left.
      The result is a permutation of the input. */
  method Reorder(actions: seq<Action>, toolDiam: real) returns (order: seq<Action>)
    requires |actions| > 0 && AllWellBuilt(actions)
    ensures |order| == |actions| && order[0] == actions[0]
    ensures multiset(order) == multiset(actions)
  {
    order := [actions[0]];
    var rest := actions[1..];
    assert actions == [actions[0]] + rest;
    while |rest| > 0
      invariant |order| > 0 && order[0] == actions[0] && AllWellBuilt(order) && AllWellBuilt(rest)
      invariant multiset(order) + multiset(rest) == multiset(actions)
      invariant |order| + |rest| == |actions|
      decreases |rest|
    {
      WellBuiltMove(order);
      WellBuiltMove(rest);
      var best := PickBest(order[|order| - 1], rest, toolDiam);
      var picked := rest[best];
      TakeOut(rest, best);
      AppendWellBuilt(order, picked);
      order := order + [picked];
      rest := rest[..best] + rest[best + 1..];
    }
  }

  /** Popping entry i keeps the others, all still well built. */
  lemma TakeOut(s: seq<Action>, i: nat)
    requires i < |s| && AllWellBuilt(s)
    ensures WellBuilt(s[i]) && AllWellBuilt(s[..i] + s[i + 1..])
    ensures multiset(s[..i] + s[i + 1..]) + multiset{s[i]} == multiset(s)
    ensures |s[..i] + s[i + 1..]| == |s| - 1
  {
    assert s == s[..i] + [s[i]] + s[i + 1..];
    var t := s[..i] + s[i + 1..];
    forall k | 0 <= k < |t|
      ensures WellBuilt(t[k])
    {
      if k < i { assert t[k] == s[k]; } else { assert t[k] == s[k + 1]; }
    }
  }

  lemma WellBuiltMove(s: seq<Action>)
    requires AllWellBuilt(s)
    ensures AllMove(s)
  {
    forall k | 0 <= k < |s|
      ensures |s[k].motions| > 0
    {
      assert WellBuilt(s[k]);
    }
  }

  lemma AppendWellBuilt(s: seq<Action>, a: Action)
    requires AllWellBuilt(s) && WellBuilt(a)
    ensures AllWellBuilt(s + [a])
  {
    forall k | 0 <= k < |s| + 1
      ensures WellBuilt((s + [a])[k])
    {
      if k < |s| { assert (s + [a])[k] == s[k]; }
    }
  }
}
