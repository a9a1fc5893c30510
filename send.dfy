// The toolpath commands of mill/send.py: a .prn file is a ';'-separated list
// of mill commands; 'Z' commands are absolute moves 'Zx,y,z' in 1/40 mm, and
// sending a file at an offset shifts the x and y of every move from the
// '!MC1' (motor on) command onwards. The serial port is not modelled.

module Send {
  import opened Common

  /** The work area in 1/40 mm. */
  const MaxX: int := 200 * 40
  const MaxY: int := 150 * 40
  const MaxZ: int := 2420

  /** 'Z%d,%d,%d' % (x, y, z). */
  function FormatZ(x: int, y: int, z: int): (r: string)
    ensures |r| > 0 && r[0] == 'Z'
  {
    "Z" + Join([IntText(x), IntText(y), IntText(z)], ',')
  }

  /** map(int, text.split(',')): None when some field is not an integer. */
  function ParseFields(fields: seq<string>): (r: Option<seq<int>>)
    ensures r.Some? ==> |r.value| == |fields|
    ensures r.Some? ==> forall k :: 0 <= k < |fields| ==> ParseInt(fields[k]) == Some(r.value[k])
  {
    if |fields| == 0 then Some([])
    else
      match ParseInt(fields[0])
      case None => None
      case Some(v) =>
        match ParseFields(fields[1..])
        case None => None
        case Some(rest) => Some([v] + rest)
  }

  predicate IsMove(item: string)
  {
    |item| > 0 && item[0] == 'Z'
  }

  /** One command of shift: anything but a move is kept; a move has its x
      and y offset, must stay inside the work area, and is written back in
      canonical form. The errors are those Python raises, in its order. */
  function ShiftCommand(item: string, x: int, y: int): (r: Result<string>)
    ensures !IsMove(item) ==> r == Ok(item)
    ensures r.Ok? && IsMove(item) ==> IsMove(r.value)
  {
    if !IsMove(item) then Ok(item)
    else
      match ParseFields(Split(item[1..], ','))
      case None => Err("invalid literal for int()")
      case Some(pos) => ShiftFields(pos, x, y)
  }

  /** The fields of a move, offset, checked and written back. */
  function ShiftFields(pos: seq<int>, x: int, y: int): (r: Result<string>)
    ensures r.Ok? ==> IsMove(r.value)
  {
    if |pos| < 2 then Err("list index out of range")
    else if !(0 <= pos[0] + x < MaxX) then Err("outside work area on x axis")
    else if !(0 <= pos[1] + y < MaxY) then Err("outside work area on y axis")
    else if |pos| != 3 then Err("wrong number of arguments for format string")
    else Ok(FormatZ(pos[0] + x, pos[1] + y, pos[2]))
  }

  /** The move text 'Zx,y,z' in canonical form reads back as (x, y, z). */
  lemma ParseFormatZ(x: int, y: int, z: int)
    ensures FormatZ(x, y, z)[1..] == Join([IntText(x), IntText(y), IntText(z)], ',')
    ensures ParseFields(Split(FormatZ(x, y, z)[1..], ',')) == Some([x, y, z])
  {
    var parts := [IntText(x), IntText(y), IntText(z)];
    SplitJoin(parts, ',');
    assert FormatZ(x, y, z)[1..] == Join(parts, ',');
    ParseIntText(x);
    ParseIntText(y);
    ParseIntText(z);
    ParseThree(parts, x, y, z);
  }

  lemma ParseThree(parts: seq<string>, x: int, y: int, z: int)
    requires parts == [IntText(x), IntText(y), IntText(z)]
    requires ParseInt(parts[0]) == Some(x) && ParseInt(parts[1]) == Some(y) && ParseInt(parts[2]) == Some(z)
    ensures ParseFields(parts) == Some([x, y, z])
  {
    var tail2 := parts[1..][1..];
    assert tail2 == [parts[2]] && tail2[1..] == [];
    assert tail2[0] == parts[2];
    assert ParseFields(tail2[1..]) == Some([]);
    assert [z] + [] == [z];
    assert ParseFields(tail2) == Some([z]);
    assert parts[1..][0] == parts[1];
    assert [y] + [z] == [y, z];
    assert ParseFields(parts[1..]) == Some([y, z]);
    assert [x] + [y, z] == [x, y, z];
  }

  /** A canonical move is shifted exactly when it stays inside the work area,
      and then becomes the canonical move to the offset position (a2, b2). */
  lemma ShiftMove(a: int, b: int, c: int, x: int, y: int, a2: int, b2: int)
    requires a2 == a + x && b2 == b + y
    ensures ShiftCommand(FormatZ(a, b, c), x, y).Ok? <==> 0 <= a2 < MaxX && 0 <= b2 < MaxY
    ensures ShiftCommand(FormatZ(a, b, c), x, y).Ok? ==>
      ShiftCommand(FormatZ(a, b, c), x, y) == Ok(FormatZ(a2, b2, c))
  {
    var item := FormatZ(a, b, c);
    ParseFormatZ(a, b, c);
    ShiftParsed(item, x, y, [a, b, c]);
    ShiftThree(a, b, c, x, y, a2, b2);
  }

  /** A move whose fields parse is shifted by ShiftFields. */
  lemma ShiftParsed(item: string, x: int, y: int, pos: seq<int>)
    requires IsMove(item) && ParseFields(Split(item[1..], ',')) == Some(pos)
    ensures ShiftCommand(item, x, y) == ShiftFields(pos, x, y)
  { }

  /** Three fields are shifted exactly when the offset position (a2, b2) is
      inside the work area. */
  lemma ShiftThree(a: int, b: int, c: int, x: int, y: int, a2: int, b2: int)
    requires a2 == a + x && b2 == b + y
    ensures ShiftFields([a, b, c], x, y).Ok? <==> 0 <= a2 < MaxX && 0 <= b2 < MaxY
    ensures ShiftFields([a, b, c], x, y).Ok? ==> ShiftFields([a, b, c], x, y) == Ok(FormatZ(a2, b2, c))
  {
    var pos := [a, b, c];
    assert pos[0] == a && pos[1] == b && pos[2] == c && |pos| == 3;
  }

  /** The successful case of ShiftMove alone. */
  lemma ShiftMoveOk(a: int, b: int, c: int, x: int, y: int, a2: int, b2: int)
    requires a2 == a + x && b2 == b + y && 0 <= a2 < MaxX && 0 <= b2 < MaxY
    ensures ShiftCommand(FormatZ(a, b, c), x, y) == Ok(FormatZ(a2, b2, c))
  {
    ShiftMove(a, b, c, x, y, a2, b2);
  }

  /** shift: every command shifted, in order; the first failing command
      raises, which the model reports as Err. */
  method Shift(commands: seq<string>, x: int, y: int) returns (r: Result<seq<string>>)
    ensures r.Ok? <==> forall k :: 0 <= k < |commands| ==> ShiftCommand(commands[k], x, y).Ok?
    ensures r.Ok? ==> |r.value| == |commands|
    ensures r.Ok? ==> forall k :: 0 <= k < |commands| ==> r.value[k] == ShiftCommand(commands[k], x, y).value
  {
    var result: seq<string> := [];
    for i := 0 to |commands|
      invariant ShiftedUpTo(commands, x, y, i, result)
    {
      var shifted := ShiftCommand(commands[i], x, y);
      if shifted.Err? {
        return Err(shifted.message);
      }
      ShiftedStep(commands, x, y, i, result, shifted.value);
      result := result + [shifted.value];
    }
    ShiftedAll(commands, x, y, result);
    return Ok(result);
  }

  /** The loop invariant of shift: the first n commands shifted into result. */
  predicate ShiftedUpTo(commands: seq<string>, x: int, y: int, n: nat, result: seq<string>)
  {
    |result| == n <= |commands| &&
    forall k :: 0 <= k < n ==> ShiftCommand(commands[k], x, y) == Ok(result[k])
  }

  lemma ShiftedStep(commands: seq<string>, x: int, y: int, n: nat, result: seq<string>, v: string)
    requires ShiftedUpTo(commands, x, y, n, result) && n < |commands|
    requires ShiftCommand(commands[n], x, y) == Ok(v)
    ensures ShiftedUpTo(commands, x, y, n + 1, result + [v])
  {
    var next := result + [v];
    forall k | 0 <= k < n + 1
      ensures ShiftCommand(commands[k], x, y) == Ok(next[k])
    {
      if k < n { assert next[k] == result[k]; }
    }
  }

  lemma ShiftedAll(commands: seq<string>, x: int, y: int, result: seq<string>)
    requires ShiftedUpTo(commands, x, y, |commands|, result)
    ensures forall k :: 0 <= k < |commands| ==> ShiftCommand(commands[k], x, y).Ok?
    ensures |result| == |commands|
    ensures forall k :: 0 <= k < |commands| ==> result[k] == ShiftCommand(commands[k], x, y).value
  { }

  /** The file text as commands: stripped, trailing ';'s removed, split on
      ';', and each command stripped. */
  function SplitCommands(text: string): (r: seq<string>)
    ensures |r| >= 1
    ensures forall k :: 0 <= k < |r| ==> ';' !in r[k]
  {
    var body := TrimEnd(Strip(text), {';'});
    SplitFree(body, ';');
    var pieces := Split(body, ';');
    seq(|pieces|, k requires 0 <= k < |pieces| => Strip(pieces[k]))
  }

  /** Stripping keeps a contiguous part of the text. */
  lemma StripInside(s: string)
    ensures forall c :: c in Strip(s) ==> c in s
  {
    var t := TrimStart(s, Whitespace);
    forall c | c in Strip(s) ensures c in s {
      var k :| 0 <= k < |Strip(s)| && Strip(s)[k] == c;
      assert Strip(s)[k] == t[k] == s[|s| - |t| + k];
    }
  }

  /** Joined with ';', the unstripped pieces give back the text without its
      surrounding whitespace and trailing ';'s. */
  lemma SplitCommandsCover(text: string)
    ensures var body := TrimEnd(Strip(text), {';'});
      Join(Split(body, ';'), ';') == body && |SplitCommands(text)| == |Split(body, ';')|
  {
    JoinSplit(TrimEnd(Strip(text), {';'}), ';');
  }

  /** int(v * 40): a length in mm as a whole number of 1/40 mm steps. */
  function Offset(v: real): (r: int)
    ensures v >= 0.0 ==> r as real <= v * 40.0 < r as real + 1.0
    ensures v < 0.0 ==> r as real - 1.0 < v * 40.0 <= r as real
  {
    Trunc(v * 40.0)
  }

  /** The commands before the first '!MC1' kept, the rest shifted. */
  method ShiftBody(commands: seq<string>, x: int, y: int) returns (r: Result<seq<string>>)
    ensures "!MC1" !in commands ==> r.Err?
    ensures "!MC1" in commands ==>
      var start := FirstIndex(commands, "!MC1");
      (r.Ok? <==> forall k :: start <= k < |commands| ==> ShiftCommand(commands[k], x, y).Ok?)
    ensures r.Ok? ==>
      var start := FirstIndex(commands, "!MC1");
      && |r.value| == |commands|
      && r.value[..start] == commands[..start]
      && forall k :: start <= k < |commands| ==> ShiftCommand(commands[k], x, y) == Ok(r.value[k])
  {
    if "!MC1" !in commands {
      return Err("'!MC1' is not in list");
    }
    var start := FirstIndex(commands, "!MC1");
    var body := commands[start..];
    var shifted := Shift(body, x, y);
    if shifted.Err? {
      SuffixOk(commands, start, x, y);
      return Err(shifted.message);
    }
    r := Ok(commands[..start] + shifted.value);
    SuffixShifted(commands, start, x, y, shifted.value);
  }

  /** The commands from start on all shift exactly when those of the slice do. */
  lemma SuffixOk(commands: seq<string>, start: nat, x: int, y: int)
    requires start <= |commands|
    ensures (forall k :: 0 <= k < |commands[start..]| ==> ShiftCommand(commands[start..][k], x, y).Ok?) <==>
      (forall k :: start <= k < |commands| ==> ShiftCommand(commands[k], x, y).Ok?)
  {
    var body := commands[start..];
    forall k | 0 <= k < |body|
      ensures body[k] == commands[start + k]
    { }
  }

  /** The kept prefix followed by the shifted slice is the shifted list. */
  lemma SuffixShifted(commands: seq<string>, start: nat, x: int, y: int, v: seq<string>)
    requires start <= |commands|
    requires |v| == |commands| - start
    requires forall k :: 0 <= k < |v| ==> ShiftCommand(commands[start..][k], x, y).Ok?
    requires forall k :: 0 <= k < |v| ==> v[k] == ShiftCommand(commands[start..][k], x, y).value
    ensures var r := commands[..start] + v;
      && |r| == |commands|
      && r[..start] == commands[..start]
      && forall k :: start <= k < |commands| ==> ShiftCommand(commands[k], x, y) == Ok(r[k])
  {
    var body := commands[start..];
    var r := commands[..start] + v;
    forall k | start <= k < |commands|
      ensures ShiftCommand(commands[k], x, y) == Ok(r[k])
    {
      assert body[k - start] == commands[k];
      assert r[k] == v[k - start];
    }
    assert r[..start] == commands[..start];
  }

  /** Send.run: the commands before the first '!MC1' are sent as they are,
      the rest shifted by the offset converted to 1/40 mm with int(). */
  method Run(text: string, x: real, y: real) returns (r: Result<seq<string>>)
    ensures "!MC1" !in SplitCommands(text) ==> r.Err?
    ensures r.Ok? ==>
      var commands := SplitCommands(text);
      var start := FirstIndex(commands, "!MC1");
      && |r.value| == |commands|
      && r.value[..start] == commands[..start]
      && forall k :: start <= k < |commands| ==> ShiftCommand(commands[k], Offset(x), Offset(y)) == Ok(r.value[k])
  {
    var commands := SplitCommands(text);
    r := ShiftBody(commands, Offset(x), Offset(y));
  }

  /** The '!MC1' command itself is not a move, so it is sent unchanged. */
  lemma MotorOnUnchanged(x: int, y: int)
    ensures ShiftCommand("!MC1", x, y) == Ok("!MC1")
  {
  }

  /** The scan for the end of the body in run and do_it: the first command
      at or after start that begins with '!', or the end of the list (start
      itself when it is already past the end). */
  method BodyEnd(commands: seq<string>, start: nat) returns (end: nat)
    ensures end >= start
    ensures start <= |commands| ==> end <= |commands|
    ensures forall k :: start <= k < end && k < |commands| ==> !(|commands[k]| > 0 && commands[k][0] == '!')
    ensures end < |commands| ==> |commands[end]| > 0 && commands[end][0] == '!'
    ensures start >= |commands| ==> end == start
  {
    end := start;
    while end < |commands| && commands[end][..MinI(1, |commands[end]|)] != "!"
      invariant end >= start
      invariant start <= |commands| ==> end <= |commands|
      invariant start >= |commands| ==> end == start
      invariant forall k :: start <= k < end && k < |commands| ==> !(|commands[k]| > 0 && commands[k][0] == '!')
    {
      assert commands[end][..MinI(1, |commands[end]|)] == (if |commands[end]| > 0 then [commands[end][0]] else []);
      end := end + 1;
    }
    if end < |commands| {
      assert commands[end][..MinI(1, |commands[end]|)] == (if |commands[end]| > 0 then [commands[end][0]] else []);
    }
  }
}
