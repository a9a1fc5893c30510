// Command-line helpers of demakein/config.py: file-name sanitising, flag
// extraction, the flag/section checks, command splitting, booleans, the
// shell names of parameters, parameter ordering and section parsing.

module Config {
  import opened Common

  /** The characters filesystem_friendly_name replaces with '_'. */
  predicate Special(c: char)
  {
    c in "'\"<>&|/\\_ ."
  }

  /** The name with every special character replaced by '_'. */
  function FriendlyOf(name: string): (r: string)
    ensures |r| == |name|
    ensures forall k :: 0 <= k < |name| ==> r[k] == if Special(name[k]) then '_' else name[k]
  {
    seq(|name|, k requires 0 <= k < |name| => if Special(name[k]) then '_' else name[k])
  }

  /** str.replace for single characters. */
  function ReplaceChar(s: string, from: char, to: char): (r: string)
    ensures |r| == |s|
    ensures forall k :: 0 <= k < |s| ==> r[k] == if s[k] == from then to else s[k]
  {
    seq(|s|, k requires 0 <= k < |s| => if s[k] == from then to else s[k])
  }

  /** filesystem_friendly_name: one replace pass per special character. */
  method FilesystemFriendlyName(name: string) returns (r: string)
    ensures r == FriendlyOf(name)
  {
    var specials := "'\"<>&|/\\_ .";
    r := name;
    for i := 0 to |specials|
      invariant |r| == |name|
      invariant forall k :: 0 <= k < |name| ==>
        r[k] == if name[k] in specials[..i] then '_' else name[k]
    {
      r := ReplaceChar(r, specials[i], '_');
    }
    assert specials[..|specials|] == specials;
  }

  /** The result keeps the length, has no special character left but '_', and
      sanitising twice changes nothing more. */
  lemma FriendlyIdempotent(name: string)
    ensures FriendlyOf(FriendlyOf(name)) == FriendlyOf(name)
    ensures forall k :: 0 <= k < |name| ==> !Special(FriendlyOf(name)[k]) || FriendlyOf(name)[k] == '_'
  {
    var once := FriendlyOf(name);
    assert forall k :: 0 <= k < |once| ==> FriendlyOf(once)[k] == once[k];
  }

  // get_flag_value

  /** The last value seen and the arguments left once every occurrence of the
      option and its argument are taken out, left to right. */
  function ScanFlag<V>(args: seq<string>, option: string, convert: string -> Option<V>): (r: Result<(Option<V>, seq<string>)>)
    ensures r.Ok? ==> option !in r.value.1
  {
    if |args| == 0 then Ok((None, []))
    else if args[0] == option then
      if |args| == 1 then Err("Option " + option + " requires a paramter")
      else
        match convert(args[1])
        case None => Err("Option for " + option + " not in expected format")
        case Some(v) =>
          match ScanFlag(args[2..], option, convert)
          case Err(m) => Err(m)
          case Ok((later, rest)) => Ok((if later.Some? then later else Some(v), rest))
    else
      match ScanFlag(args[1..], option, convert)
      case Err(m) => Err(m)
      case Ok((v, rest)) => Ok((v, [args[0]] + rest))
  }

  /** The value so far, overridden by any later one. */
  function Override<V>(value: Option<V>, later: Result<(Option<V>, seq<string>)>): Result<(Option<V>, seq<string>)>
  {
    match later
    case Err(m) => Err(m)
    case Ok((v, rest)) => Ok((if v.Some? then v else value, rest))
  }

  /** Arguments before the first occurrence pass through unchanged. */
  lemma {:induction false} ScanPrefix<V>(prefix: seq<string>, tail: seq<string>, option: string, convert: string -> Option<V>)
    requires option !in prefix
    ensures ScanFlag(prefix + tail, option, convert) ==
      match ScanFlag(tail, option, convert)
      case Err(m) => Err(m)
      case Ok((v, rest)) => Ok((v, prefix + rest))
  {
    if |prefix| > 0 {
      assert (prefix + tail)[1..] == prefix[1..] + tail;
      ScanPrefix(prefix[1..], tail, option, convert);
      if ScanFlag(tail, option, convert).Ok? {
        assert [prefix[0]] + (prefix[1..] + ScanFlag(tail, option, convert).value.1) ==
          prefix + ScanFlag(tail, option, convert).value.1;
      }
    } else {
      assert prefix + tail == tail;
      if ScanFlag(tail, option, convert).Ok? {
        assert prefix + ScanFlag(tail, option, convert).value.1 == ScanFlag(tail, option, convert).value.1;
      }
    }
  }

  /** One round of the loop: take out the first occurrence and its argument. */
  lemma ScanFirstOccurrence<V>(args: seq<string>, loc: nat, option: string, convert: string -> Option<V>)
    requires loc + 1 < |args| && args[loc] == option && option !in args[..loc]
    requires convert(args[loc + 1]).Some?
    ensures ScanFlag(args, option, convert) ==
      Override(convert(args[loc + 1]), ScanFlag(args[..loc] + args[loc + 2..], option, convert))
  {
    var tail := args[loc..];
    assert args == args[..loc] + tail;
    ScanPrefix(args[..loc], tail, option, convert);
    ScanPrefix(args[..loc], args[loc + 2..], option, convert);
    assert tail[2..] == args[loc + 2..];
  }

  lemma ScanLast<V>(args: seq<string>, option: string, convert: string -> Option<V>)
    requires |args| > 0 && args[|args| - 1] == option && option !in args[..|args| - 1]
    ensures ScanFlag(args, option, convert).Err?
  {
    assert args == args[..|args| - 1] + [option];
    ScanPrefix(args[..|args| - 1], [option], option, convert);
  }

  lemma ScanBadValue<V>(args: seq<string>, loc: nat, option: string, convert: string -> Option<V>)
    requires loc + 1 < |args| && args[loc] == option && option !in args[..loc]
    requires convert(args[loc + 1]).None?
    ensures ScanFlag(args, option, convert).Err?
  {
    assert args == args[..loc] + args[loc..];
    ScanPrefix(args[..loc], args[loc..], option, convert);
  }

  /** get_flag_value on a copy of the arguments: returns whether the option was
      present, the last converted value, and the arguments without the option. */
  method GetFlagValue<V>(args: seq<string>, option: string, convert: string -> Option<V>)
    returns (r: Result<(bool, Option<V>, seq<string>)>)
    ensures ScanFlag(args, option, convert).Err? <==> r.Err?
    ensures r.Ok? ==> r.value.0 == r.value.1.Some?
    ensures r.Ok? ==> (r.value.1, r.value.2) == ScanFlag(args, option, convert).value
  {
    var rest := args;
    var value: Option<V> := None;
    while option in rest
      invariant ScanFlag(args, option, convert) == Override(value, ScanFlag(rest, option, convert))
      decreases |rest|
    {
      var location := FirstIndex(rest, option);
      if location == |rest| - 1 {
        ScanLast(rest, option, convert);
        return Err("Option " + option + " requires a paramter");
      }
      var converted := convert(rest[location + 1]);
      if converted.None? {
        ScanBadValue(rest, location, option, convert);
        return Err("Option for " + option + " not in expected format");
      }
      ScanFirstOccurrence(rest, location, option, convert);
      value := converted;
      rest := rest[..location] + rest[location + 2..];
    }
    assert ScanFlag(rest, option, convert) == Ok((None, rest)) by {
      ScanPrefix(rest, [], option, convert);
      assert rest + [] == rest;
    }
    r := Ok((value.Some?, value, rest));
  }

  /** Scanning a list that scans cleanly on its own, then more arguments:
      the later arguments' value wins and the kept arguments are joined. */
  lemma {:induction false} ScanAppend<V>(p: seq<string>, q: seq<string>, option: string, convert: string -> Option<V>)
    requires ScanFlag(p, option, convert).Ok?
    ensures ScanFlag(p + q, option, convert) ==
      match ScanFlag(q, option, convert)
      case Err(m) => Err(m)
      case Ok((v, rest)) =>
        Ok((if v.Some? then v else ScanFlag(p, option, convert).value.0, ScanFlag(p, option, convert).value.1 + rest))
  {
    if |p| == 0 {
      assert p + q == q;
      if ScanFlag(q, option, convert).Ok? {
        assert [] + ScanFlag(q, option, convert).value.1 == ScanFlag(q, option, convert).value.1;
      }
    } else if p[0] == option {
      assert (p + q)[2..] == p[2..] + q;
      ScanAppend(p[2..], q, option, convert);
    } else {
      assert (p + q)[1..] == p[1..] + q;
      ScanAppend(p[1..], q, option, convert);
      if ScanFlag(q, option, convert).Ok? {
        assert [p[0]] + (ScanFlag(p[1..], option, convert).value.1 + ScanFlag(q, option, convert).value.1) ==
          ([p[0]] + ScanFlag(p[1..], option, convert).value.1) + ScanFlag(q, option, convert).value.1;
      }
    }
  }

  lemma {:induction false} ScanNoOption<V>(tail: seq<string>, option: string, convert: string -> Option<V>)
    requires option !in tail
    ensures ScanFlag(tail, option, convert) == Ok((None, tail))
  {
    ScanPrefix(tail, [], option, convert);
    assert tail + [] == tail;
  }

  /** The value reported is the one after the last occurrence of the option. */
  lemma ScanLastValue<V>(prefix: seq<string>, a: string, tail: seq<string>, option: string, convert: string -> Option<V>)
    requires ScanFlag(prefix, option, convert).Ok?
    requires option !in tail && convert(a).Some?
    ensures ScanFlag(prefix + [option, a] + tail, option, convert) ==
      Ok((convert(a), ScanFlag(prefix, option, convert).value.1 + tail))
  {
    ScanNoOption(tail, option, convert);
    var q := [option, a] + tail;
    assert q[2..] == tail;
    ScanAppend(prefix, q, option, convert);
    assert prefix + [option, a] + tail == prefix + q;
  }

  // expect_no_further_flags

  predicate Letter(c: char)
  {
    'A' <= c <= 'Z' || 'a' <= c <= 'z'
  }

  /** re.match(r'--?[A-Za-z\-]+$', arg): one or two dashes, then letters and dashes. */
  predicate LooksLikeFlag(arg: string)
  {
    |arg| >= 2 && arg[0] == '-' && forall k :: 1 <= k < |arg| ==> Letter(arg[k]) || arg[k] == '-'
  }

  predicate LooksLikeSection(arg: string)
  {
    |arg| > 0 && arg[|arg| - 1] == ':'
  }

  /** expect_no_further_flags: an error at the first flag or section name. */
  method ExpectNoFurtherFlags(args: seq<string>) returns (r: Result<()>)
    ensures r.Err? <==> exists k :: 0 <= k < |args| && (LooksLikeFlag(args[k]) || LooksLikeSection(args[k]))
  {
    for k := 0 to |args|
      invariant forall j :: 0 <= j < k ==> !LooksLikeFlag(args[j]) && !LooksLikeSection(args[j])
    {
      if LooksLikeFlag(args[k]) {
        return Err("Unexpected flag \"" + args[k] + "\"");
      }
      if LooksLikeSection(args[k]) {
        return Err("Unexpected section \"" + args[k] + "\"");
      }
    }
    r := Ok(());
  }

  // execute

  /** The arguments for the default command and, in order, each command with
      the arguments up to the next command. */
  function SplitCommands(args: seq<string>, commands: set<string>): (r: (seq<string>, seq<(string, seq<string>)>))
    ensures forall k :: 0 <= k < |r.0| ==> r.0[k] !in commands
    ensures forall c :: 0 <= c < |r.1| ==> r.1[c].0 in commands
    ensures forall c, k :: 0 <= c < |r.1| && 0 <= k < |r.1[c].1| ==> r.1[c].1[k] !in commands
    decreases |args|
  {
    if |args| == 0 then ([], [])
    else
      var (dflt, calls) := SplitCommands(args[1..], commands);
      if args[0] in commands then ([], [(args[0], dflt)] + calls)
      else ([args[0]] + dflt, calls)
  }

  /** The command tokens and their argument lists laid end to end. */
  function Rebuild(dflt: seq<string>, calls: seq<(string, seq<string>)>): seq<string>
    decreases |calls|
  {
    if |calls| == 0 then dflt else dflt + Rebuild([calls[0].0] + calls[0].1, calls[1..])
  }

  /** The pieces and the command tokens give back the command line. */
  lemma {:induction false} SplitCommandsRebuild(args: seq<string>, commands: set<string>)
    ensures var (dflt, calls) := SplitCommands(args, commands); Rebuild(dflt, calls) == args
    decreases |args|
  {
    if |args| > 0 {
      SplitCommandsRebuild(args[1..], commands);
      var (dflt, calls) := SplitCommands(args[1..], commands);
      if args[0] in commands {
        assert Rebuild([], [(args[0], dflt)] + calls) == [] + Rebuild([args[0]] + dflt, calls);
        RebuildCons(args[0], dflt, calls);
      } else {
        RebuildCons(args[0], dflt, calls);
      }
      assert args == [args[0]] + args[1..];
    }
  }

  lemma RebuildCons(a: string, dflt: seq<string>, calls: seq<(string, seq<string>)>)
    ensures Rebuild([a] + dflt, calls) == [a] + Rebuild(dflt, calls)
  {
    if |calls| > 0 {
      assert [a] + dflt + Rebuild([calls[0].0] + calls[0].1, calls[1..]) ==
        [a] + (dflt + Rebuild([calls[0].0] + calls[0].1, calls[1..]));
    }
  }

  /** The default command gets everything before the first command. */
  lemma {:induction false} SplitCommandsDefault(args: seq<string>, commands: set<string>, first: nat)
    requires first <= |args| && forall k :: 0 <= k < first ==> args[k] !in commands
    requires first < |args| ==> args[first] in commands
    ensures SplitCommands(args, commands).0 == args[..first]
    decreases |args|
  {
    if |args| > 0 && first > 0 {
      SplitCommandsDefault(args[1..], commands, first - 1);
      assert args[..first] == [args[0]] + args[1..][..first - 1];
    }
  }

  // as_bool and describe_bool

  /** The lower-case form of an ASCII letter; other characters are kept. */
  function LowerChar(c: char): (r: char)
    ensures 'A' <= c <= 'Z' ==> 'a' <= r <= 'z' && r as int == c as int + 32
    ensures !('A' <= c <= 'Z') ==> r == c
  {
    if 'A' <= c <= 'Z' then (c as int + 32) as char else c
  }

  /** str.lower() on ASCII letters. */
  function Lower(s: string): (r: string)
    ensures |r| == |s|
    ensures forall k :: 0 <= k < |s| ==> r[k] == LowerChar(s[k])
  {
    seq(|s|, k requires 0 <= k < |s| => LowerChar(s[k]))
  }

  /** as_bool: the yes and no words in any case, else an integer that must be 0 or 1. */
  function AsBool(s: string, parseInt: string -> Option<int>): (r: Result<bool>)
    ensures Lower(s) in ["yes", "y", "true", "t"] ==> r == Ok(true)
    ensures Lower(s) in ["no", "n", "false", "f"] ==> r == Ok(false)
    ensures Lower(s) !in ["yes", "y", "true", "t", "no", "n", "false", "f"] ==>
      (r.Ok? <==> parseInt(Lower(s)) in {Some(0), Some(1)}) &&
      (r.Ok? ==> r.value == (parseInt(Lower(s)) == Some(1)))
  {
    var t := Lower(s);
    if t in ["yes", "y", "true", "t"] then Ok(true)
    else if t in ["no", "n", "false", "f"] then Ok(false)
    else
      match parseInt(t)
      case None => Err("invalid literal for int()")
      case Some(v) => if v == 0 || v == 1 then Ok(v == 1) else Err("assertion failed: value in (0,1)")
  }

  function DescribeBool(b: bool): (r: string)
    ensures |r| > 0
  {
    if b then "yes" else "no"
  }

  /** Describing a boolean and reading it back gives the boolean. */
  lemma AsBoolDescribe(b: bool, parseInt: string -> Option<int>)
    ensures AsBool(DescribeBool(b), parseInt) == Ok(b)
  {
    if b {
      assert Lower("yes") == "yes";
    } else {
      assert Lower("no") == "no";
    }
  }

  // Shell names

  /** str.rstrip('-'). */
  function RStripDash(s: string): (r: string)
    ensures |r| <= |s| && r == s[..|r|]
    ensures |r| > 0 ==> r[|r| - 1] != '-'
    ensures forall k :: |r| <= k < |s| ==> s[k] == '-'
  {
    if |s| == 0 || s[|s| - 1] != '-' then s else RStripDash(s[..|s| - 1])
  }

  /** The name with '_' written as '-', in lower case. */
  function Dashed(name: string): (r: string)
    ensures |r| == |name|
    ensures forall k :: 0 <= k < |r| ==> r[k] != '_' && !('A' <= r[k] <= 'Z')
  {
    Lower(ReplaceChar(name, '_', '-'))
  }

  /** Flag.shell_name: "--" and the dashed name without trailing dashes. */
  function FlagName(name: string): (r: string)
    ensures |r| >= 2 && r[..2] == "--" && r[2..] == RStripDash(Dashed(name))
    ensures |r| > 2 ==> r[|r| - 1] != '-'
  {
    "--" + RStripDash(Dashed(name))
  }

  /** A flag name has no '_' and no upper-case letter. */
  lemma FlagNameChars(name: string)
    ensures forall k :: 0 <= k < |FlagName(name)| ==> FlagName(name)[k] != '_' && !('A' <= FlagName(name)[k] <= 'Z')
  {
    var d := Dashed(name);
    var t := RStripDash(d);
    var f := FlagName(name);
    assert f == "--" + t;
    forall k | 2 <= k < |f|
      ensures f[k] != '_' && !('A' <= f[k] <= 'Z')
    {
      assert f[k] == t[k - 2];
      assert t[k - 2] == d[..|t|][k - 2] == d[k - 2];
    }
  }

  /** Section.shell_name: the dashed name without trailing dashes, then ':'. */
  function SectionName(name: string): (r: string)
    ensures |r| >= 1 && r[|r| - 1] == ':' && r[..|r| - 1] == RStripDash(Dashed(name))
  {
    RStripDash(Dashed(name)) + ":"
  }

  /** Positional.shell_name: the dashed name in angle brackets. */
  function PositionalName(name: string): (r: string)
    ensures |r| == |name| + 2 && r[0] == '<' && r[|r| - 1] == '>' && r[1..|r| - 1] == Dashed(name)
  {
    "<" + Dashed(name) + ">"
  }

  /** A section name is never taken for a flag by expect_no_further_flags,
      and it is always taken for a section. */
  lemma SectionNameIsSection(name: string)
    ensures LooksLikeSection(SectionName(name)) && !LooksLikeFlag(SectionName(name))
  {
  }

  // Parameter.__call__

  /** The length of the leading run of parameters inherited from a base class. */
  function LeadingBase(parameters: seq<string>, inBase: set<string>): (n: nat)
    ensures n <= |parameters|
    ensures forall k :: 0 <= k < n ==> parameters[k] in inBase
    ensures n < |parameters| ==> parameters[n] !in inBase
  {
    if |parameters| == 0 || parameters[0] !in inBase then 0
    else 1 + LeadingBase(parameters[1..], inBase)
  }

  /** A tool class and the parameters its decorators have registered. */
  class Tool {
    var parameters: seq<string>
    /** Every parameter of some base class. */
    const inBase: set<string>

    constructor (parameters: seq<string>, inBase: set<string>)
      ensures this.parameters == parameters && this.inBase == inBase
    {
      this.parameters := parameters;
      this.inBase := inBase;
    }

    /** Parameter.__call__: insert the parameter after the leading run of
        base-class parameters, before this class's own. */
    method Decorate(p: string)
      modifies this
      ensures var n := LeadingBase(old(parameters), inBase);
        parameters == old(parameters)[..n] + [p] + old(parameters)[n..]
      ensures multiset(parameters) == multiset(old(parameters)) + multiset{p}
    {
      var n := 0;
      while n < |parameters| && parameters[n] in inBase
        invariant n <= |parameters| && LeadingBase(parameters, inBase) == n + LeadingBase(parameters[n..], inBase)
      {
        assert parameters[n..][1..] == parameters[n + 1..];
        n := n + 1;
      }
      assert parameters == parameters[..n] + parameters[n..];
      parameters := parameters[..n] + [p] + parameters[n..];
    }
  }

  // Section.parse

  /** Section.parse: checks for stray flags unless allowed, then appends to
      the value so far (an unset value counting as empty) or replaces it. */
  method SectionParse(current: seq<string>, args: seq<string>, allowFlags: bool, append: bool)
    returns (r: Result<seq<string>>)
    ensures r.Err? <==> !allowFlags && exists k :: 0 <= k < |args| && (LooksLikeFlag(args[k]) || LooksLikeSection(args[k]))
    ensures r.Ok? ==> r.value == if append then current + args else args
  {
    if !allowFlags {
      var check := ExpectNoFurtherFlags(args);
      if check.Err? {
        return Err(check.message);
      }
    }
    r := Ok(if append then current + args else args);
  }
}
