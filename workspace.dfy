// Path arithmetic of demakein/workspace.py, on lists of path components.
// A path is absolute or relative plus its components; the text form is the
// components joined by the separator, with the empty relative path written ".".

module Workspace {

  datatype Path = Path(absolute: bool, comps: seq<string>)

  /** A component that normalisation leaves alone: not empty, ".", or "..". */
  predicate Plain(c: string)
  {
    c != "" && c != "." && c != ".."
  }

  predicate AllPlain(cs: seq<string>)
  {
    forall k :: 0 <= k < |cs| ==> Plain(cs[k])
  }

  /** One step of os.path.normpath: "" and "." vanish, ".." drops the previous
      ordinary component (or is dropped at the root of an absolute path, or is
      kept at the front of a relative path), anything else is appended. */
  function NormStep(absolute: bool, acc: seq<string>, c: string): seq<string>
  {
    if c == "" || c == "." then acc
    else if c == ".." then
      (if |acc| > 0 && acc[|acc| - 1] != ".." then acc[..|acc| - 1]
       else if absolute then acc
       else acc + [".."])
    else acc + [c]
  }

  /** os.path.normpath on the components of a path. */
  function Normalize(absolute: bool, cs: seq<string>): seq<string>
  {
    if |cs| == 0 then []
    else NormStep(absolute, Normalize(absolute, cs[..|cs| - 1]), cs[|cs| - 1])
  }

  /** Normalising after a normal prefix appends plain components unchanged. */
  lemma {:induction false} NormalizeAppendPlain(absolute: bool, cs: seq<string>, tail: seq<string>)
    requires AllPlain(tail)
    ensures Normalize(absolute, cs + tail) == Normalize(absolute, cs) + tail
    decreases |tail|
  {
    if |tail| > 0 {
      var init := tail[..|tail| - 1];
      NormalizeAppendPlain(absolute, cs, init);
      assert (cs + tail)[..|cs + tail| - 1] == cs + init;
      assert (cs + tail)[|cs + tail| - 1] == tail[|tail| - 1];
      assert init + [tail[|tail| - 1]] == tail;
    } else {
      assert cs + tail == cs;
    }
  }

  /** Leading ".." components of a relative path survive normalisation. */
  lemma {:induction false} NormalizeUps(k: nat)
    ensures Normalize(false, seq(k, _ => "..")) == seq(k, _ => "..")
  {
    if k > 0 {
      var ups := seq(k, _ => "..");
      NormalizeUps(k - 1);
      assert ups[..k - 1] == seq(k - 1, _ => "..");
    }
  }

  /** The common-prefix loop of path_as_relative_path. */
  method CommonPrefix(me: seq<string>, it: seq<string>) returns (nSame: nat)
    ensures nSame <= |me| && nSame <= |it| && me[..nSame] == it[..nSame]
    ensures nSame < |me| && nSame < |it| ==> me[nSame] != it[nSame]
  {
    nSame := 0;
    while nSame < |me| && nSame < |it| && me[nSame] == it[nSame]
      invariant nSame <= |me| && nSame <= |it| && me[..nSame] == it[..nSame]
    {
      nSame := nSame + 1;
    }
  }

  /** abspath(p).strip(sep).split(sep) for an absolute path whose
      normalised components are comps: the root gives [""]. */
  function Comps(comps: seq<string>): (r: seq<string>)
    ensures |r| > 0
  {
    if |comps| == 0 then [""] else comps
  }

  /** The target's components after the common prefix, as normpath keeps
      them: the root's single "" component vanishes. */
  function RestOf(target: seq<string>, nSame: nat): seq<string>
  {
    if |target| == 0 || nSame > |target| then [] else target[nSame..]
  }

  /** Workspace.path_as_relative_path, given the normalised components of the
      absolute working directory and of the absolute target (both empty for
      the root): one ".." per component of the directory past the common
      prefix, then the rest of the target. */
  method PathAsRelativePath(dir: seq<string>, target: seq<string>) returns (r: Path, nSame: nat)
    requires AllPlain(dir) && AllPlain(target)
    ensures var me, it := Comps(dir), Comps(target);
      && nSame <= |me| && nSame <= |it| && me[..nSame] == it[..nSame]
      && (nSame < |me| && nSame < |it| ==> me[nSame] != it[nSame])
    ensures !r.absolute && r.comps == seq(|Comps(dir)| - nSame, _ => "..") + RestOf(target, nSame)
  {
    var me, it := Comps(dir), Comps(target);
    nSame := CommonPrefix(me, it);
    var ups := seq(|me| - nSame, _ => "..");
    var joined := ups + it[nSame..];
    NormalizeUps(|me| - nSame);
    if |target| == 0 {
      if nSame == 0 {
        assert joined == ups + [""];
        assert Normalize(false, joined) == Normalize(false, ups);
      } else {
        assert joined == ups;
      }
    } else {
      NormalizeAppendPlain(false, ups, it[nSame..]);
    }
    r := Path(false, Normalize(false, joined));
  }

  /** Following a relative path from a directory: ".." pops, anything else
      descends. */
  function Walk(from: seq<string>, rel: seq<string>): seq<string>
    decreases |rel|
  {
    if |rel| == 0 then from
    else if rel[0] == ".." then Walk(if |from| > 0 then from[..|from| - 1] else from, rel[1..])
    else Walk(from + [rel[0]], rel[1..])
  }

  lemma {:induction false} WalkUps(from: seq<string>, k: nat, rest: seq<string>)
    requires k <= |from|
    ensures Walk(from, seq(k, _ => "..") + rest) == Walk(from[..|from| - k], rest)
  {
    if k > 0 {
      var ups := seq(k, _ => "..");
      assert (ups + rest)[0] == ".." && (ups + rest)[1..] == seq(k - 1, _ => "..") + rest;
      assert Walk(from, ups + rest) == Walk(from[..|from| - 1], seq(k - 1, _ => "..") + rest);
      WalkUps(from[..|from| - 1], k - 1, rest);
      assert from[..|from| - 1][..|from| - 1 - (k - 1)] == from[..|from| - k];
    } else {
      assert seq(k, _ => "..") + rest == rest && from[..|from| - k] == from;
    }
  }

  lemma {:induction false} WalkPlain(from: seq<string>, rest: seq<string>)
    requires AllPlain(rest)
    ensures Walk(from, rest) == from + rest
    decreases |rest|
  {
    if |rest| > 0 {
      WalkPlain(from + [rest[0]], rest[1..]);
      assert from + [rest[0]] + rest[1..] == from + rest;
    }
  }

  /** Walking the relative path from the working directory reaches the
      target, the root included (".." at the root stays there). */
  lemma RelativePathWalk(dir: seq<string>, target: seq<string>, nSame: nat)
    requires AllPlain(dir) && AllPlain(target)
    requires var me, it := Comps(dir), Comps(target);
      nSame <= |me| && nSame <= |it| && me[..nSame] == it[..nSame]
    ensures Walk(dir, seq(|Comps(dir)| - nSame, _ => "..") + RestOf(target, nSame)) == target
  {
    var ups := seq(|Comps(dir)| - nSame, _ => "..");
    var rest := RestOf(target, nSame);
    if |dir| == 0 {
      if nSame == 0 {
        assert (ups + rest)[0] == ".." && (ups + rest)[1..] == rest;
        assert Walk(dir, ups + rest) == Walk(dir, rest);
      } else {
        assert ups + rest == [];
      }
      if |target| > 0 {
        assert Comps(dir)[0] != Comps(target)[0];
        WalkPlain(dir, target);
      }
    } else {
      WalkUps(dir, |dir| - nSame, rest);
      if |target| == 0 {
        assert Comps(dir)[0] != Comps(target)[0];
        assert ups + rest == ups;
        assert ups + [] == ups;
      } else {
        assert AllPlain(target[nSame..]);
        WalkPlain(dir[..nSame], target[nSame..]);
        assert target[..nSame] + target[nSame..] == target;
      }
    }
  }

  /** Workspace.relative_path_as_path: absolute paths are returned as they
      are, relative ones are joined onto the working directory and normalised. */
  function RelativePathAsPath(workingDir: Path, p: Path): (r: Path)
    ensures p.absolute ==> r == p
    ensures !p.absolute ==> r.absolute == workingDir.absolute
  {
    if p.absolute then p
    else Path(workingDir.absolute, Normalize(workingDir.absolute, workingDir.comps + p.comps))
  }

  /** A relative path of ordinary components lands below the normalised
      working directory. */
  lemma RelativePathAsPathPlain(workingDir: Path, p: Path)
    requires !p.absolute && AllPlain(p.comps)
    ensures RelativePathAsPath(workingDir, p).comps ==
      Normalize(workingDir.absolute, workingDir.comps) + p.comps
  {
    NormalizeAppendPlain(workingDir.absolute, workingDir.comps, p.comps);
  }
}
