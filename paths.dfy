/**
 * The part of pathlib that nextflow_include_command.py uses, for POSIX paths:
 * Path(s), str(p), p.parents, p.relative_to(base), and p.parent / p.stem.
 * A path is held as pathlib holds it: whether it starts at the root `/`, and
 * its parts after the root, with empty parts and `.` parts dropped.
 */
module PurePaths {
  import opened TextOps

  datatype Path = Path(absolute: bool, parts: seq<string>)

  /** A part as pathlib keeps it: not empty, not `.`, without a `/`. */
  predicate IsPart(s: string) {
    s != "" && s != "." && '/' !in s
  }

  predicate ValidPath(p: Path) {
    forall k :: 0 <= k < |p.parts| ==> IsPart(p.parts[k])
  }

  /** No part climbs to a parent directory. */
  predicate NoUpLevels(p: Path) {
    forall k :: 0 <= k < |p.parts| ==> p.parts[k] != ".."
  }

  /** The pieces of a split on `/` that are parts: the empty ones and the `.` ones are dropped. */
  function PartsOf(pieces: seq<string>): (r: seq<string>)
    ensures forall k :: 0 <= k < |r| ==> IsPart(r[k])
  {
    if pieces == [] then []
    else (if IsPart(pieces[0]) then [pieces[0]] else []) + PartsOf(pieces[1..])
  }

  /** Path(s) for a POSIX path string. */
  function ParsePath(s: string): (p: Path)
    ensures ValidPath(p)
  {
    Path(|s| > 0 && s[0] == '/', PartsOf(Split(s, '/')))
  }

  /** str(p). */
  function PathText(p: Path): string {
    if p.absolute then "/" + Join(p.parts, "/")
    else if p.parts == [] then "."
    else Join(p.parts, "/")
  }

  lemma {:induction false} PartsOfParts(parts: seq<string>)
    requires forall k :: 0 <= k < |parts| ==> IsPart(parts[k])
    ensures PartsOf(parts) == parts
  {
    if parts != [] {
      PartsOfParts(parts[1..]);
      assert parts == [parts[0]] + parts[1..];
    }
  }

  /** The first character of a join is the first character of its first piece. */
  lemma JoinStart(parts: seq<string>, sep: string)
    requires |parts| > 0 && |parts[0]| > 0
    ensures |Join(parts, sep)| > 0 && Join(parts, sep)[0] == parts[0][0]
  {
  }

  /** Reading back the text of a path gives the path. */
  lemma ParsePathText(p: Path)
    requires ValidPath(p)
    ensures ParsePath(PathText(p)) == p
  {
    var s := PathText(p);
    if p.parts == [] {
      if p.absolute {
        assert s == "" + ['/'] + "";
        SplitAtSeparator("", '/', "");
        assert Split("", '/') == [""];
      } else {
        assert Split(s, '/') == Split(".", '/');
        SplitNoSeparator(".", '/');
      }
    } else {
      forall k | 0 <= k < |p.parts| ensures '/' !in p.parts[k] {
        assert IsPart(p.parts[k]);
      }
      SplitJoin(p.parts, '/');
      PartsOfParts(p.parts);
      var body := Join(p.parts, "/");
      if p.absolute {
        assert s == "" + ['/'] + body;
        SplitAtSeparator("", '/', body);
        assert PartsOf([""] + Split(body, '/')) == PartsOf(Split(body, '/'));
      } else {
        JoinStart(p.parts, "/");
        assert s[0] == p.parts[0][0] && p.parts[0][0] != '/';
      }
    }
  }

  /**
   * p.parents, nearest first: parent i has the path's root and the path's
   * parts without the last i + 1, so each parent holds the path.
   */
  function Parents(p: Path): (ps: seq<Path>)
    ensures |ps| == |p.parts|
    ensures forall i :: 0 <= i < |ps| ==>
      && ps[i].absolute == p.absolute
      && |ps[i].parts| == |p.parts| - 1 - i
      && p.parts[..|ps[i].parts|] == ps[i].parts
  {
    seq(|p.parts|, i requires 0 <= i < |p.parts| => Path(p.absolute, p.parts[..|p.parts| - 1 - i]))
  }

  /** str(target.relative_to(base)), or None where relative_to raises ValueError. */
  function RelativeTo(target: Path, base: Path): (r: Option<string>)
    ensures r.Some? && ValidPath(target) && NoUpLevels(target) ==> Resolve(base, r.value) == target
  {
    ReadBackBelow(target, base);
    if target.absolute == base.absolute && |base.parts| <= |target.parts| && target.parts[..|base.parts|] == base.parts
    then Some(PathText(Path(false, target.parts[|base.parts|..])))
    else None
  }

  /** The text of target below base, read from base, leads back to target. */
  lemma ReadBackBelow(target: Path, base: Path)
    ensures (&& target.absolute == base.absolute && |base.parts| <= |target.parts|
             && target.parts[..|base.parts|] == base.parts && ValidPath(target) && NoUpLevels(target)) ==>
      Resolve(base, PathText(Path(false, target.parts[|base.parts|..]))) == target
  {
    if target.absolute == base.absolute && |base.parts| <= |target.parts| && target.parts[..|base.parts|] == base.parts
      && ValidPath(target) && NoUpLevels(target)
    {
      var rest := target.parts[|base.parts|..];
      forall k | 0 <= k < |rest| ensures IsPart(rest[k]) && rest[k] != ".." {
        assert rest[k] == target.parts[|base.parts| + k];
      }
      SplitPathText(rest);
      WalkDown(base.parts, rest);
      assert base.parts + rest == target.parts;
    }
  }

  /** relative_to succeeds exactly when base has target's root and its parts begin target's parts. */
  lemma RelativeToContains(target: Path, base: Path)
    ensures RelativeTo(target, base).Some? <==>
      target.absolute == base.absolute && exists rest :: target.parts == base.parts + rest
  {
    if target.absolute == base.absolute && exists rest :: target.parts == base.parts + rest {
      var rest :| target.parts == base.parts + rest;
      assert target.parts[..|base.parts|] == base.parts;
    }
    if RelativeTo(target, base).Some? {
      assert target.parts == base.parts + target.parts[|base.parts|..];
    }
  }

  /** The index of the last c in s, as str.rfind. */
  function LastIndexOf(s: string, c: char): (r: int)
    ensures -1 <= r < |s|
    ensures r >= 0 ==> s[r] == c && forall k :: r < k < |s| ==> s[k] != c
    ensures r == -1 ==> c !in s
    decreases |s|
  {
    if s == [] then -1
    else if s[|s| - 1] == c then |s| - 1
    else LastIndexOf(s[..|s| - 1], c)
  }

  /** p.stem for a last part: the name without its suffix, which starts at the last `.` unless it is the first or last character. */
  function Stem(name: string): (r: string)
    ensures |r| <= |name| && r == name[..|r|]
    ensures |r| < |name| ==> 0 < |r| < |name| - 1 && name[|r|] == '.' && forall k :: |r| < k < |name| ==> name[k] != '.'
  {
    var i := LastIndexOf(name, '.');
    if 0 < i < |name| - 1 then name[..i] else name
  }

  /** A name with an extension loses exactly the extension. */
  lemma StemDropsExtension(base: string, ext: string)
    requires base != [] && ext != [] && '.' !in ext
    ensures Stem(base + "." + ext) == base
  {
    var name := base + "." + ext;
    assert name[|base|] == '.';
    forall k | |base| < k < |name| ensures name[k] != '.' {
      assert name[k] == ext[k - |base| - 1];
    }
    LastIndexOfIs(name, '.', |base|);
    assert name[..|base|] == base;
  }

  /** The last c is at r when s[r] is c and no c follows it. */
  lemma {:induction false} LastIndexOfIs(s: string, c: char, r: nat)
    requires r < |s| && s[r] == c && forall k :: r < k < |s| ==> s[k] != c
    ensures LastIndexOf(s, c) == r
    decreases |s|
  {
    if r < |s| - 1 {
      LastIndexOfIs(s[..|s| - 1], c, r);
    }
  }

  /** A name without a `.` after its first character is its own stem. */
  lemma StemKeepsPlainName(name: string)
    requires forall k :: 0 < k < |name| ==> name[k] != '.'
    ensures Stem(name) == name
  {
  }

  /** p.parent / p.stem: the last part loses its suffix (a stem `.` is dropped, as pathlib drops `.` parts). */
  function WithoutSuffix(p: Path): Path {
    if p.parts == [] then p
    else
      var s := Stem(p.parts[|p.parts| - 1]);
      Path(p.absolute, p.parts[..|p.parts| - 1] + (if s == "." then [] else [s]))
  }

  /** Walking `..` and plain parts from a directory, as the include path is read from the script's directory. */
  function Walk(dir: seq<string>, pieces: seq<string>): seq<string>
    decreases |pieces|
  {
    if pieces == [] then dir
    else if pieces[0] == "" || pieces[0] == "." then Walk(dir, pieces[1..])
    else if pieces[0] == ".." then Walk(if dir == [] then [] else dir[..|dir| - 1], pieces[1..])
    else Walk(dir + [pieces[0]], pieces[1..])
  }

  /** The path a relative path text names, read from directory base. */
  function Resolve(base: Path, rel: string): Path {
    Path(base.absolute, Walk(base.parts, Split(rel, '/')))
  }

  /** i pieces `..`. */
  function UpLevels(i: nat): (r: seq<string>)
    ensures |r| == i && forall k :: 0 <= k < i ==> r[k] == ".."
  {
    seq(i, k => "..")
  }

  lemma {:induction false} WalkUp(dir: seq<string>, i: nat, rest: seq<string>)
    requires i <= |dir|
    ensures Walk(dir, UpLevels(i) + rest) == Walk(dir[..|dir| - i], rest)
  {
    if i > 0 {
      var pieces := UpLevels(i) + rest;
      assert pieces[0] == ".." && pieces[1..] == UpLevels(i - 1) + rest;
      WalkUp(dir[..|dir| - 1], i - 1, rest);
      assert dir[..|dir| - 1][..|dir| - 1 - (i - 1)] == dir[..|dir| - i];
    } else {
      assert UpLevels(0) + rest == rest;
      assert dir[..|dir| - 0] == dir;
    }
  }

  lemma {:induction false} WalkDown(dir: seq<string>, rest: seq<string>)
    requires forall k :: 0 <= k < |rest| ==> IsPart(rest[k]) && rest[k] != ".."
    ensures Walk(dir, rest) == dir + rest
    decreases |rest|
  {
    if rest != [] {
      WalkDown(dir + [rest[0]], rest[1..]);
      assert dir + [rest[0]] + rest[1..] == dir + rest;
    }
  }

  /** Splitting i copies of `../` and then t. */
  lemma {:induction false} SplitUpLevels(i: nat, t: string)
    ensures Split(Repeat("../", i) + t, '/') == UpLevels(i) + Split(t, '/')
  {
    if i > 0 {
      SplitUpLevels(i - 1, t);
      var y := Repeat("../", i - 1) + t;
      assert Repeat("../", i) + t == ".." + ['/'] + y;
      SplitAtSeparator("..", '/', y);
      assert UpLevels(i) == [".."] + UpLevels(i - 1);
    } else {
      assert Repeat("../", 0) + t == t;
    }
  }

  /** Splitting `./` and then t. */
  lemma SplitHere(t: string)
    ensures Split("./" + t, '/') == ["."] + Split(t, '/')
  {
    assert "./" + t == "." + ['/'] + t;
    SplitAtSeparator(".", '/', t);
  }

  /** The text of a relative path splits into its parts, or into `.` when it has none. */
  lemma SplitPathText(rest: seq<string>)
    requires forall k :: 0 <= k < |rest| ==> IsPart(rest[k])
    ensures Walk([], Split(PathText(Path(false, rest)), '/')) == Walk([], rest)
    ensures forall dir :: Walk(dir, Split(PathText(Path(false, rest)), '/')) == Walk(dir, rest)
  {
    if rest == [] {
      SplitNoSeparator(".", '/');
    } else {
      forall k | 0 <= k < |rest| ensures '/' !in rest[k] {
        assert IsPart(rest[k]);
      }
      SplitJoin(rest, '/');
    }
  }
}
