/**
 * nextflow_include_command.py: the declaration finders find_processes and
 * find_functions, relative_path, and the include statements the two insert
 * commands write at the cursor.
 *
 * The finders read a file line by line; here the lines are given, each as the
 * file iterator yields it (with its newline). The line patterns
 * `^process +(\w+) *\{\s*$` and `^def +(\w+) *\([^\)]*\) *\{\s*$` are the
 * token patterns ProcessLine and DefLine; the finder loop and its lemmas are
 * stated for any pattern with one `\w+` group (NamePattern).
 */
module NextflowInclude {
  import opened TextOps
  import opened Patterns
  import opened PurePaths

  const ProcessLine: seq<Token> := [Lit("process"), Run(Blanks, 1), Capture(WordChars), Run(Blanks, 0), Lit("{"), SpaceRest]
  const DefLine: seq<Token> := [Lit("def"), Run(Blanks, 1), Capture(WordChars), Run(Blanks, 0), Lit("("),
                                Run(AllBut(')'), 0), Lit(")"), Run(Blanks, 0), Lit("{"), SpaceRest]

  /** A line pattern with one group, a `\w+`. */
  predicate NamePattern(p: seq<Token>) {
    CaptureClasses(p) == [WordChars]
  }

  lemma LinePatternsAreNamePatterns()
    ensures NamePattern(ProcessLine) && NamePattern(DefLine)
  {
  }

  /** m.group(1) of p.match(line), or None when the line does not match. */
  function NameOf(p: seq<Token>, line: string): (r: Option<string>)
    requires NamePattern(p)
  {
    match MatchAt(p, line, 0)
    case None => None
    case Some(m) => Some(m.groups[0])
  }

  /** The names the finder yields for lines, in line order. */
  function NamesOf(p: seq<Token>, lines: seq<string>): seq<string>
    requires NamePattern(p)
  {
    if lines == [] then []
    else
      var init := NamesOf(p, lines[..|lines| - 1]);
      match NameOf(p, lines[|lines| - 1])
      case None => init
      case Some(n) => init + [n]
  }

  /** The finder's loop over the lines with pattern p. */
  method FindNames(p: seq<Token>, lines: seq<string>) returns (names: seq<string>)
    requires NamePattern(p)
    ensures names == NamesOf(p, lines)
  {
    names := [];
    var i := 0;
    while i < |lines|
      invariant i <= |lines| && names == NamesOf(p, lines[..i])
      decreases |lines| - i
    {
      assert lines[..i + 1][..i] == lines[..i];
      var m := MatchAt(p, lines[i], 0);
      if m.Some? {
        names := names + [m.value.groups[0]];
      }
      i := i + 1;
    }
    assert lines[..i] == lines;
  }

  /** find_processes, over the lines of the file. */
  method FindProcesses(lines: seq<string>) returns (names: seq<string>)
    ensures names == NamesOf(ProcessLine, lines)
  {
    LinePatternsAreNamePatterns();
    names := FindNames(ProcessLine, lines);
  }

  /** find_functions, over the lines of the file. */
  method FindFunctions(lines: seq<string>) returns (names: seq<string>)
    ensures names == NamesOf(DefLine, lines)
  {
    LinePatternsAreNamePatterns();
    names := FindNames(DefLine, lines);
  }

  /** The names of consecutive runs of lines come in line order. */
  lemma {:induction false} NamesAppend(p: seq<Token>, a: seq<string>, b: seq<string>)
    requires NamePattern(p)
    ensures NamesOf(p, a + b) == NamesOf(p, a) + NamesOf(p, b)
    decreases |b|
  {
    if b == [] {
      assert a + b == a;
    } else {
      NamesAppend(p, a, b[..|b| - 1]);
      assert (a + b)[..|a + b| - 1] == a + b[..|b| - 1];
      assert (a + b)[|a + b| - 1] == b[|b| - 1];
    }
  }

  /** name comes from a line of lines that matches. */
  predicate NamedBy(p: seq<Token>, lines: seq<string>, name: string)
    requires NamePattern(p)
  {
    exists i :: 0 <= i < |lines| && NameOf(p, lines[i]) == Some(name)
  }

  /** Every name the finder yields is a word, taken from a line that matches. */
  lemma {:induction false} NamesFromLines(p: seq<Token>, lines: seq<string>)
    requires NamePattern(p)
    ensures forall k :: 0 <= k < |NamesOf(p, lines)| ==>
      IsWord(NamesOf(p, lines)[k]) && NamedBy(p, lines, NamesOf(p, lines)[k])
  {
    if lines != [] {
      var init := lines[..|lines| - 1];
      var last := lines[|lines| - 1];
      NamesFromLines(p, init);
      var ns := NamesOf(p, lines);
      forall k | 0 <= k < |ns| ensures IsWord(ns[k]) && NamedBy(p, lines, ns[k]) {
        if k < |NamesOf(p, init)| {
          assert ns[k] == NamesOf(p, init)[k];
          assert NamedBy(p, init, ns[k]);
          var i :| 0 <= i < |init| && NameOf(p, init[i]) == Some(ns[k]);
          assert lines[i] == init[i];
        } else {
          assert NameOf(p, last) == Some(ns[k]);
          NameIsWord(p, last);
        }
      }
    }
  }

  /** The group of a matching line is a word. */
  lemma NameIsWord(p: seq<Token>, line: string)
    requires NamePattern(p)
    ensures NameOf(p, line).Some? ==> IsWord(NameOf(p, line).value)
  {
    MatchGroups(p, line, 0);
    if NameOf(p, line).Some? {
      var g := MatchAt(p, line, 0).value.groups;
      assert GroupsFit(g, [WordChars]);
      assert IsRunOf(g[0], WordChars);
      assert forall i :: 0 <= i < |g[0]| ==> InClass(g[0][i], WordChars);
    }
  }

  /** A declaration written `process NAME {` on its own line is found, with its name. */
  lemma ProcessLineRoundTrip(name: string)
    requires IsWord(name)
    ensures NameOf(ProcessLine, "process " + name + " {\n") == Some(name)
  {
    var line := "process " + name + " {\n";
    var n := |name|;
    assert ProcessTokens(ProcessLine);
    ProcessLineShape(name);
    ProcessTail(ProcessLine, line, n);
    ProcessHead(ProcessLine, line, n);
    assert [name] + [] == [name];
  }

  /** Where the pieces of a process declaration sit in its text. */
  lemma ProcessLineShape(name: string)
    requires IsWord(name)
    ensures var line := "process " + name + " {\n";
      var n := |name|;
      && |line| == 11 + n && line[..7] == "process" && line[7] == ' '
      && line[8..8 + n] == name && (forall k :: 8 <= k < 8 + n ==> IsWordChar(line[k]))
      && line[8 + n] == ' ' && line[9 + n] == '{' && line[10 + n] == '\n'
  {
    var line := "process " + name + " {\n";
    var n := |name|;
    assert forall k :: 0 <= k < n ==> line[8 + k] == name[k];
  }

  /** The tokens of ProcessLine, one by one. */
  predicate ProcessTokens(p: seq<Token>) {
    && |p| == 6 && p[0] == Lit("process") && p[1] == Run(Blanks, 1) && p[2] == Capture(WordChars)
    && p[3] == Run(Blanks, 0) && p[4] == Lit("{") && p[5] == SpaceRest
  }

  /** `process`, a blank and a word ending at 8 + n hand the rest of the pattern the text from there. */
  lemma ProcessHead(p: seq<Token>, line: string, n: nat)
    requires ProcessTokens(p)
    requires 0 < n && 8 + n <= |line| && line[..7] == "process" && line[7] == ' '
    requires forall k :: 8 <= k < 8 + n ==> IsWordChar(line[k])
    requires 8 + n == |line| || !IsWordChar(line[8 + n])
    requires MatchTokens(p[3..], line, 8 + n) == Some((|line| as nat, []))
    ensures MatchTokens(p, line, 0) == Some((|line| as nat, [line[8..8 + n]] + []))
  {
    ProcessName(p, line, n);
    assert line[0..][..7] == "process";
    MatchStep(p, 0, line, 0, 7);
    MatchWhole(p, line, 0);
  }

  /** A blank at 7 and a word ending at 8 + n: the name group. */
  lemma ProcessName(p: seq<Token>, line: string, n: nat)
    requires ProcessTokens(p)
    requires 0 < n && 8 + n <= |line| && line[7] == ' '
    requires forall k :: 8 <= k < 8 + n ==> IsWordChar(line[k])
    requires 8 + n == |line| || !IsWordChar(line[8 + n])
    requires MatchTokens(p[3..], line, 8 + n) == Some((|line| as nat, []))
    ensures MatchTokens(p[1..], line, 7) == Some((|line| as nat, [line[8..8 + n]] + []))
  {
    RunEndAt(line, 8, 8 + n, WordChars);
    CaptureStep(p, 2, line, 8, 8 + n, |line|, []);
    RunEndAt(line, 7, 8, Blanks);
    MatchStep(p, 1, line, 7, 8);
  }

  /** The part of `process NAME {` after the name. */
  lemma ProcessTail(p: seq<Token>, line: string, n: nat)
    requires ProcessTokens(p)
    requires |line| == 11 + n && line[8 + n] == ' ' && line[9 + n] == '{' && line[10 + n] == '\n'
    ensures MatchTokens(p[3..], line, 8 + n) == Some((|line| as nat, []))
  {
    ProcessBrace(p, line, 9 + n);
    RunEndAt(line, 8 + n, 9 + n, Blanks);
    MatchStep(p, 3, line, 8 + n, 9 + n);
  }

  /** The `{` and line end of a process declaration, from index i. */
  lemma ProcessBrace(p: seq<Token>, line: string, i: nat)
    requires ProcessTokens(p)
    requires i + 2 == |line| && line[i] == '{' && line[i + 1] == '\n'
    ensures MatchTokens(p[4..], line, i) == Some((|line| as nat, []))
  {
    RunEndAt(line, i + 1, i + 2, SpaceChars);
    MatchStep(p, 5, line, i + 1, i + 2);
    assert p[6..] == [];
    assert line[i..][..1] == "{";
    MatchStep(p, 4, line, i, i + 1);
  }

  /** A function header written `def NAME(ARGS) {` on its own line is found, with its name. */
  lemma DefLineRoundTrip(name: string, args: string)
    requires IsWord(name) && ')' !in args
    ensures NameOf(DefLine, "def " + name + "(" + args + ") {\n") == Some(name)
  {
    var line := "def " + name + "(" + args + ") {\n";
    var n := |name|;
    assert DefTokens(DefLine);
    DefLineShape(name, args);
    DefTail(DefLine, line, 4 + n, 5 + n + |args|);
    DefHead(DefLine, line, n);
    assert [name] + [] == [name];
  }

  /** Where the pieces of a function header sit in its text. */
  lemma DefLineShape(name: string, args: string)
    requires IsWord(name) && ')' !in args
    ensures var line := "def " + name + "(" + args + ") {\n";
      var n, a := |name|, |args|;
      && |line| == 9 + n + a && line[..3] == "def" && line[3] == ' '
      && line[4..4 + n] == name && (forall k :: 4 <= k < 4 + n ==> IsWordChar(line[k]))
      && line[4 + n] == '(' && (forall k :: 4 + n < k < 5 + n + a ==> line[k] != ')')
      && line[5 + n + a] == ')' && line[6 + n + a] == ' ' && line[7 + n + a] == '{' && line[8 + n + a] == '\n'
  {
    var line := "def " + name + "(" + args + ") {\n";
    var n, a := |name|, |args|;
    assert forall k :: 0 <= k < n ==> line[4 + k] == name[k];
    assert forall k :: 0 <= k < a ==> line[5 + n + k] == args[k];
  }

  /** The tokens of DefLine, one by one. */
  predicate DefTokens(p: seq<Token>) {
    && |p| == 10 && p[0] == Lit("def") && p[1] == Run(Blanks, 1) && p[2] == Capture(WordChars)
    && p[3] == Run(Blanks, 0) && p[4] == Lit("(") && p[5] == Run(AllBut(')'), 0) && p[6] == Lit(")")
    && p[7] == Run(Blanks, 0) && p[8] == Lit("{") && p[9] == SpaceRest
  }

  /** `def`, a blank and a word ending at 4 + n hand the rest of the pattern the text from there. */
  lemma DefHead(p: seq<Token>, line: string, n: nat)
    requires DefTokens(p)
    requires 0 < n && 4 + n <= |line| && line[..3] == "def" && line[3] == ' '
    requires forall k :: 4 <= k < 4 + n ==> IsWordChar(line[k])
    requires 4 + n == |line| || !IsWordChar(line[4 + n])
    requires MatchTokens(p[3..], line, 4 + n) == Some((|line| as nat, []))
    ensures MatchTokens(p, line, 0) == Some((|line| as nat, [line[4..4 + n]] + []))
  {
    DefName(p, line, n);
    assert line[0..][..3] == "def";
    MatchStep(p, 0, line, 0, 3);
    MatchWhole(p, line, 0);
  }

  /** A blank at 3 and a word ending at 4 + n: the name group. */
  lemma DefName(p: seq<Token>, line: string, n: nat)
    requires DefTokens(p)
    requires 0 < n && 4 + n <= |line| && line[3] == ' '
    requires forall k :: 4 <= k < 4 + n ==> IsWordChar(line[k])
    requires 4 + n == |line| || !IsWordChar(line[4 + n])
    requires MatchTokens(p[3..], line, 4 + n) == Some((|line| as nat, []))
    ensures MatchTokens(p[1..], line, 3) == Some((|line| as nat, [line[4..4 + n]] + []))
  {
    RunEndAt(line, 4, 4 + n, WordChars);
    CaptureStep(p, 2, line, 4, 4 + n, |line|, []);
    RunEndAt(line, 3, 4, Blanks);
    MatchStep(p, 1, line, 3, 4);
  }

  /** The part of `def NAME(ARGS) {` after the name: `(` at i, no `)` up to j, and the close from j. */
  lemma DefTail(p: seq<Token>, line: string, i: nat, j: nat)
    requires DefTokens(p)
    requires i < j && j + 4 == |line| && line[i] == '(' && line[j] == ')'
    requires line[j + 1] == ' ' && line[j + 2] == '{' && line[j + 3] == '\n'
    requires forall k :: i < k < j ==> line[k] != ')'
    ensures MatchTokens(p[3..], line, i) == Some((|line| as nat, []))
  {
    DefArgs(p, line, i, j);
    RunEndAt(line, i, i, Blanks);
    MatchStep(p, 3, line, i, i);
  }

  /** `(` at i and no `)` up to j, then the close from j. */
  lemma DefArgs(p: seq<Token>, line: string, i: nat, j: nat)
    requires DefTokens(p)
    requires i < j && j + 4 == |line| && line[i] == '(' && line[j] == ')'
    requires line[j + 1] == ' ' && line[j + 2] == '{' && line[j + 3] == '\n'
    requires forall k :: i < k < j ==> line[k] != ')'
    ensures MatchTokens(p[4..], line, i) == Some((|line| as nat, []))
  {
    DefClose(p, line, j);
    RunEndAt(line, i + 1, j, AllBut(')'));
    MatchStep(p, 5, line, i + 1, j);
    assert line[i..][..1] == "(";
    MatchStep(p, 4, line, i, i + 1);
  }

  /** The `) {` and line end of a function header, from index i. */
  lemma DefClose(p: seq<Token>, line: string, i: nat)
    requires DefTokens(p)
    requires i + 4 == |line| && line[i] == ')' && line[i + 1] == ' ' && line[i + 2] == '{' && line[i + 3] == '\n'
    ensures MatchTokens(p[6..], line, i) == Some((|line| as nat, []))
  {
    DefBrace(p, line, i + 2);
    RunEndAt(line, i + 1, i + 2, Blanks);
    MatchStep(p, 7, line, i + 1, i + 2);
    assert line[i..][..1] == ")";
    MatchStep(p, 6, line, i, i + 1);
  }

  /** The `{` and line end of a function header, from index i. */
  lemma DefBrace(p: seq<Token>, line: string, i: nat)
    requires DefTokens(p)
    requires i + 2 == |line| && line[i] == '{' && line[i + 1] == '\n'
    ensures MatchTokens(p[8..], line, i) == Some((|line| as nat, []))
  {
    RunEndAt(line, i + 1, i + 2, SpaceChars);
    MatchStep(p, 9, line, i + 1, i + 2);
    assert p[10..] == [];
    assert line[i..][..1] == "{";
    MatchStep(p, 8, line, i, i + 1);
  }

  /** The patterns are anchored at the start of the line: an indented declaration is not found. */
  lemma IndentedLineNotFound(p: seq<Token>, line: string)
    requires NamePattern(p) && |p| > 0 && p[0].Lit? && |p[0].s| > 0 && p[0].s[0] != ' '
    requires |line| > 0 && line[0] == ' '
    ensures NameOf(p, line).None?
  {
    assert !StartsWith(line, p[0].s);
  }

  /** relative_path's loop from parent i of the script on, as a function. */
  function RelativeFrom(script: Path, target: Path, i: nat): (r: string)
    requires i <= |script.parts|
    ensures r == PathText(target) || StartsWith(r, "./") || StartsWith(r, "../")
    decreases |script.parts| - i
  {
    if i == |script.parts| then PathText(target)
    else
      match RelativeTo(target, Parents(script)[i])
      case Some(rel) =>
        var up := if i == 0 then "./" else Repeat("../", i);
        assert StartsWith(up + rel, up[..2]) by {
          assert (up + rel)[..2] == up[..2];
        }
        assert i > 0 ==> up[..3] == "../";
        up + rel
      case None => RelativeFrom(script, target, i + 1)
  }

  /**
   * relative_path as a function: `./` or `../` repeated and then a path, or,
   * when no parent of the script holds the import path, the import path itself.
   */
  function RelativePathOf(script: Path, target: Path): (r: string)
    ensures r == PathText(target) || StartsWith(r, "./") || StartsWith(r, "../")
  {
    RelativeFrom(script, target, 0)
  }

  /** relative_path: the first parent of the script that holds the import path decides the result. */
  method RelativePath(script: Path, target: Path) returns (r: string)
    ensures r == RelativePathOf(script, target)
  {
    var parents := Parents(script);
    var i := 0;
    while i < |parents|
      invariant i <= |parents| && RelativeFrom(script, target, i) == RelativePathOf(script, target)
      decreases |parents| - i
    {
      var rel := RelativeTo(target, parents[i]);
      if rel.Some? {
        if i == 0 {
          return "./" + rel.value;
        } else {
          return Repeat("../", i) + rel.value;
        }
      }
      i := i + 1;
    }
    return PathText(target);
  }

  /** Parents j up to i - 1 that do not hold the import path pass the search on to parent i. */
  lemma {:induction false} RelativeFromNearest(script: Path, target: Path, j: nat, i: nat)
    requires j <= i < |script.parts|
    requires forall k :: j <= k < i ==> RelativeTo(target, Parents(script)[k]).None?
    ensures RelativeFrom(script, target, j) == RelativeFrom(script, target, i)
    decreases i - j
  {
    if j < i {
      RelativeFromSkip(script, target, j);
      RelativeFromNearest(script, target, j + 1, i);
    }
  }

  /** A parent that does not hold the target passes the search on to the next one. */
  lemma RelativeFromSkip(script: Path, target: Path, j: nat)
    requires j < |script.parts| && RelativeTo(target, Parents(script)[j]).None?
    ensures RelativeFrom(script, target, j) == RelativeFrom(script, target, j + 1)
  {
  }

  /** A parent that holds the target ends the search. */
  lemma RelativeFromFound(script: Path, target: Path, i: nat)
    requires i < |script.parts| && RelativeTo(target, Parents(script)[i]).Some?
    ensures RelativeFrom(script, target, i) ==
      (if i == 0 then "./" else Repeat("../", i)) + RelativeTo(target, Parents(script)[i]).value
  {
  }

  /**
   * The nearest parent that holds the import path is the one used: `./` and the
   * rest of the path when it is the script's own directory, `../` once per
   * further level otherwise.
   */
  lemma RelativeNearest(script: Path, target: Path, i: nat)
    requires i < |script.parts| && RelativeTo(target, Parents(script)[i]).Some?
    requires forall k :: 0 <= k < i ==> RelativeTo(target, Parents(script)[k]).None?
    ensures RelativePathOf(script, target) ==
      (if i == 0 then "./" else Repeat("../", i)) + RelativeTo(target, Parents(script)[i]).value
  {
    RelativeFromNearest(script, target, 0, i);
    RelativeFromFound(script, target, i);
  }

  /** When no parent holds the import path, the result is the import path as it is. */
  lemma {:induction false} RelativeFromNone(script: Path, target: Path, j: nat)
    requires j <= |script.parts|
    requires forall k :: j <= k < |script.parts| ==> RelativeTo(target, Parents(script)[k]).None?
    ensures RelativeFrom(script, target, j) == PathText(target)
    decreases |script.parts| - j
  {
    if j < |script.parts| {
      RelativeFromNone(script, target, j + 1);
    }
  }

  lemma RelativeNoParent(script: Path, target: Path)
    requires forall k :: 0 <= k < |script.parts| ==> RelativeTo(target, Parents(script)[k]).None?
    ensures RelativePathOf(script, target) == PathText(target)
  {
    RelativeFromNone(script, target, 0);
  }

  /**
   * The relative path leads back to the import path: read from the script's
   * directory, its `..` pieces climb to the nearest parent that holds the
   * import path and its other pieces descend from there.
   */
  lemma RelativePathResolves(script: Path, target: Path, i: nat)
    requires ValidPath(target) && NoUpLevels(target)
    requires i < |script.parts| && RelativeTo(target, Parents(script)[i]).Some?
    requires forall k :: 0 <= k < i ==> RelativeTo(target, Parents(script)[k]).None?
    ensures Resolve(Parents(script)[0], RelativePathOf(script, target)) == target
  {
    RelativeNearest(script, target, i);
    var dir := Parents(script)[0];
    var base := Parents(script)[i];
    RelativeRest(target, base);
    ParentAbove(script, i);
    ResolveFrom(dir.parts, i, target.parts[|base.parts|..]);
  }

  /** What relative_to leaves of a path below base: its remaining parts, which hold no `..`. */
  lemma RelativeRest(target: Path, base: Path)
    requires ValidPath(target) && NoUpLevels(target) && RelativeTo(target, base).Some?
    ensures target.absolute == base.absolute && |base.parts| <= |target.parts|
    ensures var rest := target.parts[|base.parts|..];
      && RelativeTo(target, base).value == PathText(Path(false, rest))
      && (forall k :: 0 <= k < |rest| ==> IsPart(rest[k]) && rest[k] != "..")
      && base.parts + rest == target.parts
  {
    var rest := target.parts[|base.parts|..];
    forall k | 0 <= k < |rest| ensures IsPart(rest[k]) && rest[k] != ".." {
      assert rest[k] == target.parts[|base.parts| + k];
    }
  }

  /** Parent i is parent 0 with i more parts dropped. */
  lemma ParentAbove(script: Path, i: nat)
    requires i < |script.parts|
    ensures var dir := Parents(script)[0];
      && Parents(script)[i].absolute == dir.absolute == script.absolute
      && i <= |dir.parts| && dir.parts[..|dir.parts| - i] == Parents(script)[i].parts
  {
  }

  /** From a directory, the `./` or `../` prefix for level i and then the remaining parts lead to those parts below the parent i levels up. */
  lemma ResolveFrom(dir: seq<string>, i: nat, rest: seq<string>)
    requires i <= |dir|
    requires forall k :: 0 <= k < |rest| ==> IsPart(rest[k]) && rest[k] != ".."
    ensures Walk(dir, Split((if i == 0 then "./" else Repeat("../", i)) + PathText(Path(false, rest)), '/')) ==
      dir[..|dir| - i] + rest
  {
    var relText := PathText(Path(false, rest));
    SplitPathText(rest);
    if i == 0 {
      SplitHere(relText);
      assert dir[..|dir| - 0] == dir;
      WalkDown(dir, rest);
    } else {
      SplitUpLevels(i, relText);
      WalkUp(dir, i, Split(relText, '/'));
      WalkDown(dir[..|dir| - i], rest);
    }
  }

  /** str.lower() on ASCII letters. */
  function Lower(s: string): (r: string)
    ensures |r| == |s|
  {
    seq(|s|, k requires 0 <= k < |s| => if 'A' <= s[k] <= 'Z' then (s[k] as int + 32) as char else s[k])
  }

  /** Lowering changes only upper-case letters, and lowering twice is lowering once. */
  lemma LowerSpec(s: string)
    ensures forall k :: 0 <= k < |s| ==> !('A' <= Lower(s)[k] <= 'Z')
    ensures forall k :: 0 <= k < |s| && !('A' <= s[k] <= 'Z') ==> Lower(s)[k] == s[k]
    ensures Lower(Lower(s)) == Lower(s)
  {
  }

  /** The statement the process command inserts. */
  function ProcessIncludeText(process: string, rel: string): (t: string)
    ensures var p := |process|;
      && |t| == 54 + 2 * p + |rel|
      && t[10..10 + p] == process
      && t[19 + p..19 + p + |rel|] == rel
      && t[|t| - p - 4..|t| - 4] == Lower(process)
      && StartsWith(t, "include { " + process + " } from '")
  {
    var t := "include { " + process + " } from '" + rel + "' addParams( options: modules['" + Lower(process) + "'] )";
    ProcessIncludeParts(process, rel, t);
    t
  }

  /** The statement the functions command inserts: the names joined by `; `. */
  function FunctionsIncludeText(funcs: seq<string>, rel: string): (t: string)
    ensures var names := Join(funcs, "; ");
      && |t| == 20 + |names| + |rel|
      && t[10..10 + |names|] == names
      && t[19 + |names|..19 + |names| + |rel|] == rel
      && StartsWith(t, "include { " + names + " } from '")
  {
    var names := Join(funcs, "; ");
    var before := "include { " + names + " } from '";
    OpensWith(before, rel + "'");
    Middle(before, rel, "'");
    Middle("include { ", names, " } from '");
    assert (before + rel + "'")[10..10 + |names|] == before[10..10 + |names|];
    before + rel + "'"
  }

  /**
   * The names in a functions include can be read back: splitting the joined
   * names on `;` and stripping each piece gives the names, in order.
   */
  lemma FunctionNamesReadBack(funcs: seq<string>)
    requires |funcs| >= 1 && forall k :: 0 <= k < |funcs| ==> IsWord(funcs[k])
    ensures StripAll(Split(Join(funcs, "; "), ';')) == funcs
  {
    SplitNames(funcs);
    StripPieces(Split(Join(funcs, "; "), ';'), funcs);
  }

  /** Pieces that are the words, each after the first with one space before it, strip to the words. */
  lemma StripPieces(pieces: seq<string>, funcs: seq<string>)
    requires |pieces| == |funcs| >= 1 && forall k :: 0 <= k < |funcs| ==> IsWord(funcs[k])
    requires pieces[0] == funcs[0] && forall k :: 1 <= k < |funcs| ==> pieces[k] == " " + funcs[k]
    ensures StripAll(pieces) == funcs
  {
    var names := StripAll(pieces);
    StripWord(funcs[0]);
    forall k | 1 <= k < |funcs| ensures names[k] == funcs[k] {
      StripPadded(" ", funcs[k]);
    }
  }

  /** A word has no whitespace around it to strip. */
  lemma StripWord(w: string)
    requires IsWord(w)
    ensures Strip(w) == w
  {
    StripPadded("", w);
    assert "" + w == w;
  }

  lemma {:induction false} SplitNames(funcs: seq<string>)
    requires |funcs| >= 1 && forall k :: 0 <= k < |funcs| ==> IsWord(funcs[k])
    ensures |Split(Join(funcs, "; "), ';')| == |funcs|
    ensures Split(Join(funcs, "; "), ';')[0] == funcs[0]
    ensures forall k :: 1 <= k < |funcs| ==> Split(Join(funcs, "; "), ';')[k] == " " + funcs[k]
  {
    assert ';' !in funcs[0] by {
      forall i | 0 <= i < |funcs[0]| ensures funcs[0][i] != ';' {
        assert IsWordChar(funcs[0][i]);
      }
    }
    if |funcs| == 1 {
      SplitNoSeparator(funcs[0], ';');
    } else {
      var tail := Join(funcs[1..], "; ");
      var spaced := " " + tail;
      assert Join(funcs, "; ") == funcs[0] + [';'] + spaced;
      SplitAtSeparator(funcs[0], ';', spaced);
      SplitNames(funcs[1..]);
      var r := Split(tail, ';');
      assert spaced[1..] == tail;
      assert Split(spaced, ';') == [" " + r[0]] + r[1..];
    }
  }

  /** Stripping a word with at most some leading whitespace gives the word. */
  lemma StripPadded(pad: string, w: string)
    requires AllSpace(pad) && IsWord(w)
    ensures Strip(pad + w) == w
  {
    var s := pad + w;
    PaddedStart(pad, w);
    assert s[|s| - 1] == w[|w| - 1] && IsWordChar(w[|w| - 1]);
    assert StripEnd(s) == |s|;
    assert s[|pad|..] == w;
  }

  /** Strip starts where the padding ends. */
  lemma PaddedStart(pad: string, w: string)
    requires AllSpace(pad) && IsWord(w)
    ensures StripStart(pad + w) == |pad|
  {
    var s := pad + w;
    var n := |pad|;
    assert forall k :: 0 <= k < n ==> IsSpace(s[k]);
    assert s[n] == w[0] && IsWordChar(w[0]);
    RunEndAt(s, 0, n, SpaceChars);
  }

  /** What a command does to the buffer. */
  datatype Insertion =
    | NoInsertion           // it returns without writing
    | Insert(text: string)  // it writes text at the anchor of the one selection
    | NoRegion              // view.selection[0] raises IndexError: there is no selection

  /**
   * The guards the two insert commands share: an argument that is missing or
   * empty, more than one selection, or a cursor not at column 0 leaves the
   * buffer alone. The column is that of the first selection's anchor.
   */
  function Guarded(argsGiven: bool, selections: nat, column: nat, text: string): (r: Insertion) {
    if !argsGiven || selections > 1 then NoInsertion
    else if selections == 0 then NoRegion
    else if column != 0 then NoInsertion
    else Insert(text)
  }

  /** A truthy string argument: given and not empty. */
  predicate Given(arg: Option<string>) {
    arg.Some? && arg.value != ""
  }

  /** The module path of the include: the module file's path without its extension. */
  function ModuleBase(modulePath: string): Path {
    WithoutSuffix(ParsePath(modulePath))
  }

  /** The module path is a path pathlib would build: each part is a proper part. */
  lemma ModuleBaseValid(modulePath: string)
    ensures ValidPath(ModuleBase(modulePath))
  {
    var p := ParsePath(modulePath);
    if p.parts != [] {
      var name := p.parts[|p.parts| - 1];
      assert IsPart(name);
      var s := Stem(name);
      assert '/' !in s by {
        var i := LastIndexOf(name, '.');
        if 0 < i < |name| - 1 {
          forall k | 0 <= k < i ensures s[k] != '/' {
            assert s[k] == name[k];
          }
        }
      }
    }
  }

  /** A module file `NAME.EXT` becomes the path of `NAME` in the same directory. */
  lemma ModuleBaseDropsExtension(dir: Path, base: string, ext: string)
    requires base != [] && base != "." && ext != [] && '.' !in ext
    ensures WithoutSuffix(Path(dir.absolute, dir.parts + [base + "." + ext])) == Path(dir.absolute, dir.parts + [base])
  {
    StemDropsExtension(base, ext);
    var parts := dir.parts + [base + "." + ext];
    assert parts[..|parts| - 1] == dir.parts;
  }

  /** NextflowIncludeInsertProcessCommand.run, with the editor state and the script's file name given. */
  function InsertProcess(process: Option<string>, modulePath: Option<string>, selections: nat, column: nat,
                         fileName: string): (r: Insertion)
    ensures r.NoRegion? <==> Given(process) && Given(modulePath) && selections == 0
    ensures r.Insert? ==> process.Some? && StartsWith(r.text, "include { " + process.value + " } from '")
  {
    var args := Given(process) && Given(modulePath);
    if args then
      var text := ProcessIncludeText(process.value, RelativePathOf(ParsePath(fileName), ModuleBase(modulePath.value)));
      Guarded(args, selections, column, text)
    else Guarded(args, selections, column, "")
  }

  /** NextflowIncludeInsertFunctionsCommand.run: funcs must be a non-empty list. */
  function InsertFunctions(funcs: seq<string>, modulePath: Option<string>, selections: nat, column: nat,
                           fileName: string): (r: Insertion)
    ensures r.NoRegion? <==> funcs != [] && Given(modulePath) && selections == 0
    ensures r.Insert? ==> StartsWith(r.text, "include { " + Join(funcs, "; ") + " } from '")
  {
    var args := funcs != [] && Given(modulePath);
    if args then
      var text := FunctionsIncludeText(funcs, RelativePathOf(ParsePath(fileName), ModuleBase(modulePath.value)));
      Guarded(args, selections, column, text)
    else Guarded(args, selections, column, "")
  }

  /** Text is written exactly when both arguments are given, there is one selection, and it is at column 0. */
  lemma InsertProcessWhen(process: Option<string>, modulePath: Option<string>, selections: nat, column: nat,
                          fileName: string)
    ensures InsertProcess(process, modulePath, selections, column, fileName).Insert? <==>
      Given(process) && Given(modulePath) && selections == 1 && column == 0
    ensures InsertProcess(process, modulePath, selections, column, fileName).Insert? ==>
      var rel := RelativePathOf(ParsePath(fileName), ModuleBase(modulePath.value));
      InsertProcess(process, modulePath, selections, column, fileName).text == ProcessIncludeText(process.value, rel)
  {
  }

  lemma InsertFunctionsWhen(funcs: seq<string>, modulePath: Option<string>, selections: nat, column: nat,
                            fileName: string)
    ensures InsertFunctions(funcs, modulePath, selections, column, fileName).Insert? <==>
      funcs != [] && Given(modulePath) && selections == 1 && column == 0
    ensures InsertFunctions(funcs, modulePath, selections, column, fileName).Insert? ==>
      var rel := RelativePathOf(ParsePath(fileName), ModuleBase(modulePath.value));
      InsertFunctions(funcs, modulePath, selections, column, fileName).text == FunctionsIncludeText(funcs, rel)
  {
  }

  /**
   * The inserted include names the module: read from the script's directory,
   * its path leads to the module file's path without the extension, when a
   * parent of the script holds the module and the module path has no `..`.
   */
  lemma IncludeResolves(fileName: string, modulePath: string, i: nat)
    requires NoUpLevels(ModuleBase(modulePath))
    requires var script := ParsePath(fileName);
      i < |script.parts| && RelativeTo(ModuleBase(modulePath), Parents(script)[i]).Some? &&
      forall k :: 0 <= k < i ==> RelativeTo(ModuleBase(modulePath), Parents(script)[k]).None?
    ensures var script := ParsePath(fileName);
      Resolve(Parents(script)[0], RelativePathOf(script, ModuleBase(modulePath))) == ModuleBase(modulePath)
  {
    ModuleBaseValid(modulePath);
    RelativePathResolves(ParsePath(fileName), ModuleBase(modulePath), i);
  }

  /** Where the process name, the path and the lower-cased name sit in the process include t. */
  lemma ProcessIncludeParts(process: string, rel: string, t: string)
    requires t == "include { " + process + " } from '" + rel + "' addParams( options: modules['" + Lower(process) + "'] )"
    ensures var p := |process|;
      && |t| == 54 + 2 * p + |rel|
      && t[10..10 + p] == process
      && t[19 + p..19 + p + |rel|] == rel
      && t[|t| - p - 4..|t| - 4] == Lower(process)
      && StartsWith(t, "include { " + process + " } from '")
  {
    var p := |process|;
    var before := "include { " + process + " } from '";
    var after := "' addParams( options: modules['" + Lower(process) + "'] )";
    assert t == before + rel + after;
    OpensWith(before, rel + after);
    Middle(before, rel, after);
    Middle("include { ", process, " } from '");
    assert t[10..10 + p] == before[10..10 + p];
    var front := before + rel + "' addParams( options: modules['";
    assert t == front + Lower(process) + "'] )";
    Middle(front, Lower(process), "'] )");
  }

  lemma OpensWith(a: string, b: string)
    ensures StartsWith(a + b, a)
  {
    assert (a + b)[..|a|] == a;
  }

  /** The middle piece of a concatenation sits between the lengths of the pieces around it. */
  lemma Middle(a: string, b: string, c: string)
    ensures (a + b + c)[|a|..|a| + |b|] == b
  {
  }
}
