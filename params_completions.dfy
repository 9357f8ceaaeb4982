/**
 * params_completions.py: params_list, which reads the `name = value` lines of
 * the `params { ... }` block of nextflow.config.
 *
 * The header pattern `\nparams\s*\{\n\s*(.*)` (DOTALL) is the token pattern
 * ParamsHeader; its group `(.*)` is everything after the match, text[end..].
 * The line pattern `^(\w+)\s*=\s*(\S+).*$` is ParamAssign: a line is split on
 * '\n', so `.*$` always takes the rest of it. The line scan and its lemmas
 * are stated for any pattern of that shape (AssignPattern); params_list runs
 * the scan with ParamAssign.
 */
module ParamsCompletions {
  import opened TextOps
  import opened Patterns

  const ParamsHeader: seq<Token> := [Lit("\nparams"), Run(SpaceChars, 0), Lit("{\n"), Run(SpaceChars, 0)]
  const ParamAssign: seq<Token> := [Capture(WordChars), Run(SpaceChars, 0), Lit("="), Run(SpaceChars, 0),
                                    Capture(NonSpaceChars), LineRest]

  /** A line pattern that starts with a `\w+` group and has one more group, a `\S+`. */
  predicate AssignPattern(p: seq<Token>) {
    |p| > 0 && p[0] == Capture(WordChars) && CaptureClasses(p) == [WordChars, NonSpaceChars]
  }

  lemma ParamAssignShape()
    ensures AssignPattern(ParamAssign)
  {
  }

  /** p.match(line).groups(), or None when the line does not match. */
  function PairMatch(p: seq<Token>, line: string): (r: Option<(string, string)>)
    requires AssignPattern(p)
  {
    match MatchAt(p, line, 0)
    case None => None
    case Some(m) => Some((m.groups[0], m.groups[1]))
  }

  /** regex_param_val.match(line).groups(), or None when the line does not match. */
  function ParamLine(line: string): (r: Option<(string, string)>) {
    ParamAssignShape();
    PairMatch(ParamAssign, line)
  }

  /** A matched line gives a word for the name and a non-empty run without whitespace for the value. */
  lemma PairMatchShape(p: seq<Token>, line: string)
    requires AssignPattern(p)
    ensures var r := PairMatch(p, line);
      r.Some? ==> IsWord(r.value.0) && |r.value.1| > 0 && forall k :: 0 <= k < |r.value.1| ==> !IsSpace(r.value.1[k])
  {
    MatchGroups(p, line, 0);
    var r := PairMatch(p, line);
    if r.Some? {
      var g := MatchAt(p, line, 0).value.groups;
      assert GroupsFit(g, [WordChars, NonSpaceChars]);
      assert GroupsFit(g[1..], [NonSpaceChars]);
      assert IsRunOf(g[0], WordChars) && IsRunOf(g[1], NonSpaceChars);
      assert forall i :: 0 <= i < |g[0]| ==> InClass(g[0][i], WordChars);
    }
  }

  /** `name = value` written out reads back as (name, value). */
  lemma ParamLineRoundTrip(name: string, value: string)
    requires IsWord(name) && |value| > 0 && forall k :: 0 <= k < |value| ==> !IsSpace(value[k]) && value[k] != '\n'
    ensures ParamLine(name + " = " + value) == Some((name, value))
  {
    var line := name + " = " + value;
    var n := |name|;
    assert AssignTokens(ParamAssign);
    AssignLineShape(name, value);
    ValueTail(ParamAssign, line, n + 3);
    AssignHead(ParamAssign, line, n, value);
    assert [name] + [value] == [name, value];
  }

  /** The tokens of ParamAssign, one by one. */
  predicate AssignTokens(p: seq<Token>) {
    && |p| == 6 && p[0] == Capture(WordChars) && p[1] == Run(SpaceChars, 0) && p[2] == Lit("=")
    && p[3] == Run(SpaceChars, 0) && p[4] == Capture(NonSpaceChars) && p[5] == LineRest
  }

  /** A word ending at n and ` = ` after it hand the rest of the pattern the text from n + 3. */
  lemma AssignHead(p: seq<Token>, line: string, n: nat, value: string)
    requires AssignTokens(p)
    requires 0 < n && n + 3 < |line| && line[n] == ' ' && line[n + 1] == '=' && line[n + 2] == ' '
    requires !IsSpace(line[n + 3]) && forall k :: 0 <= k < n ==> IsWordChar(line[k])
    requires MatchTokens(p[4..], line, n + 3) == Some((|line| as nat, [value]))
    ensures MatchTokens(p, line, 0) == Some((|line| as nat, [line[..n]] + [value]))
  {
    AssignEquals(p, line, n, MatchTokens(p[4..], line, n + 3));
    RunEndAt(line, 0, n, WordChars);
    CaptureStep(p, 0, line, 0, n, |line|, [value]);
    MatchWhole(p, line, 0);
    assert line[0..n] == line[..n];
  }

  /** ` = ` from n on hands the pattern's value part the text from n + 3. */
  lemma AssignEquals(p: seq<Token>, line: string, n: nat, r: Option<(nat, seq<string>)>)
    requires AssignTokens(p)
    requires n + 3 < |line| && line[n] == ' ' && line[n + 1] == '=' && line[n + 2] == ' ' && !IsSpace(line[n + 3])
    requires MatchTokens(p[4..], line, n + 3) == r
    ensures MatchTokens(p[1..], line, n) == r
  {
    AssignEqualsRest(p, line, n + 1, r);
    OneSpace(p, 1, line, n);
  }

  /** A whitespace token facing a single whitespace character steps over it. */
  lemma OneSpace(p: seq<Token>, k: nat, line: string, i: nat)
    requires k < |p| && p[k] == Run(SpaceChars, 0)
    requires i + 1 < |line| && IsSpace(line[i]) && !IsSpace(line[i + 1])
    ensures MatchTokens(p[k..], line, i) == MatchTokens(p[k + 1..], line, i + 1)
  {
    RunEndAt(line, i, i + 1, SpaceChars);
    MatchStep(p, k, line, i, i + 1);
  }

  /** `= ` from i on hands the pattern's value part the text from i + 2. */
  lemma AssignEqualsRest(p: seq<Token>, line: string, i: nat, r: Option<(nat, seq<string>)>)
    requires AssignTokens(p)
    requires i + 2 < |line| && line[i] == '=' && line[i + 1] == ' ' && !IsSpace(line[i + 2])
    requires MatchTokens(p[4..], line, i + 2) == r
    ensures MatchTokens(p[2..], line, i) == r
  {
    OneSpace(p, 3, line, i + 1);
    assert line[i..][..1] == "=";
    MatchStep(p, 2, line, i, i + 1);
  }

  /** Where the pieces of `name = value` sit in its text. */
  lemma AssignLineShape(name: string, value: string)
    requires IsWord(name) && |value| > 0 && forall k :: 0 <= k < |value| ==> !IsSpace(value[k])
    ensures var line := name + " = " + value;
      var n := |name|;
      && |line| == n + 3 + |value| && line[..n] == name && line[n] == ' ' && line[n + 1] == '=' && line[n + 2] == ' '
      && (forall k :: 0 <= k < n ==> IsWordChar(line[k]))
      && line[n + 3..] == value && !IsWordChar(' ')
  {
    var line := name + " = " + value;
    var n := |name|;
    assert forall k :: 0 <= k < n ==> line[k] == name[k];
  }

  /** A value that runs to the end of the line, from index i, is the second group and all that is left. */
  lemma ValueTail(p: seq<Token>, line: string, i: nat)
    requires AssignTokens(p)
    requires i < |line| && forall k :: i <= k < |line| ==> !IsSpace(line[k])
    ensures MatchTokens(p[4..], line, i) == Some((|line| as nat, [line[i..]]))
  {
    RunEndAt(line, |line|, |line|, AllBut('\n'));
    MatchStep(p, 5, line, |line|, |line|);
    assert p[6..] == [];
    RunEndAt(line, i, |line|, NonSpaceChars);
    CaptureStep(p, 4, line, i, |line|, |line|, []);
    assert line[i..|line|] == line[i..];
    assert [line[i..]] + [] == [line[i..]];
  }

  /** Where the name group ends: the end of the `\w+` run at the start of the line. */
  function NameEnd(line: string): nat {
    RunEnd(line, 0, WordChars)
  }

  /** Where the `=` must stand: after the name and the whitespace that follows it. */
  function EqualsAt(line: string): nat {
    RunEnd(line, NameEnd(line), SpaceChars)
  }

  /** Where the value group starts: after the `=` and the whitespace that follows it. */
  function ValueStart(line: string): nat
    requires EqualsAt(line) < |line|
  {
    RunEnd(line, EqualsAt(line) + 1, SpaceChars)
  }

  /** Where the value group ends: the end of the `\S+` run from its start. */
  function ValueEnd(line: string): nat
    requires EqualsAt(line) < |line|
  {
    RunEnd(line, ValueStart(line), NonSpaceChars)
  }

  /**
   * A line of the form `^(\w+)\s*=\s*(\S+).*$`: a non-empty word, `=` after
   * the whitespace that follows it, a non-empty value after the whitespace
   * that follows the `=`, and no line break after the value except at the end.
   */
  predicate AssignShaped(line: string) {
    && 0 < NameEnd(line) && EqualsAt(line) < |line| && line[EqualsAt(line)] == '='
    && ValueStart(line) < ValueEnd(line)
    && forall k :: ValueEnd(line) <= k < |line| - 1 ==> line[k] != '\n'
  }

  /**
   * The line pattern matches exactly the lines of that form, and its groups
   * are the maximal word run at the start and the maximal run without
   * whitespace after the `=`.
   */
  lemma ParamLineGroups(line: string)
    ensures ParamLine(line).Some? <==> AssignShaped(line)
    ensures ParamLine(line).Some? ==>
      ParamLine(line).value == (line[..NameEnd(line)], line[ValueStart(line)..ValueEnd(line)])
  {
    assert AssignTokens(ParamAssign);
    AssignGroups(ParamAssign, line);
  }

  /** AssignTokens patterns match exactly the lines of the `name = value` form, with the maximal runs as groups. */
  lemma AssignGroups(p: seq<Token>, line: string)
    requires AssignTokens(p)
    ensures MatchTokens(p, line, 0).Some? <==> AssignShaped(line)
    ensures MatchTokens(p, line, 0).Some? ==>
      MatchTokens(p, line, 0).value.1 == [line[..NameEnd(line)], line[ValueStart(line)..ValueEnd(line)]]
  {
    if NameEnd(line) == 0 {
      NameMissing(p, line);
    } else if EqualsAt(line) < |line| && line[EqualsAt(line)] == '=' {
      AssignWithEquals(p, line);
    } else {
      NameThenEquals(p, line);
      EqualsMiss(p, line, EqualsAt(line));
    }
  }

  /** With a name and an `=` after it, the match is decided by the value and the rest of the line. */
  lemma AssignWithEquals(p: seq<Token>, line: string)
    requires AssignTokens(p) && NameEnd(line) > 0 && EqualsAt(line) < |line| && line[EqualsAt(line)] == '='
    ensures MatchTokens(p, line, 0).Some? <==> AssignShaped(line)
    ensures MatchTokens(p, line, 0).Some? ==>
      MatchTokens(p, line, 0).value.1 == [line[..NameEnd(line)], line[ValueStart(line)..ValueEnd(line)]]
  {
    HeadToValue(p, line);
    ValueFrom(p, line, ValueStart(line));
  }

  /** With a name and an `=` after it, the whole match is the value part's match with the name put first. */
  lemma HeadToValue(p: seq<Token>, line: string)
    requires AssignTokens(p) && NameEnd(line) > 0 && EqualsAt(line) < |line| && line[EqualsAt(line)] == '='
    ensures MatchTokens(p, line, 0) == GroupFirst(line[..NameEnd(line)], MatchTokens(p[4..], line, ValueStart(line)))
  {
    NameStep(p, line);
    EqualsStep(p, line);
  }

  /** The name group is the word run at the start, and the rest of the pattern goes on after it. */
  lemma NameStep(p: seq<Token>, line: string)
    requires AssignTokens(p) && NameEnd(line) > 0
    ensures MatchTokens(p, line, 0) == GroupFirst(line[..NameEnd(line)], MatchTokens(p[1..], line, NameEnd(line)))
  {
    var n := NameEnd(line);
    assert p[0] == Capture(WordChars) && p[0..] == p;
    assert line[0..n] == line[..n];
  }

  /** After the name, the whitespace, the `=` and the whitespace after it lead to the value part at ValueStart. */
  lemma EqualsStep(p: seq<Token>, line: string)
    requires AssignTokens(p) && EqualsAt(line) < |line| && line[EqualsAt(line)] == '='
    ensures MatchTokens(p[1..], line, NameEnd(line)) == MatchTokens(p[4..], line, ValueStart(line))
  {
    SpaceBeforeEquals(p, line);
    assert ValueStart(line) == RunEnd(line, EqualsAt(line) + 1, SpaceChars);
    EqualsHit(p, line, EqualsAt(line));
  }

  /** The whitespace token after the name takes the text up to EqualsAt. */
  lemma SpaceBeforeEquals(p: seq<Token>, line: string)
    requires AssignTokens(p)
    ensures MatchTokens(p[1..], line, NameEnd(line)) == MatchTokens(p[2..], line, EqualsAt(line))
  {
    var n, e := NameEnd(line), EqualsAt(line);
    assert Advance(p[1], line, n) == Some(e);
    MatchStep(p, 1, line, n, e);
  }

  /** A match of the rest of a pattern, with the group g put before its groups. */
  function GroupFirst(g: string, m: Option<(nat, seq<string>)>): Option<(nat, seq<string>)> {
    if m.None? then None else Some((m.value.0, [g] + m.value.1))
  }

  /** Without a word character at the start, the pattern fails. */
  lemma NameMissing(p: seq<Token>, line: string)
    requires AssignTokens(p) && NameEnd(line) == 0
    ensures MatchTokens(p, line, 0).None?
  {
    assert p[0] == Capture(WordChars);
  }

  /** Every AssignTokens pattern is ParamAssign, so it has the shape PairMatch needs. */
  lemma AssignTokensPattern(p: seq<Token>)
    requires AssignTokens(p)
    ensures AssignPattern(p)
  {
    assert p == ParamAssign;
    ParamAssignShape();
  }

  /** After the name and the whitespace after it, the pattern goes on at EqualsAt, with the name as the first group. */
  lemma NameThenEquals(p: seq<Token>, line: string)
    requires AssignTokens(p) && NameEnd(line) > 0
    ensures MatchTokens(p, line, 0) == GroupFirst(line[..NameEnd(line)], MatchTokens(p[2..], line, EqualsAt(line)))
  {
    var n := NameEnd(line);
    MatchStep(p, 1, line, n, EqualsAt(line));
    assert p[0] == Capture(WordChars) && p[0..] == p;
    assert line[0..n] == line[..n];
  }

  /** `=` at e hands the value part the text after the whitespace that follows it. */
  lemma EqualsHit(p: seq<Token>, line: string, e: nat)
    requires AssignTokens(p) && e < |line| && line[e] == '='
    ensures MatchTokens(p[2..], line, e) == MatchTokens(p[4..], line, RunEnd(line, e + 1, SpaceChars))
  {
    assert line[e..][..1] == "=";
    MatchStep(p, 2, line, e, e + 1);
    MatchStep(p, 3, line, e + 1, RunEnd(line, e + 1, SpaceChars));
  }

  /** Without `=` at e the pattern's `=` part fails. */
  lemma EqualsMiss(p: seq<Token>, line: string, e: nat)
    requires AssignTokens(p) && e <= |line| && !(e < |line| && line[e] == '=')
    ensures MatchTokens(p[2..], line, e) == None
  {
    var q := p[2..];
    assert q[0] == Lit("=");
    if e < |line| {
      assert line[e..][0] == line[e];
    }
    assert Advance(q[0], line, e) == None;
  }

  /** From v, the value group is the maximal run without whitespace, and what follows it must hold no inner line break. */
  lemma ValueFrom(p: seq<Token>, line: string, v: nat)
    requires AssignTokens(p) && v <= |line|
    ensures var w := RunEnd(line, v, NonSpaceChars);
      && (MatchTokens(p[4..], line, v).Some? <==> v < w && forall k :: w <= k < |line| - 1 ==> line[k] != '\n')
      && (MatchTokens(p[4..], line, v).Some? ==> MatchTokens(p[4..], line, v).value.1 == [line[v..w]])
  {
    var w := RunEnd(line, v, NonSpaceChars);
    assert p[4..][0] == p[4] && p[4..][1..] == p[5..];
    LineRestFrom(p, line, w);
  }

  /** The `.*$` at the end matches exactly when no line break stands before the last character. */
  lemma LineRestFrom(p: seq<Token>, line: string, w: nat)
    requires AssignTokens(p) && w <= |line|
    ensures MatchTokens(p[5..], line, w).Some? <==> forall k :: w <= k < |line| - 1 ==> line[k] != '\n'
    ensures MatchTokens(p[5..], line, w).Some? ==> MatchTokens(p[5..], line, w).value.1 == []
  {
    assert p[5..][0] == p[5] && p[5..][1..] == p[6..] && p[6..] == [];
    var j := RunEnd(line, w, AllBut('\n'));
    RunInClass(line, w, AllBut('\n'));
    if j < |line| - 1 {
      assert line[j] == '\n';
    }
  }

  /**
   * A params line reads as (name, value) whatever whitespace surrounds its `=`:
   * the value is the first run without whitespace after the `=`, and the rest
   * of the line, such as a trailing comment, is ignored.
   */
  lemma ParamLineReads(name: string, s1: string, s2: string, rest: string)
    requires IsWord(name) && AllSpace(s1) && AllSpace(s2)
    requires |rest| > 0 && !IsSpace(rest[0]) && '\n' !in rest
    ensures ParamLine(name + s1 + "=" + s2 + rest) == Some((name, rest[..RunEnd(rest, 0, NonSpaceChars)]))
  {
    var line := name + s1 + "=" + s2 + rest;
    PiecesOf(name, s1, s2, rest);
    assert AssignTokens(ParamAssign);
    PairPieces(ParamAssign, line, name, s1, s2, rest);
  }

  /** Where the pieces of `name s1 = s2 rest` sit in its text. */
  lemma PiecesOf(name: string, s1: string, s2: string, rest: string)
    ensures var line := name + s1 + "=" + s2 + rest;
      var e := |name| + |s1|;
      var v := e + 1 + |s2|;
      && line[..|name|] == name && line[|name|..e] == s1 && line[e] == '='
      && line[e + 1..v] == s2 && line[v..] == rest
  {
  }

  /** The read-back of ParamLineReads for any AssignTokens pattern, stated over the slices of the line. */
  lemma PairPieces(p: seq<Token>, line: string, name: string, s1: string, s2: string, rest: string)
    requires AssignTokens(p)
    requires IsWord(name) && AllSpace(s1) && AllSpace(s2)
    requires |rest| > 0 && !IsSpace(rest[0]) && '\n' !in rest
    requires |line| == |name| + |s1| + 1 + |s2| + |rest|
    requires line[..|name|] == name && line[|name|..|name| + |s1|] == s1 && line[|name| + |s1|] == '='
    requires line[|name| + |s1| + 1..|name| + |s1| + 1 + |s2|] == s2 && line[|name| + |s1| + 1 + |s2|..] == rest
    ensures AssignPattern(p) && PairMatch(p, line) == Some((name, rest[..RunEnd(rest, 0, NonSpaceChars)]))
  {
    var a, e, v := |name|, |name| + |s1|, |name| + |s1| + 1 + |s2|;
    var r := RunEnd(rest, 0, NonSpaceChars);
    RunInClass(rest, 0, NonSpaceChars);
    RunsOfPieces(line, name, s1, s2, rest, a, e, v, r);
    assert line[v..v + r] == rest[..r];
    PairRuns(p, line, a, e, v, v + r, name, rest[..r]);
  }

  /** A line whose runs end at a, e, v and w reads as the word before a and the value from v to w. */
  lemma PairRuns(p: seq<Token>, line: string, a: nat, e: nat, v: nat, w: nat, name: string, value: string)
    requires AssignTokens(p)
    requires 0 < a <= e < v < w <= |line| && line[e] == '='
    requires forall k :: 0 <= k < a ==> IsWordChar(line[k])
    requires forall k :: a <= k < e ==> IsSpace(line[k])
    requires forall k :: e < k < v ==> IsSpace(line[k])
    requires forall k :: v <= k < w ==> !IsSpace(line[k])
    requires w == |line| || IsSpace(line[w])
    requires forall k :: w <= k < |line| ==> line[k] != '\n'
    requires line[..a] == name && line[v..w] == value
    ensures AssignPattern(p) && PairMatch(p, line) == Some((name, value))
  {
    AssignTokensPattern(p);
    ReadsPositions(line, a, e, v, w);
    AssignGroups(p, line);
  }

  /** The character classes of the pieces of a `name s1 = s2 rest` line, index by index, with the value run ending r into rest. */
  lemma RunsOfPieces(line: string, name: string, s1: string, s2: string, rest: string, a: nat, e: nat, v: nat, r: nat)
    requires IsWord(name) && AllSpace(s1) && AllSpace(s2) && '\n' !in rest
    requires a == |name| && e == a + |s1| && v == e + 1 + |s2| && |line| == v + |rest|
    requires line[..a] == name && line[a..e] == s1 && line[e + 1..v] == s2 && line[v..] == rest
    requires 0 < r <= |rest| && (r == |rest| || IsSpace(rest[r])) && forall k :: 0 <= k < r ==> !IsSpace(rest[k])
    ensures forall k :: 0 <= k < a ==> IsWordChar(line[k])
    ensures forall k :: a <= k < e ==> IsSpace(line[k])
    ensures forall k :: e < k < v ==> IsSpace(line[k])
    ensures forall k :: v <= k < v + r ==> !IsSpace(line[k])
    ensures v + r == |line| || IsSpace(line[v + r])
    ensures forall k :: v + r <= k < |line| ==> line[k] != '\n'
  {
    assert forall k :: 0 <= k < a ==> line[k] == name[k];
    assert forall k :: a <= k < e ==> line[k] == s1[k - a];
    assert forall k :: e < k < v ==> line[k] == s2[k - e - 1];
    assert forall k :: v <= k < |line| ==> line[k] == rest[k - v];
  }

  /** The name, the `=` and the value of a line end where their runs are seen to end. */
  lemma ReadsPositions(line: string, a: nat, e: nat, v: nat, w: nat)
    requires 0 < a <= e < v < w <= |line| && line[e] == '='
    requires forall k :: 0 <= k < a ==> IsWordChar(line[k])
    requires forall k :: a <= k < e ==> IsSpace(line[k])
    requires forall k :: e < k < v ==> IsSpace(line[k])
    requires forall k :: v <= k < w ==> !IsSpace(line[k])
    requires w == |line| || IsSpace(line[w])
    requires forall k :: w <= k < |line| ==> line[k] != '\n'
    ensures AssignShaped(line) && NameEnd(line) == a && ValueStart(line) == v && ValueEnd(line) == w
  {
    if a < e {
      SpaceIsNotWord(line[a]);
    }
    RunEndAt(line, 0, a, WordChars);
    RunEndAt(line, a, e, SpaceChars);
    RunEndAt(line, e + 1, v, SpaceChars);
    RunEndAt(line, v, w, NonSpaceChars);
  }

  /** No whitespace character is a word character. */
  lemma SpaceIsNotWord(c: char)
    requires IsSpace(c)
    ensures !IsWordChar(c)
  {
  }

  /** A stripped line that the loop skips: blank, or a `//` comment. */
  predicate Skipped(line: string) {
    line == "" || StartsWith(line, "//")
  }

  /** A skipped line never matches the line pattern: it has no leading word character. */
  lemma SkippedIsNotParam(p: seq<Token>, line: string)
    requires AssignPattern(p) && Skipped(line)
    ensures PairMatch(p, line).None?
  {
    assert line == "" || !IsWordChar(line[0]);
  }

  /** A stripped line that closes the block: it starts with `}` (so it is neither skipped nor a match). */
  predicate Closes(line: string) {
    StartsWith(line, "}")
  }

  lemma ClosingIsNotParam(p: seq<Token>, line: string)
    requires AssignPattern(p) && Closes(line)
    ensures !Skipped(line) && PairMatch(p, line).None?
  {
    assert line[0] == '}' && !IsWordChar(line[0]);
  }

  /** The entry a raw line contributes: its match after stripping, if it is not skipped. */
  function Emit(p: seq<Token>, raw: string): (r: seq<(string, string)>)
    requires AssignPattern(p)
    ensures |r| <= 1
  {
    var line := Strip(raw);
    if Skipped(line) then []
    else
      match PairMatch(p, line)
      case Some(e) => [e]
      case None => []
  }

  /** What each line of a run emits, line by line. */
  function Emits(p: seq<Token>, lines: seq<string>): (r: seq<seq<(string, string)>>)
    requires AssignPattern(p)
  {
    seq(|lines|, i requires 0 <= i < |lines| => Emit(p, lines[i]))
  }

  /** The pieces of es concatenated in order. */
  function Gather<T>(es: seq<seq<T>>): seq<T> {
    if es == [] then [] else Gather(es[..|es| - 1]) + es[|es| - 1]
  }

  /** The entries of a run of lines, in line order. */
  function Entries(p: seq<Token>, lines: seq<string>): seq<(string, string)>
    requires AssignPattern(p)
  {
    Gather(Emits(p, lines))
  }

  /** The index of the first line that closes the block, from i on, or |lines|. */
  function StopFrom(lines: seq<string>, i: nat): (s: nat)
    requires i <= |lines|
    ensures i <= s <= |lines|
    ensures s < |lines| ==> Closes(Strip(lines[s]))
    ensures forall j :: i <= j < s ==> !Closes(Strip(lines[j]))
    decreases |lines| - i
  {
    if i == |lines| || Closes(Strip(lines[i])) then i else StopFrom(lines, i + 1)
  }

  /** What params_list collects from the lines of the block: the entries of the lines before the first closing line. */
  function ParamsFromLines(p: seq<Token>, lines: seq<string>): seq<(string, string)>
    requires AssignPattern(p)
  {
    Entries(p, lines[..StopFrom(lines, 0)])
  }

  /** params_list as a function: None without a header, otherwise the entries of the text after it. */
  function ParamsOf(config: string): (r: Option<seq<(string, string)>>)
    ensures r.Some? ==> forall k :: 0 <= k < |r.value| ==>
      IsWord(r.value[k].0) && |r.value[k].1| > 0 && forall c :: c in r.value[k].1 ==> !IsSpace(c)
  {
    match Search(ParamsHeader, config, 0)
    case None => None
    case Some(m) =>
      ParamAssignShape();
      ParamsEntries(ParamAssign, Split(config[m.end..], '\n'));
      Some(ParamsFromLines(ParamAssign, Split(config[m.end..], '\n')))
  }

  /** The scan loop's invariant: out holds the entries of the first i lines, none of which closes the block. */
  predicate ScannedSoFar(p: seq<Token>, out: seq<(string, string)>, lines: seq<string>, i: nat)
    requires AssignPattern(p) && i <= |lines|
  {
    out == Entries(p, lines[..i]) && StopFrom(lines, 0) >= i
  }

  /** One more line adds what that line emits. */
  lemma EntriesStep(p: seq<Token>, lines: seq<string>, i: nat)
    requires AssignPattern(p) && i < |lines|
    ensures Entries(p, lines[..i + 1]) == Entries(p, lines[..i]) + Emit(p, lines[i])
  {
    assert lines[..i + 1] == lines[..i] + [lines[i]];
    EntriesLast(p, lines[..i + 1], lines[..i], lines[i]);
  }

  /** The first closing line is not before i + 1 when line i does not close the block. */
  lemma StopPast(lines: seq<string>, i: nat)
    requires i < |lines| && StopFrom(lines, 0) >= i && !Closes(Strip(lines[i]))
    ensures StopFrom(lines, 0) >= i + 1
  {
  }

  lemma SkippedDoesNotClose(line: string)
    requires Skipped(line)
    ensures !Closes(line)
  {
    assert line == "" || line[0] == '/';
  }

  /** A skipped line adds nothing. */
  lemma ScanSkip(p: seq<Token>, out: seq<(string, string)>, lines: seq<string>, i: nat)
    requires AssignPattern(p) && i < |lines| && ScannedSoFar(p, out, lines, i) && Skipped(Strip(lines[i]))
    ensures ScannedSoFar(p, out, lines, i + 1)
  {
    SkippedDoesNotClose(Strip(lines[i]));
    assert Emit(p, lines[i]) == [];
    EntriesStep(p, lines, i);
    StopPast(lines, i);
  }

  /** A matching line adds its entry. */
  lemma ScanMatch(p: seq<Token>, out: seq<(string, string)>, lines: seq<string>, i: nat, entry: (string, string))
    requires AssignPattern(p) && i < |lines| && ScannedSoFar(p, out, lines, i)
    requires !Skipped(Strip(lines[i])) && PairMatch(p, Strip(lines[i])) == Some(entry)
    ensures ScannedSoFar(p, out + [entry], lines, i + 1)
  {
    var l := Strip(lines[i]);
    assert Emit(p, lines[i]) == [entry];
    EntriesStep(p, lines, i);
    if Closes(l) {
      ClosingIsNotParam(p, l);
      assert false;
    }
    StopPast(lines, i);
  }

  /** Any other line that does not close the block adds nothing. */
  lemma ScanOther(p: seq<Token>, out: seq<(string, string)>, lines: seq<string>, i: nat)
    requires AssignPattern(p) && i < |lines| && ScannedSoFar(p, out, lines, i)
    requires !Skipped(Strip(lines[i])) && PairMatch(p, Strip(lines[i])).None? && !Closes(Strip(lines[i]))
    ensures ScannedSoFar(p, out, lines, i + 1)
  {
    assert Emit(p, lines[i]) == [];
    EntriesStep(p, lines, i);
    StopPast(lines, i);
  }

  /** A closing line ends the scan: out is the whole result. */
  lemma ScanStop(p: seq<Token>, out: seq<(string, string)>, lines: seq<string>, i: nat)
    requires AssignPattern(p) && i < |lines| && ScannedSoFar(p, out, lines, i) && Closes(Strip(lines[i]))
    ensures out == ParamsFromLines(p, lines)
  {
    assert StopFrom(lines, 0) == i;
  }

  /** With every line read and none closing, out is the whole result. */
  lemma ScanEnd(p: seq<Token>, out: seq<(string, string)>, lines: seq<string>)
    requires AssignPattern(p) && ScannedSoFar(p, out, lines, |lines|)
    ensures out == ParamsFromLines(p, lines)
  {
    assert lines[..|lines|] == lines;
  }

  /** One line of the scan, in each of the loop's four cases. */
  lemma ScanLine(p: seq<Token>, out: seq<(string, string)>, lines: seq<string>, i: nat)
    requires AssignPattern(p) && i < |lines| && ScannedSoFar(p, out, lines, i)
    ensures var l := Strip(lines[i]);
      && (Skipped(l) ==> ScannedSoFar(p, out, lines, i + 1))
      && (!Skipped(l) && PairMatch(p, l).Some? ==> ScannedSoFar(p, out + [PairMatch(p, l).value], lines, i + 1))
      && (!Skipped(l) && PairMatch(p, l).None? && Closes(l) ==> out == ParamsFromLines(p, lines))
      && (!Skipped(l) && PairMatch(p, l).None? && !Closes(l) ==> ScannedSoFar(p, out, lines, i + 1))
  {
    var l := Strip(lines[i]);
    if Skipped(l) {
      ScanSkip(p, out, lines, i);
    } else if PairMatch(p, l).Some? {
      ScanMatch(p, out, lines, i, PairMatch(p, l).value);
    } else if Closes(l) {
      ScanStop(p, out, lines, i);
    } else {
      ScanOther(p, out, lines, i);
    }
  }

  /** The loop of params_list over the lines after the header, with line pattern p. */
  method ScanParams(p: seq<Token>, lines: seq<string>) returns (paramVal: seq<(string, string)>)
    requires AssignPattern(p)
    ensures paramVal == ParamsFromLines(p, lines)
  {
    var brackets := 1;
    paramVal := [];
    var i := 0;
    while i < |lines|
      invariant i <= |lines| && brackets == 1 && ScannedSoFar(p, paramVal, lines, i)
      decreases |lines| - i
    {
      ScanLine(p, paramVal, lines, i);
      var l := Strip(lines[i]);
      if l == "" || StartsWith(l, "//") {
        i := i + 1;
        continue;
      }
      var m := PairMatch(p, l);
      if m.Some? {
        paramVal := paramVal + [m.value];
      } else if StartsWith(l, "}") {
        brackets := brackets - 1;
      }
      if brackets == 0 {
        return;
      }
      i := i + 1;
    }
    ScanEnd(p, paramVal, lines);
  }

  /** params_list: the entries of the params block, or None when the config has no header. */
  method ParamsList(config: string) returns (r: Option<seq<(string, string)>>)
    ensures r == ParamsOf(config)
  {
    var m := Search(ParamsHeader, config, 0);
    if m.None? {
      return None;
    }
    var lines := Split(config[m.value.end..], '\n');
    ParamAssignShape();
    var paramVal := ScanParams(ParamAssign, lines);
    return Some(paramVal);
  }

  /** params_list returns None exactly when no position of the config matches the header pattern. */
  lemma ParamsNoneIffNoHeader(config: string)
    ensures ParamsOf(config).None? <==> forall q :: 0 <= q <= |config| ==> MatchAt(ParamsHeader, config, q).None?
  {
    SearchIsFirst(ParamsHeader, config, 0);
  }

  /** The header starts with a newline, so a config without one (a block on its first line included) has no params. */
  lemma NoNewlineNoParams(config: string)
    requires '\n' !in config
    ensures ParamsOf(config).None?
  {
    forall q | 0 <= q <= |config| ensures MatchAt(ParamsHeader, config, q).None? {
      if q < |config| {
        assert config[q] != '\n';
      }
    }
    ParamsNoneIffNoHeader(config);
  }

  /** Entries of consecutive runs of lines come in line order. */
  lemma EntriesAppend(p: seq<Token>, a: seq<string>, b: seq<string>)
    requires AssignPattern(p)
    ensures Entries(p, a + b) == Entries(p, a) + Entries(p, b)
  {
    EmitsAppend(p, a, b);
    GatherAppend(Emits(p, a), Emits(p, b));
  }

  lemma EmitsAppend(p: seq<Token>, a: seq<string>, b: seq<string>)
    requires AssignPattern(p)
    ensures Emits(p, a + b) == Emits(p, a) + Emits(p, b)
  {
    EmitsFront(p, a, b);
    EmitsBack(p, a, b);
    TakeDrop(Emits(p, a + b), |a|);
  }

  /** A sequence is its first k elements followed by the rest. */
  lemma TakeDrop<T>(l: seq<T>, k: nat)
    requires k <= |l|
    ensures l == l[..k] + l[k..]
  {
  }

  /** The first |a| lines of a + b emit what a emits. */
  lemma EmitsFront(p: seq<Token>, a: seq<string>, b: seq<string>)
    requires AssignPattern(p)
    ensures Emits(p, a + b)[..|a|] == Emits(p, a)
  {
    forall i | 0 <= i < |a| ensures Emits(p, a + b)[i] == Emits(p, a)[i] {
      assert (a + b)[i] == a[i];
    }
  }

  /** The lines after the first |a| of a + b emit what b emits. */
  lemma EmitsBack(p: seq<Token>, a: seq<string>, b: seq<string>)
    requires AssignPattern(p)
    ensures Emits(p, a + b)[|a|..] == Emits(p, b)
  {
    forall i | 0 <= i < |b| ensures Emits(p, a + b)[|a| + i] == Emits(p, b)[i] {
      assert (a + b)[|a| + i] == b[i];
    }
  }

  lemma {:induction false} GatherAppend<T>(xs: seq<seq<T>>, ys: seq<seq<T>>)
    ensures Gather(xs + ys) == Gather(xs) + Gather(ys)
    decreases |ys|
  {
    if ys == [] {
      assert xs + ys == xs;
    } else {
      var zs, init, last := xs + ys, ys[..|ys| - 1], ys[|ys| - 1];
      GatherAppend(xs, init);
      assert zs[..|zs| - 1] == xs + init && zs[|zs| - 1] == last;
      assert Gather(zs) == Gather(xs) + Gather(init) + last;
      assert Gather(ys) == Gather(init) + last;
    }
  }

  /** The entries of lines that end with last: those of the lines before it, then what last emits. */
  lemma EntriesLast(p: seq<Token>, lines: seq<string>, init: seq<string>, last: string)
    requires AssignPattern(p) && lines == init + [last]
    ensures Entries(p, lines) == Entries(p, init) + Emit(p, last)
  {
    EmitsAppend(p, init, [last]);
    var es := Emits(p, lines);
    assert es[..|es| - 1] == Emits(p, init);
    assert es[|es| - 1] == Emit(p, last);
  }

  /** A blank or comment line contributes nothing, wherever it stands. */
  lemma SkippedLineIgnored(p: seq<Token>, a: seq<string>, line: string, b: seq<string>)
    requires AssignPattern(p) && Skipped(Strip(line))
    ensures Entries(p, a + [line] + b) == Entries(p, a + b)
  {
    assert Emit(p, line) == [];
    assert Entries(p, [line]) == [] by {
      EntriesLast(p, [line], [], line);
    }
    EntriesAppend(p, a, [line]);
    EntriesAppend(p, a + [line], b);
    EntriesAppend(p, a, b);
  }

  /** e is what some line of lines that is neither blank nor a comment matches to. */
  predicate FromLine(p: seq<Token>, lines: seq<string>, e: (string, string))
    requires AssignPattern(p)
  {
    exists i :: 0 <= i < |lines| && !Skipped(Strip(lines[i])) && PairMatch(p, Strip(lines[i])) == Some(e)
  }

  /** Every entry of a run of lines comes from one of its lines that is neither blank nor a comment and matches. */
  lemma {:induction false} EntriesFromLines(p: seq<Token>, lines: seq<string>)
    requires AssignPattern(p)
    ensures forall k :: 0 <= k < |Entries(p, lines)| ==> FromLine(p, lines, Entries(p, lines)[k])
    decreases |lines|
  {
    if lines != [] {
      var init := lines[..|lines| - 1];
      var last := lines[|lines| - 1];
      assert lines == init + [last];
      EntriesLast(p, lines, init, last);
      EntriesFromLines(p, init);
      var es := Entries(p, lines);
      forall k | 0 <= k < |es| ensures FromLine(p, lines, es[k]) {
        if k < |Entries(p, init)| {
          assert FromLine(p, init, Entries(p, init)[k]);
          var i :| 0 <= i < |init| && !Skipped(Strip(init[i])) && PairMatch(p, Strip(init[i])) == Some(Entries(p, init)[k]);
          assert lines[i] == init[i];
        } else {
          assert es[k] == Emit(p, last)[0];
          assert PairMatch(p, Strip(last)) == Some(es[k]);
        }
      }
    }
  }

  /**
   * params_list's entries: each comes from a line before the first line that
   * starts with `}`, and is a word name with a non-empty value without whitespace.
   */
  lemma ParamsEntries(p: seq<Token>, lines: seq<string>)
    requires AssignPattern(p)
    ensures forall k :: 0 <= k < |ParamsFromLines(p, lines)| ==>
      var e := ParamsFromLines(p, lines)[k];
      && IsWord(e.0) && |e.1| > 0 && (forall c :: c in e.1 ==> !IsSpace(c))
      && exists i :: 0 <= i < StopFrom(lines, 0) && !Skipped(Strip(lines[i])) && PairMatch(p, Strip(lines[i])) == Some(e)
  {
    var s := StopFrom(lines, 0);
    var pre := lines[..s];
    EntriesFromLines(p, pre);
    var es := ParamsFromLines(p, lines);
    assert es == Entries(p, pre);
    forall k | 0 <= k < |es|
      ensures IsWord(es[k].0) && |es[k].1| > 0 && (forall c :: c in es[k].1 ==> !IsSpace(c))
      ensures exists i :: 0 <= i < s && !Skipped(Strip(lines[i])) && PairMatch(p, Strip(lines[i])) == Some(es[k])
    {
      assert FromLine(p, pre, es[k]);
      var i :| 0 <= i < |pre| && !Skipped(Strip(pre[i])) && PairMatch(p, Strip(pre[i])) == Some(es[k]);
      assert pre[i] == lines[i];
      PairMatchShape(p, Strip(lines[i]));
    }
  }

  /** Nothing after the first closing line, at s, counts: replacing everything after it changes no entry. */
  lemma LinesAfterCloseIgnored(p: seq<Token>, lines: seq<string>, more: seq<string>, s: nat)
    requires AssignPattern(p) && s == StopFrom(lines, 0) < |lines|
    ensures ParamsFromLines(p, lines[..s + 1] + more) == ParamsFromLines(p, lines)
  {
    SameStop(lines, more, s);
    SameLinesBeforeStop(p, lines, lines[..s + 1] + more, s);
  }

  /** Two runs of lines that stop at the same index s and agree before it give the same entries. */
  lemma SameLinesBeforeStop(p: seq<Token>, lines: seq<string>, lines': seq<string>, s: nat)
    requires AssignPattern(p) && s == StopFrom(lines, 0) && StopFrom(lines', 0) == s && lines'[..s] == lines[..s]
    ensures ParamsFromLines(p, lines') == ParamsFromLines(p, lines)
  {
  }

  /** Keeping the lines up to the first closing one and replacing the rest keeps the stop and the lines before it. */
  lemma SameStop(lines: seq<string>, more: seq<string>, s: nat)
    requires s == StopFrom(lines, 0) < |lines|
    ensures StopFrom(lines[..s + 1] + more, 0) == s && (lines[..s + 1] + more)[..s] == lines[..s]
  {
    var lines' := lines[..s + 1] + more;
    assert lines'[..s + 1] == lines[..s + 1];
    StopFromPrefix(lines, lines', 0, s);
    assert lines'[..s] == lines'[..s + 1][..s];
  }

  /** StopFrom only reads the lines up to the one it finds. */
  lemma {:induction false} StopFromPrefix(lines: seq<string>, lines': seq<string>, i: nat, s: nat)
    requires i <= s < |lines| && s < |lines'| && StopFrom(lines, i) == s
    requires lines'[..s + 1] == lines[..s + 1]
    ensures StopFrom(lines', i) == s
    decreases s - i
  {
    assert lines'[i] == lines'[..s + 1][i];
    if i < s {
      StopFromPrefix(lines, lines', i + 1, s);
    }
  }
}
