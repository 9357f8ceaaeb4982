/**
 * process_label_completion.py: get_config_labels, which lists the
 * `withLabel: NAME { ... }` selectors of a config file with their bodies.
 *
 * The selector pattern `\s*withLabel\s*:\s*['"]?(\w+)['"]?\s*\{\s*` is the
 * token pattern Selector, without its leading `\s*`: that run only moves where
 * a match starts (a position the function never reads), not where it ends or
 * what it captures, and a search finds a match starting in the whitespace
 * before `withLabel` exactly when it finds one at `withLabel` itself.
 */
module ProcessLabelCompletion {
  import opened TextOps
  import opened BraceScan
  import opened Patterns

  const Selector: seq<Token> := [Lit("withLabel"), Run(SpaceChars, 0), Lit(":"), Run(SpaceChars, 0), OptQuote,
                                 Capture(WordChars), OptQuote, Run(SpaceChars, 0), Lit("{"), Run(SpaceChars, 0)]

  /** A pattern whose matches are never empty and have one group, a `\w+`. */
  predicate LabelPattern(p: seq<Token>) {
    StartsWithText(p) && CaptureClasses(p) == [WordChars]
  }

  lemma SelectorIsLabelPattern()
    ensures LabelPattern(Selector)
  {
  }

  /** `'\n'.join(x.strip() for x in s.strip().split('\n'))`: s stripped, and each of its lines stripped. */
  function StripLines(s: string): (r: string)
    ensures Split(r, '\n') == StripAll(Split(Strip(s), '\n'))
    ensures forall k :: 0 <= k < |Split(r, '\n')| ==> Strip(Split(r, '\n')[k]) == Split(r, '\n')[k]
  {
    var pieces := Split(Strip(s), '\n');
    var stripped := StripAll(pieces);
    forall k | 0 <= k < |stripped| ensures '\n' !in stripped[k] {
      NotInStrip(pieces[k], '\n');
    }
    SplitJoin(stripped, '\n');
    forall k | 0 <= k < |stripped| ensures Strip(stripped[k]) == stripped[k] {
      StripIdempotent(pieces[k]);
    }
    Join(stripped, "\n")
  }

  /**
   * The body text of a selector whose match ends at end: the slice from end up
   * to the brace that the depth scan from end + 1 finds (text[end:-1] when it
   * finds none), with its lines stripped.
   */
  function LabelBody(text: string, end: nat): (r: string)
    ensures |Split(r, '\n')| == |Split(Strip(PySlice(text, end, ClosingBracket(text, end + 1))), '\n')|
    ensures forall k :: 0 <= k < |Split(r, '\n')| ==> Strip(Split(r, '\n')[k]) == Split(r, '\n')[k]
  {
    StripLines(PySlice(text, end, ClosingBracket(text, end + 1)))
  }

  /** Every match has a first group. */
  predicate HaveGroup(ms: seq<Match>) {
    forall k :: 0 <= k < |ms| ==> |ms[k].groups| >= 1
  }

  /** One (file name, first group, body) triple per match, in match order. */
  function LabelsOf(fileName: string, text: string, ms: seq<Match>): (ls: seq<(string, string, string)>)
    requires HaveGroup(ms)
  {
    if ms == [] then [] else [(fileName, ms[0].groups[0], LabelBody(text, ms[0].end))] + LabelsOf(fileName, text, ms[1..])
  }

  /** Triple k of LabelsOf comes from match k. */
  lemma {:induction false} LabelsOfAt(fileName: string, text: string, ms: seq<Match>)
    requires HaveGroup(ms)
    ensures var ls := LabelsOf(fileName, text, ms);
      && |ls| == |ms|
      && forall k :: 0 <= k < |ms| ==> ls[k] == (fileName, ms[k].groups[0], LabelBody(text, ms[k].end))
  {
    if ms != [] {
      LabelsOfAt(fileName, text, ms[1..]);
      var ls := LabelsOf(fileName, text, ms);
      forall k | 1 <= k < |ms| ensures ls[k] == (fileName, ms[k].groups[0], LabelBody(text, ms[k].end)) {
        LabelsOfTail(fileName, text, ms, k);
      }
    }
  }

  /** Past the first triple, LabelsOf continues with the triples of the later matches. */
  lemma LabelsOfTail(fileName: string, text: string, ms: seq<Match>, k: nat)
    requires HaveGroup(ms) && 1 <= k < |ms|
    ensures |LabelsOf(fileName, text, ms[1..])| == |ms| - 1
    ensures LabelsOf(fileName, text, ms)[k] == LabelsOf(fileName, text, ms[1..])[k - 1]
    ensures ms[1..][k - 1] == ms[k]
  {
    LabelsOfLength(fileName, text, ms[1..]);
    LabelsOfFirst(fileName, text, ms);
    var tail := LabelsOf(fileName, text, ms[1..]);
    ConsIndex((fileName, ms[0].groups[0], LabelBody(text, ms[0].end)), tail, k);
  }

  lemma ConsIndex<T>(x: T, xs: seq<T>, k: nat)
    requires 1 <= k <= |xs|
    ensures ([x] + xs)[k] == xs[k - 1]
  {
  }

  lemma {:induction false} LabelsOfLength(fileName: string, text: string, ms: seq<Match>)
    requires HaveGroup(ms)
    ensures |LabelsOf(fileName, text, ms)| == |ms|
  {
    if ms != [] {
      LabelsOfLength(fileName, text, ms[1..]);
    }
  }

  /** Every match of a label pattern has exactly one group, the label. */
  lemma PatternMatches(p: seq<Token>, text: string, from: nat)
    requires LabelPattern(p) && from <= |text|
    ensures var ms := FindAll(p, text, from);
      HaveGroup(ms) && forall k :: 0 <= k < |ms| ==> |ms[k].groups| == 1
  {
    FindAllMatches(p, text, from);
  }

  /** The match loop as a function: one (file name, label, body) triple per match of p. */
  function LabelsBy(p: seq<Token>, fileName: string, text: string): seq<(string, string, string)>
    requires LabelPattern(p)
  {
    PatternMatches(p, text, 0);
    LabelsOf(fileName, text, FindAll(p, text, 0))
  }

  /** get_config_labels as a function: the match loop with the selector pattern. */
  function Labels(fileName: string, text: string): (r: seq<(string, string, string)>)
    ensures forall k :: 0 <= k < |r| ==> r[k].0 == fileName && IsWord(r[k].1)
  {
    SelectorIsLabelPattern();
    LabelsAreWords(Selector, fileName, text);
    LabelsPerMatch(Selector, fileName, text);
    LabelsBy(Selector, fileName, text)
  }

  /**
   * Exactly one triple per match of finditer, in match order: the file name,
   * the match's one group, and the body after the match.
   */
  lemma LabelsPerMatch(p: seq<Token>, fileName: string, text: string)
    requires LabelPattern(p)
    ensures var ms, ls := FindAll(p, text, 0), LabelsBy(p, fileName, text);
      && |ls| == |ms|
      && forall k :: 0 <= k < |ls| ==>
           ls[k].0 == fileName && ms[k].groups == [ls[k].1] && ls[k].2 == LabelBody(text, ms[k].end)
  {
    PatternMatches(p, text, 0);
    LabelsOfAt(fileName, text, FindAll(p, text, 0));
  }

  /** A lone group that fits a `\w+` token is a word. */
  lemma WordGroup(name: string)
    requires GroupsFit([name], [WordChars])
    ensures IsWord(name)
  {
    assert IsRunOf(name, WordChars);
    assert forall i :: 0 <= i < |name| ==> InClass(name[i], WordChars);
  }

  /** Every label the loop reports is a word: a non-empty run of `\w` characters. */
  lemma LabelsAreWords(p: seq<Token>, fileName: string, text: string)
    requires LabelPattern(p)
    ensures var ls := LabelsBy(p, fileName, text);
      forall k :: 0 <= k < |ls| ==> IsWord(ls[k].1)
  {
    LabelsPerMatch(p, fileName, text);
    FindAllGroups(p, text, 0);
    var ms, ls := FindAll(p, text, 0), LabelsBy(p, fileName, text);
    forall k | 0 <= k < |ls| ensures IsWord(ls[k].1) {
      assert ms[k].groups == [ls[k].1];
      WordGroup(ls[k].1);
    }
  }

  /** The loop invariant: out holds the triples of the matches before pos. */
  predicate LabelsSoFar(p: seq<Token>, out: seq<(string, string, string)>, fileName: string, text: string, pos: nat)
    requires LabelPattern(p) && pos <= |text|
  {
    PatternMatches(p, text, pos);
    out + LabelsOf(fileName, text, FindAll(p, text, pos)) == LabelsBy(p, fileName, text)
  }

  /** A match found from pos adds its triple, and the search resumes at its end. */
  lemma LabelsAdvance(p: seq<Token>, out: seq<(string, string, string)>, fileName: string, text: string, pos: nat)
    requires LabelPattern(p) && pos <= |text| && LabelsSoFar(p, out, fileName, text, pos)
    requires Search(p, text, pos).Some?
    ensures var m := Search(p, text, pos).value;
      |m.groups| == 1 && LabelsSoFar(p, out + [(fileName, m.groups[0], LabelBody(text, m.end))], fileName, text, m.end)
  {
    PatternMatches(p, text, pos);
    var m := Search(p, text, pos).value;
    PatternMatches(p, text, m.end);
    var ms := FindAll(p, text, pos);
    var rest := FindAll(p, text, m.end);
    assert ms == [m] + rest;
    assert ms[1..] == rest;
    LabelsOfFirst(fileName, text, ms);
    Regroup(out, [(fileName, m.groups[0], LabelBody(text, m.end))], LabelsOf(fileName, text, rest));
  }

  /** LabelsOf starts with the triple of the first match. */
  lemma LabelsOfFirst(fileName: string, text: string, ms: seq<Match>)
    requires HaveGroup(ms) && ms != []
    ensures LabelsOf(fileName, text, ms) ==
      [(fileName, ms[0].groups[0], LabelBody(text, ms[0].end))] + LabelsOf(fileName, text, ms[1..])
  {
  }

  lemma Regroup<T>(a: seq<T>, b: seq<T>, c: seq<T>)
    ensures a + b + c == a + (b + c)
  {
  }

  /** When no match is left, out is the whole result. */
  lemma LabelsFinish(p: seq<Token>, out: seq<(string, string, string)>, fileName: string, text: string, pos: nat)
    requires LabelPattern(p) && pos <= |text| && LabelsSoFar(p, out, fileName, text, pos)
    requires Search(p, text, pos).None?
    ensures out == LabelsBy(p, fileName, text)
  {
    PatternMatches(p, text, pos);
    assert FindAll(p, text, pos) == [];
    assert out + [] == out;
  }

  /** The brace scan of get_config_labels, written inline there: the first index from i where the depth reaches 0. */
  method ScanBody(text: string, end: nat) returns (endBracket: int)
    ensures endBracket == ClosingBracket(text, end + 1)
  {
    var bracketCount := 1;
    endBracket := -1;
    var i := end + 1;
    while i < |text|
      invariant bracketCount >= 1 && endBracket == -1
      invariant ScanFrom(text, i, bracketCount) == ClosingBracket(text, end + 1)
      decreases |text| - i
    {
      var c := text[i];
      if c == '{' {
        bracketCount := bracketCount + 1;
      } else if c == '}' {
        bracketCount := bracketCount - 1;
      }
      if bracketCount == 0 {
        endBracket := i;
        break;
      }
      i := i + 1;
    }
  }

  /** The body text, from the index of the closing brace the scan found. */
  lemma BodyAt(text: string, end: nat, endBracket: int)
    requires endBracket == ClosingBracket(text, end + 1)
    ensures StripLines(PySlice(text, end, endBracket)) == LabelBody(text, end)
  {
  }

  /** The loop of get_config_labels over the matches of p. */
  method ScanLabels(p: seq<Token>, fileName: string, text: string) returns (out: seq<(string, string, string)>)
    requires LabelPattern(p)
    ensures out == LabelsBy(p, fileName, text)
  {
    out := [];
    var pos := 0;
    while true
      invariant pos <= |text| && LabelsSoFar(p, out, fileName, text, pos)
      decreases |text| - pos
    {
      var m := Search(p, text, pos);
      if m.None? {
        LabelsFinish(p, out, fileName, text, pos);
        return;
      }
      LabelsAdvance(p, out, fileName, text, pos);
      var end := m.value.end;
      var endBracket := ScanBody(text, end);
      var subtext := StripLines(PySlice(text, end, endBracket));
      BodyAt(text, end, endBracket);
      out := out + [(fileName, m.value.groups[0], subtext)];
      pos := end;
    }
  }

  /** get_config_labels, with the file's name and text given. */
  method GetConfigLabels(fileName: string, text: string) returns (out: seq<(string, string, string)>)
    ensures out == Labels(fileName, text)
  {
    SelectorIsLabelPattern();
    out := ScanLabels(Selector, fileName, text);
  }

  /** The depth scan reads only text[i..]. */
  lemma {:induction false} ScanFromReadsSuffix(text: string, other: string, i: nat, count: int)
    requires count >= 1 && i <= |text| && |other| == |text|
    requires forall j :: i <= j < |text| ==> other[j] == text[j]
    ensures ScanFrom(other, i, count) == ScanFrom(text, i, count)
    decreases |text| - i
  {
    if i < |text| {
      var next := count + Step(text[i]);
      if next != 0 {
        ScanFromReadsSuffix(text, other, i + 1, next);
      }
    }
  }

  /**
   * The scan for the closing brace starts at end + 1, so the character at end,
   * the first one after the match, is never counted: replacing it does not
   * change where the body ends.
   */
  lemma LabelScanSkipsEnd(text: string, end: nat, c: char)
    requires end < |text|
    ensures ClosingBracket(text[end := c], end + 1) == ClosingBracket(text, end + 1)
  {
    ScanFromReadsSuffix(text, text[end := c], end + 1, 1);
  }
}
