/**
 * The regular expressions of the helpers, as sequences of tokens that each
 * match in exactly one way.
 *
 * Every pattern used here is made of literals, maximal runs of a character
 * class, optional quotes and two kinds of line ends. In each pattern the
 * character after a run can never continue the run (a `\w+` is followed by
 * whitespace, `=`, `(`, `{` or a quote; a `\s*` by a literal that is not
 * whitespace, and so on), so backtracking into a run never helps: a greedy run
 * either leads to the match or no match exists at that position. An optional
 * quote is taken exactly when it is there, because the token after it never
 * starts with a quote. So the matcher below, which takes each run whole and
 * never backtracks, finds the match the regex engine finds.
 */
module Patterns {
  import opened TextOps

  datatype Token =
    | Lit(s: string)                 // the text s itself
    | Run(cls: CharClass, min: nat)  // the maximal run of class cls, at least min long: `\s*`, ` +`, `[^)]*`
    | Capture(cls: CharClass)        // a maximal non-empty run, captured as a group: `(\w+)`, `(\S+)`
    | OptQuote                       // `(?:['"])?`
    | LineRest                       // `.*$`: the rest of the line, which must be the last line
    | SpaceRest                      // `\s*$`: only whitespace is left

  /** One match: where it starts, where it ends, and its groups in order. */
  datatype Match = Match(at: nat, end: nat, groups: seq<string>)

  predicate IsQuote(c: char) {
    c == '\'' || c == '"'
  }

  /** The classes of the capturing tokens of a pattern, in order. */
  function CaptureClasses(toks: seq<Token>): seq<CharClass> {
    if toks == [] then []
    else (if toks[0].Capture? then [toks[0].cls] else []) + CaptureClasses(toks[1..])
  }

  /** A non-empty run of characters of class cls. */
  predicate IsRunOf(s: string, cls: CharClass) {
    |s| > 0 && forall k :: 0 <= k < |s| ==> InClass(s[k], cls)
  }

  /** Each group is a non-empty run of the class of its capturing token, one group per token. */
  predicate GroupsFit(groups: seq<string>, classes: seq<CharClass>) {
    if groups == [] || classes == [] then groups == [] && classes == []
    else IsRunOf(groups[0], classes[0]) && GroupsFit(groups[1..], classes[1..])
  }

  /** Where a token that captures nothing ends when it starts at i, or None. */
  function Advance(tok: Token, text: string, i: nat): (j: Option<nat>)
    requires i <= |text|
    ensures j.Some? ==> i <= j.value <= |text|
    ensures j.Some? && tok.Lit? ==> j.value == i + |tok.s|
  {
    match tok
    case Lit(s) => if StartsWith(text[i..], s) then Some(i + |s|) else None
    case Run(cls, min) =>
      var j := RunEnd(text, i, cls);
      if j - i < min then None else Some(j)
    case Capture(cls) => None
    case OptQuote => if i < |text| && IsQuote(text[i]) then Some(i + 1) else Some(i)
    case LineRest =>
      var j := RunEnd(text, i, AllBut('\n'));
      if j == |text| || j == |text| - 1 then Some(j) else None
    case SpaceRest => if RunEnd(text, i, SpaceChars) == |text| then Some(|text|) else None
  }

  /** Match toks against text from index i, as the end of the match and the groups. */
  function MatchTokens(toks: seq<Token>, text: string, i: nat): (r: Option<(nat, seq<string>)>)
    requires i <= |text|
    ensures r.Some? ==> i <= r.value.0 <= |text|
    ensures r.Some? && toks != [] && toks[0].Lit? ==> i + |toks[0].s| <= r.value.0
    ensures r.Some? ==> |r.value.1| == |CaptureClasses(toks)|
    decreases |toks|
  {
    if toks == [] then Some((i, []))
    else if toks[0].Capture? then
      var j := RunEnd(text, i, toks[0].cls);
      if j == i then None
      else
        match MatchTokens(toks[1..], text, j)
        case None => None
        case Some(m) => Some((m.0, [text[i..j]] + m.1))
    else
      match Advance(toks[0], text, i)
      case None => None
      case Some(j) => MatchTokens(toks[1..], text, j)
  }

  /** There is one group per capturing token, and each is a non-empty run of that token's class. */
  lemma {:induction false} MatchGroups(toks: seq<Token>, text: string, i: nat)
    requires i <= |text|
    ensures var r := MatchTokens(toks, text, i);
      r.Some? ==> GroupsFit(r.value.1, CaptureClasses(toks))
    decreases |toks|
  {
    if toks != [] {
      var r := MatchTokens(toks, text, i);
      if toks[0].Capture? {
        var j := RunEnd(text, i, toks[0].cls);
        if j != i {
          MatchGroups(toks[1..], text, j);
          RunInClass(text, i, toks[0].cls);
          if r.Some? {
            var m := MatchTokens(toks[1..], text, j).value;
            var g := [text[i..j]] + m.1;
            assert r.value.1 == g && g[1..] == m.1;
            var cs := CaptureClasses(toks);
            assert cs == [toks[0].cls] + CaptureClasses(toks[1..]);
            assert cs[1..] == CaptureClasses(toks[1..]);
          }
        }
      } else {
        var j := Advance(toks[0], text, i);
        if j.Some? {
          MatchGroups(toks[1..], text, j.value);
          assert r == MatchTokens(toks[1..], text, j.value);
          assert CaptureClasses(toks) == [] + CaptureClasses(toks[1..]) == CaptureClasses(toks[1..]);
        }
      }
    }
  }

  /** Token k of p, which captures nothing and ends at j, hands the rest of the pattern the text from j. */
  lemma MatchStep(p: seq<Token>, k: nat, text: string, i: nat, j: nat)
    requires k < |p| && !p[k].Capture? && i <= |text| && Advance(p[k], text, i) == Some(j)
    ensures MatchTokens(p[k..], text, i) == MatchTokens(p[k + 1..], text, j)
  {
    assert p[k..][0] == p[k] && p[k..][1..] == p[k + 1..];
  }

  /** Token k of p, a capture that takes the run from i to j, adds text[i..j] as the next group. */
  lemma CaptureStep(p: seq<Token>, k: nat, text: string, i: nat, j: nat, end: nat, groups: seq<string>)
    requires k < |p| && p[k].Capture? && i < j <= |text| && RunEnd(text, i, p[k].cls) == j
    requires MatchTokens(p[k + 1..], text, j) == Some((end, groups))
    ensures MatchTokens(p[k..], text, i) == Some((end, [text[i..j]] + groups))
  {
    assert p[k..][0] == p[k] && p[k..][1..] == p[k + 1..];
  }

  /** The whole pattern is the pattern from token 0. */
  lemma MatchWhole(p: seq<Token>, text: string, i: nat)
    requires i <= |text|
    ensures MatchTokens(p[0..], text, i) == MatchTokens(p, text, i)
  {
    assert p[0..] == p;
  }

  /** re.match at position q (None past the end of the text). */
  function MatchAt(toks: seq<Token>, text: string, q: nat): (m: Option<Match>)
    ensures m.Some? ==> m.value.at == q && q <= m.value.end <= |text|
    ensures m.Some? ==> |m.value.groups| == |CaptureClasses(toks)|
  {
    if q > |text| then None
    else
      match MatchTokens(toks, text, q)
      case None => None
      case Some(r) => Some(Match(q, r.0, r.1))
  }

  /** re.search from index from: the match at the first position from there that has one. */
  function Search(toks: seq<Token>, text: string, from: nat): (m: Option<Match>)
    requires from <= |text|
    ensures m.Some? ==> from <= m.value.at && MatchAt(toks, text, m.value.at) == m
    decreases |text| - from
  {
    match MatchAt(toks, text, from)
    case Some(x) => Some(x)
    case None => if from == |text| then None else Search(toks, text, from + 1)
  }

  /** No position between from and the found match (or the end) has a match. */
  lemma {:induction false} SearchIsFirst(toks: seq<Token>, text: string, from: nat)
    requires from <= |text|
    ensures var m := Search(toks, text, from);
      forall q :: from <= q <= |text| && (m.None? || q < m.value.at) ==> MatchAt(toks, text, q).None?
    decreases |text| - from
  {
    if MatchAt(toks, text, from).None? && from < |text| {
      SearchIsFirst(toks, text, from + 1);
    }
  }

  /** A pattern that starts with a non-empty literal: none of its matches is empty. */
  predicate StartsWithText(toks: seq<Token>) {
    toks != [] && toks[0].Lit? && |toks[0].s| > 0
  }

  /** re.finditer from index from: each search resumes where the previous match ended. */
  function FindAll(toks: seq<Token>, text: string, from: nat): seq<Match>
    requires StartsWithText(toks) && from <= |text|
    decreases |text| - from
  {
    match Search(toks, text, from)
    case None => []
    case Some(m) => [m] + FindAll(toks, text, m.end)
  }

  /** Every match finditer returns is the match at its position, and none is empty. */
  lemma {:induction false} FindAllMatches(toks: seq<Token>, text: string, from: nat)
    requires StartsWithText(toks) && from <= |text|
    ensures var ms := FindAll(toks, text, from);
      forall k :: 0 <= k < |ms| ==> from <= ms[k].at < ms[k].end && MatchAt(toks, text, ms[k].at) == Some(ms[k])
    decreases |text| - from
  {
    var m := Search(toks, text, from);
    if m.Some? {
      FindAllMatches(toks, text, m.value.end);
      var ms := FindAll(toks, text, from);
      assert ms == [m.value] + FindAll(toks, text, m.value.end);
    }
  }

  /** The groups of every match finditer returns fit the pattern's capturing tokens. */
  lemma FindAllGroups(toks: seq<Token>, text: string, from: nat)
    requires StartsWithText(toks) && from <= |text|
    ensures var ms := FindAll(toks, text, from);
      forall k :: 0 <= k < |ms| ==> GroupsFit(ms[k].groups, CaptureClasses(toks))
  {
    FindAllMatches(toks, text, from);
    assert forall k :: 0 <= k < |FindAll(toks, text, from)| ==>
      FindAll(toks, text, from)[k].end <= |text|;
    var ms := FindAll(toks, text, from);
    forall k | 0 <= k < |ms| ensures GroupsFit(ms[k].groups, CaptureClasses(toks)) {
      MatchGroups(toks, text, ms[k].at);
    }
  }

  /** The first match finditer returns starts at from or later. */
  lemma FindAllFrom(toks: seq<Token>, text: string, from: nat)
    requires StartsWithText(toks) && from <= |text|
    ensures var ms := FindAll(toks, text, from);
      |ms| > 0 ==> from <= ms[0].at
  {
  }

  /** finditer's matches come in text order without overlapping. */
  lemma {:induction false} FindAllOrdered(toks: seq<Token>, text: string, from: nat)
    requires StartsWithText(toks) && from <= |text|
    ensures var ms := FindAll(toks, text, from);
      forall k :: 0 < k < |ms| ==> ms[k - 1].end <= ms[k].at
    decreases |text| - from
  {
    var m := Search(toks, text, from);
    if m.Some? {
      var x := m.value;
      FindAllOrdered(toks, text, x.end);
      FindAllFrom(toks, text, x.end);
      var rest := FindAll(toks, text, x.end);
      var ms := FindAll(toks, text, from);
      assert ms == [x] + rest;
      forall k | 0 < k < |ms| ensures ms[k - 1].end <= ms[k].at {
        if k > 1 {
          assert ms[k - 1] == rest[k - 2] && ms[k] == rest[k - 1];
        } else {
          assert ms[1] == rest[0];
        }
      }
    }
  }

  /** No position between two consecutive matches of finditer has a match. */
  lemma {:induction false} FindAllBetween(toks: seq<Token>, text: string, from: nat)
    requires StartsWithText(toks) && from <= |text|
    ensures var ms := FindAll(toks, text, from);
      forall k, q :: 0 <= k < |ms| - 1 && ms[k].end <= q < ms[k + 1].at ==> MatchAt(toks, text, q).None?
    decreases |text| - from
  {
    var m := Search(toks, text, from);
    if m.Some? {
      var x := m.value;
      FindAllBetween(toks, text, x.end);
      FindAllEdges(toks, text, x.end);
      var rest := FindAll(toks, text, x.end);
      var ms := FindAll(toks, text, from);
      assert ms == [x] + rest;
      forall k, q | 0 <= k < |ms| - 1 && ms[k].end <= q < ms[k + 1].at
        ensures MatchAt(toks, text, q).None?
      {
        if k > 0 {
          assert ms[k] == rest[k - 1] && ms[k + 1] == rest[k];
        } else {
          assert ms[1] == rest[0];
        }
      }
    }
  }

  /**
   * No position before finditer's first match, or after its last, has a match;
   * when it finds nothing, no position from the start of the search has one.
   */
  lemma {:induction false} FindAllEdges(toks: seq<Token>, text: string, from: nat)
    requires StartsWithText(toks) && from <= |text|
    ensures var ms := FindAll(toks, text, from);
      && (|ms| == 0 <==> forall q :: from <= q <= |text| ==> MatchAt(toks, text, q).None?)
      && (|ms| > 0 ==> forall q :: from <= q < ms[0].at ==> MatchAt(toks, text, q).None?)
      && (|ms| > 0 ==> forall q :: ms[|ms| - 1].end <= q <= |text| ==> MatchAt(toks, text, q).None?)
    decreases |text| - from
  {
    SearchIsFirst(toks, text, from);
    var m := Search(toks, text, from);
    if m.Some? {
      var x := m.value;
      FindAllEdges(toks, text, x.end);
      var rest := FindAll(toks, text, x.end);
      var ms := FindAll(toks, text, from);
      assert ms == [x] + rest;
      assert ms[|ms| - 1] == if rest == [] then x else rest[|rest| - 1];
    }
  }
}
