/**
 * Locating a named block and a section keyword inside it.
 *
 * find_process_name / find_workflow_name search for `KEYWORD\s+NAME\s*{` and
 * return the offset just past the brace; the section finders search a slice
 * for `\s*SECTION:\s*` and return the end of the match, relative to the slice.
 * Both are written here as literal-plus-whitespace matchers. Because NAME
 * starts with a word character and `{` is not whitespace, each `\s` run in
 * these patterns can only match the maximal run, so a match at a position is
 * unique and the regex's leftmost match is the first position that matches.
 */
module BlockSearch {
  import opened TextOps

  /**
   * The match of `KEYWORD\s+NAME\s*{` that starts at p, as the offset just past
   * the brace, or None.
   */
  function BlockMatchAt(text: string, keyword: string, name: string, p: nat): (m: Option<nat>)
    requires p <= |text|
    ensures m.Some? ==> p < m.value <= |text| && text[m.value - 1] == '{'
  {
    if !StartsWith(text[p..], keyword) then None
    else
      var a := p + |keyword|;
      var b := SpaceRunEnd(text, a);
      if b == a || !StartsWith(text[b..], name) then None
      else
        var c := SpaceRunEnd(text, b + |name|);
        if c < |text| && text[c] == '{' then Some(c + 1) else None
  }

  /** The first match at or after p, as the offset just past its brace, or -1. */
  function SearchBlock(text: string, keyword: string, name: string, p: nat): (r: int)
    requires p <= |text|
    ensures r == -1 || (p < r <= |text| && text[r - 1] == '{')
    decreases |text| - p
  {
    match BlockMatchAt(text, keyword, name, p)
    case Some(e) => e
    case None => if p == |text| then -1 else SearchBlock(text, keyword, name, p + 1)
  }

  /** re.search(KEYWORD + r'\s+' + NAME + r'\s*{', text).end(), or -1 when there is no match. */
  function FindBlock(keyword: string, name: string, text: string): (r: int)
    requires IsWord(name)
    ensures r == -1 || (0 < r <= |text| && text[r - 1] == '{')
  {
    SearchBlock(text, keyword, name, 0)
  }

  /** find_process_name */
  function FindProcessName(name: string, text: string): (r: int)
    requires IsWord(name)
    ensures r == -1 || (0 < r <= |text| && text[r - 1] == '{')
  {
    FindBlock("process", name, text)
  }

  /** find_workflow_name */
  function FindWorkflowName(name: string, text: string): (r: int)
    requires IsWord(name)
    ensures r == -1 || (0 < r <= |text| && text[r - 1] == '{')
  {
    FindBlock("workflow", name, text)
  }

  /** The search finds nothing exactly when no position from p on matches. */
  lemma {:induction false} SearchBlockNone(text: string, keyword: string, name: string, p: nat)
    requires p <= |text|
    ensures SearchBlock(text, keyword, name, p) == -1 <==>
      forall q :: p <= q <= |text| ==> BlockMatchAt(text, keyword, name, q).None?
    decreases |text| - p
  {
    if BlockMatchAt(text, keyword, name, p).None? && p < |text| {
      SearchBlockNone(text, keyword, name, p + 1);
      assert SearchBlock(text, keyword, name, p) == SearchBlock(text, keyword, name, p + 1);
    }
  }

  /** A result other than -1 comes from the first position from p on that matches. */
  lemma {:induction false} SearchBlockFirst(text: string, keyword: string, name: string, p: nat)
    requires p <= |text|
    ensures var r := SearchBlock(text, keyword, name, p);
      r != -1 ==> exists q :: p <= q <= |text| && BlockMatchAt(text, keyword, name, q) == Some(r)
                    && forall q' :: p <= q' < q ==> BlockMatchAt(text, keyword, name, q').None?
    decreases |text| - p
  {
    var r := SearchBlock(text, keyword, name, p);
    if BlockMatchAt(text, keyword, name, p).Some? {
      assert BlockMatchAt(text, keyword, name, p) == Some(r);
    } else if p < |text| {
      SearchBlockFirst(text, keyword, name, p + 1);
      assert r == SearchBlock(text, keyword, name, p + 1);
      if r != -1 {
        var q :| p + 1 <= q <= |text| && BlockMatchAt(text, keyword, name, q) == Some(r)
          && forall q' :: p + 1 <= q' < q ==> BlockMatchAt(text, keyword, name, q').None?;
        assert forall q' :: p <= q' < q ==> BlockMatchAt(text, keyword, name, q').None?;
      }
    }
  }

  /**
   * The block finders return -1 exactly when no position matches; otherwise the
   * offset just past the brace of the leftmost match.
   */
  lemma FindBlockIsLeftmostMatch(keyword: string, name: string, text: string)
    requires IsWord(name)
    ensures var r := FindBlock(keyword, name, text);
      && (r == -1 <==> forall q :: 0 <= q <= |text| ==> BlockMatchAt(text, keyword, name, q).None?)
      && (r != -1 ==> exists q :: 0 <= q <= |text| && BlockMatchAt(text, keyword, name, q) == Some(r)
                        && forall q' :: 0 <= q' < q ==> BlockMatchAt(text, keyword, name, q').None?)
  {
    SearchBlockNone(text, keyword, name, 0);
    SearchBlockFirst(text, keyword, name, 0);
  }

  /** A file that opens with `KEYWORD NAME {` has its block body start right after that brace. */
  lemma FindBlockAtStart(keyword: string, name: string, rest: string)
    requires IsWord(name)
    ensures FindBlock(keyword, name, keyword + " " + name + " {" + rest) == |keyword| + |name| + 3
  {
    var text := keyword + " " + name + " {" + rest;
    var k := |keyword|;
    assert text[0..][..k] == keyword;
    assert text[k] == ' ';
    assert text[k + 1] == name[0];
    assert SpaceRunEnd(text, k + 1) == k + 1;
    assert SpaceRunEnd(text, k) == k + 1;
    assert text[k + 1..][..|name|] == name;
    assert text[k + 1 + |name|] == ' ' && text[k + 2 + |name|] == '{';
    assert SpaceRunEnd(text, k + 2 + |name|) == k + 2 + |name|;
    assert SpaceRunEnd(text, k + 1 + |name|) == k + 2 + |name|;
    assert BlockMatchAt(text, keyword, name, 0) == Some(k + |name| + 3);
  }

  /** The first index q >= i at which pattern occurs in s, or -1. */
  function IndexOf(s: string, pattern: string, i: nat): (q: int)
    requires i <= |s|
    ensures q == -1 || (i <= q && q + |pattern| <= |s| && StartsWith(s[q..], pattern))
    decreases |s| - i
  {
    if StartsWith(s[i..], pattern) then i
    else if i == |s| then -1
    else IndexOf(s, pattern, i + 1)
  }

  lemma {:induction false} IndexOfIsFirst(s: string, pattern: string, i: nat)
    requires i <= |s|
    ensures var q := IndexOf(s, pattern, i);
      forall j :: i <= j <= |s| && (q == -1 || j < q) ==> !StartsWith(s[j..], pattern)
    decreases |s| - i
  {
    if !StartsWith(s[i..], pattern) && i < |s| {
      IndexOfIsFirst(s, pattern, i + 1);
    }
  }

  /**
   * re.search(r'\s*' + KEYWORD + r'\s*', s).end(), or -1. The leftmost match
   * starts in the whitespace before the first occurrence of the keyword, so its
   * end is that occurrence's end plus the whitespace run after it.
   */
  function KeywordEnd(s: string, keyword: string): (r: int)
    requires |keyword| > 0
    ensures r == -1 || |keyword| <= r <= |s|
  {
    var q := IndexOf(s, keyword, 0);
    if q == -1 then -1 else SpaceRunEnd(s, q + |keyword|)
  }

  /**
   * KeywordEnd returns -1 exactly when the keyword does not occur in s;
   * otherwise its result follows the first occurrence of the keyword and the
   * whole whitespace run after it.
   */
  lemma KeywordEndSpec(s: string, keyword: string)
    requires |keyword| > 0
    ensures var r := KeywordEnd(s, keyword);
      && (r == -1 <==> !Contains(s, keyword))
      && (r != -1 ==> exists q :: 0 <= q && q + |keyword| <= r <= |s|
                        && StartsWith(s[q..], keyword) && AllSpace(s[q + |keyword|..r])
                        && (r == |s| || !IsSpace(s[r]))
                        && forall j :: 0 <= j < q ==> !StartsWith(s[j..], keyword))
  {
    var q := IndexOf(s, keyword, 0);
    if q == -1 {
      KeywordAbsent(s, keyword);
    } else {
      KeywordFound(s, keyword, q);
      assert KeywordEnd(s, keyword) == SpaceRunEnd(s, q + |keyword|);
      assert Contains(s, keyword) by {
        assert 0 <= q <= |s| && StartsWith(s[q..], keyword);
      }
    }
  }

  /** When the search finds nothing, the keyword occurs nowhere in s. */
  lemma KeywordAbsent(s: string, keyword: string)
    requires IndexOf(s, keyword, 0) == -1
    ensures !Contains(s, keyword)
  {
    IndexOfIsFirst(s, keyword, 0);
  }

  /** The first occurrence q, followed by its whitespace run, witnesses KeywordEndSpec. */
  lemma KeywordFound(s: string, keyword: string, q: int)
    requires |keyword| > 0 && q == IndexOf(s, keyword, 0) && q != -1
    ensures var r := SpaceRunEnd(s, q + |keyword|);
      && 0 <= q && q + |keyword| <= r <= |s|
      && StartsWith(s[q..], keyword) && AllSpace(s[q + |keyword|..r])
      && (r == |s| || !IsSpace(s[r]))
      && forall j :: 0 <= j < q ==> !StartsWith(s[j..], keyword)
  {
    IndexOfIsFirst(s, keyword, 0);
    SpaceRunIsSpace(s, q + |keyword|);
  }

  /**
   * The section finders (find_input_section, find_take_section, find_output_section,
   * find_emit_section): the keyword search on text[start:end], as an offset
   * relative to start.
   */
  function FindSection(text: string, start: int, end: int, keyword: string): (r: int)
    requires |keyword| > 0
    ensures r == -1 || |keyword| <= r <= |PySlice(text, start, end)|
    ensures 0 <= start <= end <= |text| ==> r <= end - start
  {
    KeywordEnd(PySlice(text, start, end), keyword)
  }
}
