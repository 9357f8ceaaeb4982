/**
 * Facts shared by the composite lookups: a block found by name, its closing
 * brace, and a section keyword searched for between the two.
 */
module BlockLookup {
  import opened TextOps
  import opened BraceScan
  import opened BlockSearch

  /** No position of text starts a `KEYWORD NAME {` match. */
  predicate NoBlock(text: string, keyword: string, name: string) {
    forall q :: 0 <= q <= |text| ==> BlockMatchAt(text, keyword, name, q).None?
  }

  /** The braces after start never balance the opening brace before it. */
  predicate Unbalanced(text: string, start: nat)
    requires start <= |text|
  {
    forall j :: start < j <= |text| ==> Depth(text, start, j) != 0
  }

  /**
   * The section finder searches the block body text[bs..be]: it finds nothing
   * exactly when the keyword does not occur there, and otherwise the absolute
   * offset it leads to lies inside the body, past the keyword.
   */
  lemma SectionInBlock(text: string, bs: nat, be: nat, keyword: string)
    requires bs <= be <= |text| && |keyword| > 0
    ensures var s := FindSection(text, bs, be, keyword);
      && (s == -1 <==> !Contains(text[bs..be], keyword))
      && (s != -1 ==> bs + |keyword| <= s + bs <= be && PySlice(text, s + bs, be) == text[s + bs..be])
  {
    KeywordEndSpec(text[bs..be], keyword);
  }
}
