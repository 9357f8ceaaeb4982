/**
 * The brace-depth scan that finds where a `{ ... }` block ends
 * (find_closing_bracket, and the same loop written inline in get_config_labels).
 * The scan starts just after an opening brace, so its depth counter starts at 1.
 */
module BraceScan {

  /** How one character moves the brace depth. */
  function Step(c: char): int {
    if c == '{' then 1 else if c == '}' then -1 else 0
  }

  /** The number of `{` minus the number of `}` in s. */
  function Balance(s: string): int {
    if s == [] then 0 else Balance(s[..|s| - 1]) + Step(s[|s| - 1])
  }

  /** The depth after reading text[start..i], counting the opening brace just before start. */
  function Depth(text: string, start: nat, i: nat): int
    requires start <= i <= |text|
  {
    1 + Balance(text[start..i])
  }

  lemma DepthStep(text: string, start: nat, i: nat)
    requires start <= i < |text|
    ensures Depth(text, start, i + 1) == Depth(text, start, i) + Step(text[i])
  {
    assert text[start..i + 1][..i - start] == text[start..i];
  }

  /**
   * The scan as a function: from index i with depth count, the first index at
   * which the depth falls to 0, or -1 when the text ends first.
   */
  function ScanFrom(text: string, i: nat, count: int): (r: int)
    requires count >= 1
    ensures r == -1 || (i <= r < |text| && text[r] == '}')
    decreases |text| - i
  {
    if i >= |text| then -1
    else
      var next := count + Step(text[i]);
      if next == 0 then i else ScanFrom(text, i + 1, next)
  }

  /** find_closing_bracket(text, start), as a function. */
  function ClosingBracket(text: string, start: nat): (r: int)
    ensures r == -1 || (start <= r < |text| && text[r] == '}')
  {
    ScanFrom(text, start, 1)
  }

  lemma {:induction false} ScanFromFindsFirstZero(text: string, start: nat, i: nat, count: int)
    requires start <= i <= |text|
    requires count >= 1 && count == Depth(text, start, i)
    ensures var r := ScanFrom(text, i, count);
      && (r == -1 <==> forall j :: i < j <= |text| ==> Depth(text, start, j) != 0)
      && (r == -1 ==> forall j :: i <= j <= |text| ==> Depth(text, start, j) >= 1)
      && (r != -1 ==> Depth(text, start, r + 1) == 0)
      && (r != -1 ==> forall j :: i <= j <= r ==> Depth(text, start, j) >= 1)
    decreases |text| - i
  {
    if i < |text| {
      DepthStep(text, start, i);
      var next := count + Step(text[i]);
      if next != 0 {
        ScanFromFindsFirstZero(text, start, i + 1, next);
      }
    }
  }

  /**
   * find_closing_bracket returns -1 exactly when no prefix of text[start..]
   * brings the depth to 0 (then every prefix leaves it at 1 or more); otherwise
   * it returns the first index r at which the depth reaches 0. That index holds
   * a `}`, the text strictly between the braces is balanced, and no prefix of it
   * has more `}` than `{`.
   */
  lemma ClosingBracketIsFirstBalance(text: string, start: nat)
    requires start <= |text|
    ensures var r := ClosingBracket(text, start);
      && (r == -1 <==> forall j :: start < j <= |text| ==> Depth(text, start, j) != 0)
      && (r == -1 ==> forall j :: start <= j <= |text| ==> Balance(text[start..j]) >= 0)
      && (r != -1 ==> start <= r < |text| && text[r] == '}')
      && (r != -1 ==> Depth(text, start, r + 1) == 0 && Balance(text[start..r]) == 0)
      && (r != -1 ==> forall j :: start <= j <= r ==> Balance(text[start..j]) >= 0)
  {
    assert text[start..start] == [];
    ScanFromFindsFirstZero(text, start, start, 1);
    var r := ClosingBracket(text, start);
    var last := if r == -1 then |text| else r;
    forall j | start <= j <= last ensures Balance(text[start..j]) >= 0 {
      assert Depth(text, start, j) >= 1;
    }
    if r != -1 {
      DepthStep(text, start, r);
    }
  }

  /** find_closing_bracket: the loop that keeps the depth counter. */
  method FindClosingBracket(text: string, start: nat) returns (r: int)
    ensures r == ClosingBracket(text, start)
    ensures r == -1 || (start <= r < |text| && text[r] == '}')
  {
    var count := 1;
    var i := start;
    while i < |text|
      invariant count >= 1
      invariant ScanFrom(text, i, count) == ScanFrom(text, start, 1)
      decreases |text| - i
    {
      var c := text[i];
      if c == '{' {
        count := count + 1;
      } else if c == '}' {
        count := count - 1;
      }
      if count == 0 {
        return i;
      }
      i := i + 1;
    }
    return -1;
  }
}
