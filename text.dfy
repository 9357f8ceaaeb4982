/**
 * Character classes and the handful of Python string operations the scanners
 * are built from: slicing with Python's index rules, str.strip(), str.split on
 * a one-character separator, and str.join.
 */
module TextOps {

  datatype Option<T> = None | Some(value: T)

  /**
   * Python's str.isspace() on one character; `\s` in a str regex matches the
   * same class: tab to carriage return, the information separators U+001C to
   * U+001F, space, U+0085, U+00A0, U+1680, U+2000 to U+200A, U+2028, U+2029,
   * U+202F, U+205F and U+3000.
   */
  predicate IsSpace(c: char) {
    || ('\t' <= c <= '\r') || ('\U{1c}' <= c <= ' ') || c == '\U{85}' || c == '\U{a0}' || c == '\U{1680}'
    || ('\U{2000}' <= c <= '\U{200a}') || c == '\U{2028}' || c == '\U{2029}' || c == '\U{202f}'
    || c == '\U{205f}' || c == '\U{3000}'
  }

  /** The regex class `\w`, restricted to ASCII letters, digits and the underscore. */
  predicate IsWordChar(c: char) {
    ('a' <= c <= 'z') || ('A' <= c <= 'Z') || ('0' <= c <= '9') || c == '_'
  }

  /** What `\w+` matches as a whole. */
  predicate IsWord(s: string) {
    |s| > 0 && forall i :: 0 <= i < |s| ==> IsWordChar(s[i])
  }

  predicate AllSpace(s: string) {
    forall i :: 0 <= i < |s| ==> IsSpace(s[i])
  }

  /** Python's s.startswith(prefix). */
  predicate StartsWith(s: string, prefix: string) {
    |prefix| <= |s| && s[..|prefix|] == prefix
  }

  /** Python's `pattern in s`: pattern occurs in s at some position. */
  predicate Contains(s: string, pattern: string) {
    exists j :: 0 <= j <= |s| && StartsWith(s[j..], pattern)
  }

  /** `s.startswith(p0) or s.startswith(p1) or ...` */
  predicate StartsWithAny(s: string, prefixes: seq<string>) {
    exists k :: 0 <= k < |prefixes| && StartsWith(s, prefixes[k])
  }

  /** Python's normalisation of one slice bound against a sequence of length n. */
  function SliceBound(i: int, n: nat): (b: nat)
    ensures b <= n
    ensures 0 <= i <= n ==> b == i
  {
    if i < 0 then (if i + n < 0 then 0 else i + n) else if i > n then n else i
  }

  /** Python's s[i:j], negative and out-of-range bounds included. */
  function PySlice(s: string, i: int, j: int): (r: string)
    ensures |r| <= |s|
    ensures 0 <= i <= j <= |s| ==> r == s[i..j]
    ensures j == -1 && 0 <= i < |s| ==> r == s[i..|s| - 1]
  {
    var a, b := SliceBound(i, |s|), SliceBound(j, |s|);
    if a < b then s[a..b] else ""
  }

  /** The character classes whose maximal runs the scanners skip. */
  datatype CharClass = SpaceChars | NonSpaceChars | WordChars | Blanks | AllBut(c: char)

  predicate InClass(c: char, cls: CharClass) {
    match cls
    case SpaceChars => IsSpace(c)
    case NonSpaceChars => !IsSpace(c)
    case WordChars => IsWordChar(c)
    case Blanks => c == ' '
    case AllBut(x) => c != x
  }

  /** The end of the maximal run of characters of class cls that starts at index i. */
  function RunEnd(s: string, i: nat, cls: CharClass): (j: nat)
    requires i <= |s|
    ensures i <= j <= |s|
    ensures j == |s| || !InClass(s[j], cls)
    decreases |s| - i
  {
    if i < |s| && InClass(s[i], cls) then RunEnd(s, i + 1, cls) else i
  }

  /** Every character of the run RunEnd skips is of class cls. */
  lemma {:induction false} RunInClass(s: string, i: nat, cls: CharClass)
    requires i <= |s|
    ensures forall k :: i <= k < RunEnd(s, i, cls) ==> InClass(s[k], cls)
    decreases |s| - i
  {
    if i < |s| && InClass(s[i], cls) {
      RunInClass(s, i + 1, cls);
    }
  }

  /** A run of class cls from i to j that stops at j ends where RunEnd says. */
  lemma {:induction false} RunEndAt(s: string, i: nat, j: nat, cls: CharClass)
    requires i <= j <= |s|
    requires forall k :: i <= k < j ==> InClass(s[k], cls)
    requires j == |s| || !InClass(s[j], cls)
    ensures RunEnd(s, i, cls) == j
    decreases j - i
  {
    if i < j {
      RunEndAt(s, i + 1, j, cls);
    }
  }

  /** The end of the maximal whitespace run that starts at index i. */
  function SpaceRunEnd(s: string, i: nat): (j: nat)
    requires i <= |s|
    ensures i <= j <= |s|
    ensures j == |s| || !IsSpace(s[j])
  {
    RunEnd(s, i, SpaceChars)
  }

  /** The run SpaceRunEnd skips is whitespace. */
  lemma SpaceRunIsSpace(s: string, i: nat)
    requires i <= |s|
    ensures AllSpace(s[i..SpaceRunEnd(s, i)])
  {
    RunInClass(s, i, SpaceChars);
  }

  /** The start of the maximal whitespace run that ends at index j, not going below lo. */
  function SpaceRunStart(s: string, lo: nat, j: nat): (k: nat)
    requires lo <= j <= |s|
    ensures lo <= k <= j
    ensures k == lo || !IsSpace(s[k - 1])
    decreases j
  {
    if lo < j && IsSpace(s[j - 1]) then SpaceRunStart(s, lo, j - 1) else j
  }

  /** The run SpaceRunStart skips is whitespace. */
  lemma {:induction false} SpaceRunStartIsSpace(s: string, lo: nat, j: nat)
    requires lo <= j <= |s|
    ensures AllSpace(s[SpaceRunStart(s, lo, j)..j])
    decreases j
  {
    if lo < j && IsSpace(s[j - 1]) {
      SpaceRunStartIsSpace(s, lo, j - 1);
      var k := SpaceRunStart(s, lo, j);
      assert s[k..j] == s[k..j - 1] + [s[j - 1]];
    }
  }

  /** Where s.strip() starts: the first non-whitespace index, or |s|. */
  function StripStart(s: string): (a: nat)
    ensures a <= |s|
  {
    SpaceRunEnd(s, 0)
  }

  /** Where s.strip() ends: just past the last non-whitespace index, and not before StripStart. */
  function StripEnd(s: string): (b: nat)
    ensures StripStart(s) <= b <= |s|
  {
    SpaceRunStart(s, StripStart(s), |s|)
  }

  /** Python's s.strip(): s without the whitespace at either end. */
  function Strip(s: string): (r: string)
    ensures r == [] || (!IsSpace(r[0]) && !IsSpace(r[|r| - 1]))
  {
    s[StripStart(s)..StripEnd(s)]
  }

  /** What strip removes, on either side, is whitespace. */
  lemma StripSlice(s: string)
    ensures AllSpace(s[..StripStart(s)]) && AllSpace(s[StripEnd(s)..])
  {
    SpaceRunIsSpace(s, 0);
    SpaceRunStartIsSpace(s, StripStart(s), |s|);
    assert s[..StripStart(s)] == s[0..StripStart(s)];
  }

  /** A stripped string is empty exactly when the original was all whitespace. */
  lemma StripEmpty(s: string)
    ensures Strip(s) == [] <==> AllSpace(s)
  {
    var a := StripStart(s);
    StripSlice(s);
    if Strip(s) == [] {
      assert s == s[..a] + s[StripEnd(s)..];
    } else {
      assert !IsSpace(s[a]);
    }
  }

  /** Stripping is idempotent. */
  lemma StripIdempotent(s: string)
    ensures Strip(Strip(s)) == Strip(s)
  {
    var r := Strip(s);
    if r != [] {
      assert StripStart(r) == 0;
      assert StripEnd(r) == |r|;
    }
  }

  /** A character absent from s is absent from its strip, which is a slice of it. */
  lemma NotInStrip(s: string, c: char)
    requires c !in s
    ensures c !in Strip(s)
  {
    var a := StripStart(s);
    var r := Strip(s);
    forall i | 0 <= i < |r| ensures r[i] != c {
      assert r[i] == s[a + i];
    }
  }

  /**
   * Python's s.split(sep) for a one-character separator: the pieces between
   * separators, so there is always one more piece than there are separators.
   */
  function Split(s: string, sep: char): (r: seq<string>)
    ensures |r| >= 1
    ensures forall k :: 0 <= k < |r| ==> sep !in r[k]
  {
    if |s| == 0 then [""]
    else
      var rest := Split(s[1..], sep);
      if s[0] == sep then [""] + rest else [[s[0]] + rest[0]] + rest[1..]
  }

  /** Python's sep.join(xs). */
  function Join(xs: seq<string>, sep: string): (r: string)
  {
    if |xs| == 0 then "" else if |xs| == 1 then xs[0] else xs[0] + sep + Join(xs[1..], sep)
  }

  /** Joining the pieces of a split with the separator gives the original text back. */
  lemma {:induction false} JoinSplit(s: string, sep: char)
    ensures Join(Split(s, sep), [sep]) == s
  {
    if |s| > 0 {
      var rest := Split(s[1..], sep);
      JoinSplit(s[1..], sep);
      if s[0] == sep {
        assert Join([""] + rest, [sep]) == [sep] + Join(rest, [sep]);
      } else if |rest| == 1 {
        assert Split(s, sep) == [[s[0]] + rest[0]];
      } else {
        var r := [[s[0]] + rest[0]] + rest[1..];
        assert r[1..] == rest[1..];
        assert Join(r, [sep]) == [s[0]] + rest[0] + [sep] + Join(rest[1..], [sep]);
      }
      assert s == [s[0]] + s[1..];
    }
  }

  lemma {:induction false} SplitNoSeparator(a: string, sep: char)
    requires sep !in a
    ensures Split(a, sep) == [a]
  {
    if |a| > 0 {
      SplitNoSeparator(a[1..], sep);
      assert [a[0]] + a[1..] == a;
    }
  }

  lemma {:induction false} SplitAtSeparator(a: string, sep: char, b: string)
    requires sep !in a
    ensures Split(a + [sep] + b, sep) == [a] + Split(b, sep)
  {
    if |a| == 0 {
      assert a + [sep] + b == [sep] + b;
      assert ([sep] + b)[1..] == b;
    } else {
      SplitAtSeparator(a[1..], sep, b);
      assert (a + [sep] + b)[1..] == a[1..] + [sep] + b;
      assert [a[0]] + a[1..] == a;
    }
  }

  /** Splitting a join of separator-free pieces gives the pieces back. */
  lemma {:induction false} SplitJoin(xs: seq<string>, sep: char)
    requires |xs| >= 1
    requires forall k :: 0 <= k < |xs| ==> sep !in xs[k]
    ensures Split(Join(xs, [sep]), sep) == xs
  {
    if |xs| == 1 {
      SplitNoSeparator(xs[0], sep);
    } else {
      SplitJoin(xs[1..], sep);
      SplitAtSeparator(xs[0], sep, Join(xs[1..], [sep]));
      assert [xs[0]] + xs[1..] == xs;
    }
  }

  /** A character that is in no piece and not in the separator is not in the join. */
  lemma {:induction false} JoinWithout(xs: seq<string>, sep: string, c: char)
    requires c !in sep
    requires forall k :: 0 <= k < |xs| ==> c !in xs[k]
    ensures c !in Join(xs, sep)
  {
    if |xs| >= 2 {
      JoinWithout(xs[1..], sep, c);
    }
  }

  /** Every string in xs stripped, in order. */
  function StripAll(xs: seq<string>): (r: seq<string>)
    ensures |r| == |xs|
  {
    seq(|xs|, k requires 0 <= k < |xs| => Strip(xs[k]))
  }

  /** The non-whitespace characters of s, in order. */
  function NonSpace(s: string): (r: string)
    ensures |r| <= |s|
  {
    if s == [] then [] else (if IsSpace(s[0]) then [] else [s[0]]) + NonSpace(s[1..])
  }

  lemma {:induction false} NonSpaceAppend(a: string, b: string)
    ensures NonSpace(a + b) == NonSpace(a) + NonSpace(b)
  {
    if a != [] {
      NonSpaceAppend(a[1..], b);
      assert (a + b)[1..] == a[1..] + b;
    } else {
      assert a + b == b;
    }
  }

  lemma {:induction false} NonSpaceAllSpace(s: string)
    requires AllSpace(s)
    ensures NonSpace(s) == []
  {
    if s != [] { NonSpaceAllSpace(s[1..]); }
  }

  /** Stripping removes whitespace only. */
  lemma NonSpaceStrip(s: string)
    ensures NonSpace(Strip(s)) == NonSpace(s)
  {
    var a, b := StripStart(s), StripEnd(s);
    var r := Strip(s);
    StripSlice(s);
    assert s == s[..a] + r + s[b..];
    NonSpaceAppend(s[..a] + r, s[b..]);
    NonSpaceAppend(s[..a], r);
    NonSpaceAllSpace(s[..a]);
    NonSpaceAllSpace(s[b..]);
  }

  /** Joining with a whitespace separator or with none keeps the same non-whitespace text. */
  lemma {:induction false} NonSpaceJoin(xs: seq<string>, sep: string)
    requires AllSpace(sep)
    ensures NonSpace(Join(xs, sep)) == NonSpace(Join(xs, ""))
  {
    if |xs| >= 2 {
      NonSpaceJoin(xs[1..], sep);
      NonSpaceAppend(xs[0] + sep, Join(xs[1..], sep));
      NonSpaceAppend(xs[0], sep);
      NonSpaceAllSpace(sep);
      NonSpaceAppend(xs[0] + "", Join(xs[1..], ""));
      assert xs[0] + "" == xs[0];
    }
  }

  /** Stripping every piece before concatenating them removes whitespace only. */
  lemma {:induction false} NonSpaceJoinStripped(xs: seq<string>)
    ensures NonSpace(Join(StripAll(xs), "")) == NonSpace(Join(xs, ""))
  {
    if |xs| == 1 {
      NonSpaceStrip(xs[0]);
    } else if |xs| >= 2 {
      var ys := StripAll(xs);
      NonSpaceJoinStripped(xs[1..]);
      assert ys[1..] == StripAll(xs[1..]);
      NonSpaceAppend(ys[0] + "", Join(ys[1..], ""));
      NonSpaceAppend(xs[0] + "", Join(xs[1..], ""));
      assert ys[0] + "" == ys[0];
      assert xs[0] + "" == xs[0];
      NonSpaceStrip(xs[0]);
    }
  }

  /** Python's s * n for a string s. */
  function Repeat(s: string, n: nat): (r: string)
    ensures |r| == n * |s|
  {
    if n == 0 then "" else s + Repeat(s, n - 1)
  }
}
