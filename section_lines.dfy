/**
 * The section extractors shared by the popup and completion helpers: split a
 * slice on newlines, strip each line, skip blank lines and stop at the first
 * line that starts with one of a stop set. Each source file instantiates this
 * with its own stop set; some number the kept lines. Also the collapsing of a
 * multi-line output expression into one line.
 */
module SectionLines {
  import opened TextOps

  /** One entry of an output or emit listing: `(emit, chan)` or `(index, line)`. */
  datatype Channel = Named(name: string, expr: string) | Positional(index: nat, line: string)

  /** text[start:end].split('\n') */
  function SliceLines(text: string, start: int, end: int): (lines: seq<string>)
    ensures |lines| >= 1 && forall k :: 0 <= k < |lines| ==> '\n' !in lines[k]
  {
    Split(PySlice(text, start, end), '\n')
  }

  /** A stripped line that ends the section. */
  predicate IsStopLine(line: string, stops: seq<string>) {
    line != "" && StartsWithAny(line, stops)
  }

  /**
   * What the extraction loop collects from lines: each line stripped, blank
   * lines skipped, everything from the first stop line on dropped.
   */
  function KeptLines(lines: seq<string>, stops: seq<string>): (r: seq<string>)
    ensures |r| <= |lines|
  {
    if lines == [] then []
    else
      var line := Strip(lines[0]);
      if line == "" then KeptLines(lines[1..], stops)
      else if StartsWithAny(line, stops) then []
      else [line] + KeptLines(lines[1..], stops)
  }

  /**
   * The extraction loop's invariant: done, followed by what the rest of the
   * lines from i on yield, is what all the lines yield.
   */
  predicate KeptSoFar(done: seq<string>, lines: seq<string>, i: nat, stops: seq<string>)
    requires i <= |lines|
  {
    done + KeptLines(lines[i..], stops) == KeptLines(lines, stops)
  }

  /** A line that strips to nothing is skipped. */
  lemma KeptLinesSkip(done: seq<string>, lines: seq<string>, i: nat, stops: seq<string>)
    requires i < |lines| && KeptSoFar(done, lines, i, stops) && Strip(lines[i]) == ""
    ensures KeptSoFar(done, lines, i + 1, stops)
  {
    assert lines[i..][1..] == lines[i + 1..];
  }

  /** A stop line ends the section: what was collected so far is everything. */
  lemma KeptLinesStop(done: seq<string>, lines: seq<string>, i: nat, stops: seq<string>)
    requires i < |lines| && KeptSoFar(done, lines, i, stops) && IsStopLine(Strip(lines[i]), stops)
    ensures done == KeptLines(lines, stops)
  {
    assert KeptLines(lines[i..], stops) == [];
    assert done + [] == done;
  }

  /** Any other line is kept, stripped. */
  lemma KeptLinesKeep(done: seq<string>, lines: seq<string>, i: nat, stops: seq<string>)
    requires i < |lines| && KeptSoFar(done, lines, i, stops)
    requires Strip(lines[i]) != "" && !StartsWithAny(Strip(lines[i]), stops)
    ensures KeptSoFar(done + [Strip(lines[i])], lines, i + 1, stops)
  {
    assert lines[i..][1..] == lines[i + 1..];
    assert KeptLines(lines[i..], stops) == [Strip(lines[i])] + KeptLines(lines[i + 1..], stops);
  }

  /** Once every line is read, what was collected is everything. */
  lemma KeptLinesEnd(done: seq<string>, lines: seq<string>, stops: seq<string>)
    requires KeptSoFar(done, lines, |lines|, stops)
    ensures done == KeptLines(lines, stops)
  {
    assert lines[|lines|..] == [];
    assert done + [] == done;
  }

  /** No kept line is empty, carries surrounding whitespace, or starts with a stop keyword. */
  lemma {:induction false} KeptLinesAreClean(lines: seq<string>, stops: seq<string>)
    ensures forall k :: 0 <= k < |KeptLines(lines, stops)| ==>
      var line := KeptLines(lines, stops)[k];
      line != "" && Strip(line) == line && !StartsWithAny(line, stops)
  {
    if lines != [] {
      KeptLinesAreClean(lines[1..], stops);
      var line := Strip(lines[0]);
      if line == "" {
        assert KeptLines(lines, stops) == KeptLines(lines[1..], stops);
      } else if StartsWithAny(line, stops) {
        assert KeptLines(lines, stops) == [];
      } else {
        StripIdempotent(lines[0]);
        assert KeptLines(lines, stops) == [line] + KeptLines(lines[1..], stops);
      }
    }
  }

  /** Lines as the extractor keeps them: non-empty, stripped, none starting with a stop keyword. */
  predicate CleanLines(r: seq<string>, stops: seq<string>) {
    forall k :: 0 <= k < |r| ==> r[k] != "" && Strip(r[k]) == r[k] && !StartsWithAny(r[k], stops)
  }

  /** The stripped, non-blank lines of lines, in order. */
  function NonBlank(lines: seq<string>): seq<string> {
    if lines == [] then []
    else (if Strip(lines[0]) == "" then [] else [Strip(lines[0])]) + NonBlank(lines[1..])
  }

  /**
   * The extractor returns exactly the stripped, non-blank lines before the first
   * stop line, in source order.
   */
  lemma {:induction false} KeptLinesBeforeStop(lines: seq<string>, stops: seq<string>, k: nat)
    requires k <= |lines|
    requires forall j :: 0 <= j < k ==> !IsStopLine(Strip(lines[j]), stops)
    requires k == |lines| || IsStopLine(Strip(lines[k]), stops)
    ensures KeptLines(lines, stops) == NonBlank(lines[..k])
  {
    if k == 0 {
      assert lines[..k] == [];
      if lines != [] {
        assert IsStopLine(Strip(lines[0]), stops);
        assert KeptLines(lines, stops) == [];
      }
    } else {
      KeptLinesBeforeStop(lines[1..], stops, k - 1);
      var line := Strip(lines[0]);
      assert lines[..k][1..] == lines[1..][..k - 1];
      assert lines[..k][0] == lines[0];
      assert NonBlank(lines[..k]) == (if line == "" then [] else [line]) + NonBlank(lines[1..][..k - 1]);
      assert !IsStopLine(line, stops);
      if line == "" {
        assert KeptLines(lines, stops) == KeptLines(lines[1..], stops);
      } else {
        assert KeptLines(lines, stops) == [line] + KeptLines(lines[1..], stops);
      }
    }
  }

  /** No kept line contains a newline when the lines come from a split on newlines. */
  lemma {:induction false} KeptLinesSingleLine(lines: seq<string>, stops: seq<string>)
    requires forall k :: 0 <= k < |lines| ==> '\n' !in lines[k]
    ensures forall k :: 0 <= k < |KeptLines(lines, stops)| ==> '\n' !in KeptLines(lines, stops)[k]
  {
    if lines != [] {
      NotInStrip(lines[0], '\n');
      KeptLinesSingleLine(lines[1..], stops);
    }
  }

  /** The loop of the line extractors over lines already split. */
  method KeepLines(lines: seq<string>, stops: seq<string>) returns (out: seq<string>)
    ensures out == KeptLines(lines, stops)
  {
    out := [];
    var i := 0;
    assert lines[0..] == lines;
    while i < |lines|
      invariant 0 <= i <= |lines|
      invariant KeptSoFar(out, lines, i, stops)
    {
      var line := Strip(lines[i]);
      if line == "" {
        KeptLinesSkip(out, lines, i, stops);
        i := i + 1;
        continue;
      }
      if StartsWithAny(line, stops) {
        KeptLinesStop(out, lines, i, stops);
        return;
      }
      KeptLinesKeep(out, lines, i, stops);
      out := out + [line];
      i := i + 1;
    }
    KeptLinesEnd(out, lines, stops);
  }

  /** The extraction (get_input_channels, get_wf_take_channels and their copies). */
  method CollectLines(text: string, start: int, end: int, stops: seq<string>) returns (out: seq<string>)
    ensures out == KeptLines(SliceLines(text, start, end), stops)
  {
    var lines := Split(PySlice(text, start, end), '\n');
    out := KeepLines(lines, stops);
  }

  /** The kept lines numbered 0, 1, ... in order. */
  function Numbered(lines: seq<string>): (r: seq<Channel>)
    ensures |r| == |lines|
  {
    if lines == [] then []
    else Numbered(lines[..|lines| - 1]) + [Positional(|lines| - 1, lines[|lines| - 1])]
  }

  /** Entry k of the numbered lines is (k, lines[k]). */
  lemma {:induction false} NumberedAt(lines: seq<string>)
    ensures forall k :: 0 <= k < |lines| ==> Numbered(lines)[k] == Positional(k, lines[k])
  {
    if lines != [] {
      NumberedAt(lines[..|lines| - 1]);
    }
  }

  /** Entries numbered 0, 1, ... in order, each holding a line as the extractor keeps it. */
  predicate NumberedClean(r: seq<Channel>, stops: seq<string>) {
    forall k :: 0 <= k < |r| ==>
      && r[k].Positional? && r[k].index == k
      && r[k].line != "" && Strip(r[k].line) == r[k].line && !StartsWithAny(r[k].line, stops)
  }

  /** The numbered kept lines are numbered 0, 1, ... and each is a kept line. */
  lemma NumberedKeptClean(lines: seq<string>, stops: seq<string>)
    ensures NumberedClean(Numbered(KeptLines(lines, stops)), stops)
  {
    NumberedAt(KeptLines(lines, stops));
    KeptLinesAreClean(lines, stops);
  }

  lemma NumberedSnoc(lines: seq<string>, line: string)
    ensures Numbered(lines + [line]) == Numbered(lines) + [Positional(|lines|, line)]
  {
    assert (lines + [line])[..|lines|] == lines;
  }

  /** The loop of output_section_lines over lines already split: entry k is (k, k-th kept line). */
  method KeepNumberedLines(lines: seq<string>, stops: seq<string>) returns (out: seq<Channel>)
    ensures out == Numbered(KeptLines(lines, stops))
  {
    out := [];
    ghost var done: seq<string> := [];
    var i := 0;
    assert lines[0..] == lines;
    while i < |lines|
      invariant 0 <= i <= |lines|
      invariant KeptSoFar(done, lines, i, stops)
      invariant out == Numbered(done)
    {
      var line := Strip(lines[i]);
      if line == "" {
        KeptLinesSkip(done, lines, i, stops);
        i := i + 1;
        continue;
      }
      if StartsWithAny(line, stops) {
        KeptLinesStop(done, lines, i, stops);
        return;
      }
      KeptLinesKeep(done, lines, i, stops);
      NumberedSnoc(done, line);
      out := out + [Positional(|out|, line)];
      done := done + [line];
      i := i + 1;
    }
    KeptLinesEnd(done, lines, stops);
  }

  /** output_section_lines */
  method CollectNumberedLines(text: string, start: int, end: int, stops: seq<string>) returns (out: seq<Channel>)
    ensures out == Numbered(KeptLines(SliceLines(text, start, end), stops))
  {
    var lines := Split(PySlice(text, start, end), '\n');
    out := KeepNumberedLines(lines, stops);
  }

  /** ''.join(x.strip() for x in chan.split('\n')): a multi-line expression on one line. */
  function Flatten(chan: string): (r: string)
    ensures '\n' !in r
  {
    var pieces := StripAll(Split(chan, '\n'));
    forall k | 0 <= k < |pieces| ensures '\n' !in pieces[k] {
      NotInStrip(Split(chan, '\n')[k], '\n');
    }
    JoinWithout(pieces, "", '\n');
    Join(pieces, "")
  }

  /** Collapsing an expression onto one line removes whitespace only. */
  lemma FlattenKeepsNonSpace(chan: string)
    ensures NonSpace(Flatten(chan)) == NonSpace(chan)
  {
    var xs := Split(chan, '\n');
    NonSpaceJoinStripped(xs);
    NonSpaceJoin(xs, "\n");
    JoinSplit(chan, '\n');
  }

  /** A one-line expression is only stripped. */
  lemma FlattenOneLine(chan: string)
    requires '\n' !in chan
    ensures Flatten(chan) == Strip(chan)
  {
    SplitNoSeparator(chan, '\n');
  }

  /** Named entries only, each expression on one line. */
  predicate OneLineNamed(r: seq<Channel>) {
    forall k :: 0 <= k < |r| ==> r[k].Named? && '\n' !in r[k].expr
  }

  /** The (emit, chan) pairs made from regex group pairs (chan, emit), in match order. */
  function EmitChannels(matches: seq<(string, string)>): (r: seq<Channel>)
    ensures |r| == |matches| && OneLineNamed(r)
    ensures forall k :: 0 <= k < |r| ==> r[k].name == matches[k].1 && NonSpace(r[k].expr) == NonSpace(matches[k].0)
  {
    forall k | 0 <= k < |matches| ensures NonSpace(Flatten(matches[k].0)) == NonSpace(matches[k].0) {
      FlattenKeepsNonSpace(matches[k].0);
    }
    seq(|matches|, k requires 0 <= k < |matches| => Named(matches[k].1, Flatten(matches[k].0)))
  }
}
