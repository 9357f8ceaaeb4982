/**
 * process_out_emit_completion.py: the output-channel lookup behind the
 * completion of `PROC.out.NAME`. The same lookups as the output popup, but
 * every entry also carries the path of the file it came from, and the
 * line-by-line fallback stops only at `script:`.
 */
module ProcessOutEmitCompletion {
  import opened TextOps
  import opened BraceScan
  import opened BlockSearch
  import opened SectionLines
  import opened BlockLookup

  /** The line that ends an output section listed line by line. */
  const OutputStops: seq<string> := ["script:"]

  /** An entry (emit, chan, path) or (index, line, path). */
  datatype Tagged = Tagged(entry: Channel, path: string)

  /** Every entry paired with the same path, in order. */
  function WithPath(entries: seq<Channel>, path: string): (r: seq<Tagged>)
    ensures |r| == |entries|
    ensures forall k :: 0 <= k < |r| ==> r[k] == Tagged(entries[k], path)
  {
    seq(|entries|, k requires 0 <= k < |entries| => Tagged(entries[k], path))
  }

  /** get_output_channels: one (emit, chan, path) triple per match, chan on one line. */
  method GetOutputChannels(path: string, text: string, start: int, end: int, finder: string -> seq<(string, string)>)
    returns (out: seq<Tagged>)
    ensures out == WithPath(EmitChannels(finder(PySlice(text, start, end))), path)
  {
    var ms := finder(PySlice(text, start, end));
    out := [];
    for k := 0 to |ms|
      invariant |out| == k
      invariant forall j :: 0 <= j < k ==> out[j] == Tagged(Named(ms[j].1, Flatten(ms[j].0)), path)
    {
      var (chan, emit) := ms[k];
      out := out + [Tagged(Named(emit, Flatten(chan)), path)];
    }
  }

  /** output_section_lines: the kept lines numbered in order, each with the path. */
  method OutputSectionLines(path: string, text: string, start: int, end: int) returns (out: seq<Tagged>)
    ensures out == WithPath(Numbered(KeptLines(SliceLines(text, start, end), OutputStops)), path)
  {
    var numbered := CollectNumberedLines(text, start, end, OutputStops);
    out := WithPath(numbered, path);
  }

  /**
   * The k-th line-by-line entry is (k, the k-th kept line, path); kept lines are
   * stripped, non-blank and do not start with `script:`.
   */
  lemma OutputSectionLinesEntries(path: string, lines: seq<string>)
    ensures var kept := KeptLines(lines, OutputStops);
      var r := WithPath(Numbered(kept), path);
      && |r| == |kept|
      && forall k :: 0 <= k < |r| ==>
           r[k] == Tagged(Positional(k, kept[k]), path) && kept[k] != ""
           && Strip(kept[k]) == kept[k] && !StartsWith(kept[k], "script:")
  {
    var kept := KeptLines(lines, OutputStops);
    NumberedAt(kept);
    KeptLinesAreClean(lines, OutputStops);
    assert OutputStops[0] == "script:";
  }

  /**
   * get_output_channel_emits, on the file's text. The output section is not
   * checked: without one the slice starts one character before the block body.
   */
  function GetOutputChannelEmits(path: string, text: string, procName: string, finder: string -> seq<(string, string)>)
    : (r: seq<Tagged>)
    requires IsWord(procName)
    ensures forall k :: 0 <= k < |r| ==> r[k].path == path
    ensures (forall k :: 0 <= k < |r| ==> r[k].entry.Named? && '\n' !in r[k].entry.expr)
      || (forall k :: 0 <= k < |r| ==>
            && r[k].entry.Positional? && r[k].entry.index == k && r[k].entry.line != ""
            && Strip(r[k].entry.line) == r[k].entry.line && !StartsWithAny(r[k].entry.line, OutputStops))
  {
    var ps := FindProcessName(procName, text);
    if ps == -1 then []
    else
      var pe := ClosingBracket(text, ps);
      if pe == -1 then []
      else
        var os := FindSection(text, ps, pe, "output:") + ps;
        var out := WithPath(EmitChannels(finder(PySlice(text, os, pe))), path);
        NumberedKeptClean(SliceLines(text, os, pe), OutputStops);
        if out == [] then WithPath(Numbered(KeptLines(SliceLines(text, os, pe), OutputStops)), path) else out
  }

  /**
   * get_output_channel_emits returns [] when no `process NAME {` occurs or
   * when the process block's braces never balance.
   */
  lemma OutputChannelEmitsMissing(path: string, text: string, procName: string, finder: string -> seq<(string, string)>)
    requires IsWord(procName)
    ensures NoBlock(text, "process", procName) ==> GetOutputChannelEmits(path, text, procName, finder) == []
    ensures var ps := FindProcessName(procName, text);
      ps != -1 && Unbalanced(text, ps) ==> GetOutputChannelEmits(path, text, procName, finder) == []
  {
    FindBlockIsLeftmostMatch("process", procName, text);
    var ps := FindProcessName(procName, text);
    if ps != -1 {
      ClosingBracketIsFirstBalance(text, ps);
    }
  }

  /**
   * Otherwise the lookup works on the text from the end of the `output:`
   * match, or from the block's own `{` when the body has no `output:`, up to
   * the closing brace. It lists the emit matches there and falls back to the
   * numbered lines exactly when there are none; every entry carries the path.
   */
  lemma OutputChannelEmitsFound(path: string, text: string, procName: string, finder: string -> seq<(string, string)>)
    requires IsWord(procName)
    requires FindProcessName(procName, text) != -1
    requires ClosingBracket(text, FindProcessName(procName, text)) != -1
    ensures var ps := FindProcessName(procName, text);
      var pe := ClosingBracket(text, ps);
      var a := FindSection(text, ps, pe, "output:") + ps;
      var emits := EmitChannels(finder(text[a..pe]));
      && (Contains(text[ps..pe], "output:") ==> ps + 7 <= a <= pe)
      && (!Contains(text[ps..pe], "output:") ==> a == ps - 1 && text[a] == '{')
      && GetOutputChannelEmits(path, text, procName, finder)
           == WithPath(if emits == [] then Numbered(KeptLines(Split(text[a..pe], '\n'), OutputStops)) else emits, path)
    ensures var r := GetOutputChannelEmits(path, text, procName, finder);
      forall k :: 0 <= k < |r| ==> r[k].path == path
  {
    var ps := FindProcessName(procName, text);
    var pe := ClosingBracket(text, ps);
    SectionInBlock(text, ps, pe, "output:");
  }
}
