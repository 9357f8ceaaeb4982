/**
 * process_call_popup.py: the input-channel lookup behind the popup shown on a
 * process call. Unlike the popup in process_popups.py, the input section is
 * not checked, and the input lines stop only at `output:` or `script:`.
 */
module ProcessCallPopup {
  import opened TextOps
  import opened BraceScan
  import opened BlockSearch
  import opened SectionLines
  import opened BlockLookup

  /** The lines that end an input section. */
  const InputStops: seq<string> := ["output:", "script:"]

  /** get_input_channels */
  method GetInputChannels(text: string, start: int, end: int) returns (out: seq<string>)
    ensures out == KeptLines(SliceLines(text, start, end), InputStops)
  {
    out := CollectLines(text, start, end, InputStops);
  }

  /**
   * get_input_channel_text, on the file's text. Without an input section the
   * slice starts one character before the block body.
   */
  function GetInputChannelText(text: string, procName: string): (r: seq<string>)
    requires IsWord(procName)
    ensures CleanLines(r, InputStops)
  {
    var ps := FindProcessName(procName, text);
    if ps == -1 then []
    else
      var pe := ClosingBracket(text, ps);
      if pe == -1 then []
      else
        var s := FindSection(text, ps, pe, "input:") + ps;
        KeptLinesAreClean(SliceLines(text, s, pe), InputStops);
        KeptLines(SliceLines(text, s, pe), InputStops)
  }

  /**
   * get_input_channel_text returns [] when no `process NAME {` occurs or when
   * the process block's braces never balance.
   */
  lemma InputChannelTextMissing(text: string, procName: string)
    requires IsWord(procName)
    ensures NoBlock(text, "process", procName) ==> GetInputChannelText(text, procName) == []
    ensures var ps := FindProcessName(procName, text);
      ps != -1 && Unbalanced(text, ps) ==> GetInputChannelText(text, procName) == []
  {
    FindBlockIsLeftmostMatch("process", procName, text);
    var ps := FindProcessName(procName, text);
    if ps != -1 {
      ClosingBracketIsFirstBalance(text, ps);
    }
  }

  /**
   * Otherwise it lists, in order, the kept lines of the text from the end of
   * the `input:` match, or from the block's own `{` when the body has no
   * `input:`, up to the closing brace: stripped, non-blank, and none starting
   * with `output:` or `script:`.
   */
  lemma InputChannelTextFound(text: string, procName: string)
    requires IsWord(procName)
    requires FindProcessName(procName, text) != -1
    requires ClosingBracket(text, FindProcessName(procName, text)) != -1
    ensures var ps := FindProcessName(procName, text);
      var pe := ClosingBracket(text, ps);
      var a := FindSection(text, ps, pe, "input:") + ps;
      && (Contains(text[ps..pe], "input:") ==> ps + 6 <= a <= pe)
      && (!Contains(text[ps..pe], "input:") ==> a == ps - 1 && text[a] == '{')
      && GetInputChannelText(text, procName) == KeptLines(Split(text[a..pe], '\n'), InputStops)
    ensures var r := GetInputChannelText(text, procName);
      forall k :: 0 <= k < |r| ==>
        r[k] != "" && Strip(r[k]) == r[k] && !StartsWith(r[k], "output:") && !StartsWith(r[k], "script:")
  {
    var ps := FindProcessName(procName, text);
    var pe := ClosingBracket(text, ps);
    SectionInBlock(text, ps, pe, "input:");
    var a := FindSection(text, ps, pe, "input:") + ps;
    var r := KeptLines(Split(text[a..pe], '\n'), InputStops);
    KeptLinesAreClean(Split(text[a..pe], '\n'), InputStops);
    assert InputStops[0] == "output:" && InputStops[1] == "script:";
  }
}
