/**
 * process_popups.py: the lookups behind the process and workflow popups.
 * Each lookup finds a named block, its closing brace and a section keyword
 * inside it, then lists the section's lines or its emitted channels.
 *
 * The two finditer patterns (output channels with `emit:`, workflow
 * `name = expr` lines) are not modelled as regexes: the caller supplies the
 * group pairs they produce on a slice, as a function `finder`.
 */
module ProcessPopups {
  import opened TextOps
  import opened BraceScan
  import opened BlockSearch
  import opened SectionLines
  import opened BlockLookup

  /** The lines that end an input section. */
  const InputStops: seq<string> := ["output:", "script:", "when:", "exec:"]
  /** The line that ends a workflow take section. */
  const TakeStops: seq<string> := ["main:"]
  /** The lines that end an output or emit section listed line by line. */
  const OutputStops: seq<string> := ["script:", "when:", "exec:"]

  /** get_input_channels */
  method GetInputChannels(text: string, start: int, end: int) returns (out: seq<string>)
    ensures out == KeptLines(SliceLines(text, start, end), InputStops)
  {
    out := CollectLines(text, start, end, InputStops);
  }

  /** get_wf_take_channels */
  method GetWfTakeChannels(text: string, start: int, end: int) returns (out: seq<string>)
    ensures out == KeptLines(SliceLines(text, start, end), TakeStops)
  {
    out := CollectLines(text, start, end, TakeStops);
  }

  /** output_section_lines */
  method OutputSectionLines(text: string, start: int, end: int) returns (out: seq<Channel>)
    ensures out == Numbered(KeptLines(SliceLines(text, start, end), OutputStops))
  {
    out := CollectNumberedLines(text, start, end, OutputStops);
  }

  /** get_output_channels: one (emit, chan) pair per match, chan collapsed onto one line. */
  method GetOutputChannels(text: string, start: int, end: int, finder: string -> seq<(string, string)>)
    returns (out: seq<Channel>)
    ensures out == EmitChannels(finder(PySlice(text, start, end)))
  {
    var ms := finder(PySlice(text, start, end));
    out := [];
    for k := 0 to |ms|
      invariant |out| == k
      invariant forall j :: 0 <= j < k ==> out[j] == Named(ms[j].1, Flatten(ms[j].0))
    {
      var (chan, emit) := ms[k];
      out := out + [Named(emit, Flatten(chan))];
    }
  }

  /** The (name, expression) pairs of a workflow emit section, in match order. */
  function WfEmitChannels(matches: seq<(string, string)>): (r: seq<Channel>)
    ensures |r| == |matches| && forall k :: 0 <= k < |r| ==> r[k].Named?
  {
    seq(|matches|, k requires 0 <= k < |matches| => Named(matches[k].0, matches[k].1))
  }

  /** The (name, expression) pairs of named entries, in order. */
  function NamedPairs(r: seq<Channel>): (ps: seq<(string, string)>)
    requires forall k :: 0 <= k < |r| ==> r[k].Named?
    ensures |ps| == |r|
  {
    seq(|r|, k requires 0 <= k < |r| => (r[k].name, r[k].expr))
  }

  /**
   * The entries keep the matches' pairs unchanged and in order: reading the
   * pairs back gives the matches, and named entries are rebuilt from their pairs.
   */
  lemma WfEmitChannelsRoundTrip(matches: seq<(string, string)>, r: seq<Channel>)
    requires forall k :: 0 <= k < |r| ==> r[k].Named?
    ensures NamedPairs(WfEmitChannels(matches)) == matches
    ensures WfEmitChannels(NamedPairs(r)) == r
  {
    var back := NamedPairs(WfEmitChannels(matches));
    forall k | 0 <= k < |matches| ensures back[k] == matches[k] {
    }
    var again := WfEmitChannels(NamedPairs(r));
    forall k | 0 <= k < |r| ensures again[k] == r[k] {
    }
  }

  /** get_wf_emit_channels: the group pairs as they come, in match order. */
  method GetWfEmitChannels(text: string, start: int, end: int, finder: string -> seq<(string, string)>)
    returns (out: seq<Channel>)
    ensures out == WfEmitChannels(finder(PySlice(text, start, end)))
  {
    var ms := finder(PySlice(text, start, end));
    out := [];
    for k := 0 to |ms|
      invariant |out| == k
      invariant forall j :: 0 <= j < k ==> out[j] == Named(ms[j].0, ms[j].1)
    {
      var (chan, emit) := ms[k];
      out := out + [Named(chan, emit)];
    }
  }

  /** get_input_channel_text, on the file's text. */
  function GetInputChannelText(text: string, procName: string): (r: seq<string>)
    requires IsWord(procName)
    ensures CleanLines(r, InputStops)
  {
    var ps := FindProcessName(procName, text);
    if ps == -1 then []
    else
      var pe := ClosingBracket(text, ps);
      if pe == -1 then []
      else
        var s := FindSection(text, ps, pe, "input:");
        if s == -1 then []
        else
          KeptLinesAreClean(SliceLines(text, s + ps, pe), InputStops);
          KeptLines(SliceLines(text, s + ps, pe), InputStops)
  }

  /** get_wf_takes, on the file's text. */
  function GetWfTakes(text: string, wfName: string): (r: seq<string>)
    requires IsWord(wfName)
    ensures CleanLines(r, TakeStops)
  {
    var ws := FindWorkflowName(wfName, text);
    if ws == -1 then []
    else
      var we := ClosingBracket(text, ws);
      if we == -1 then []
      else
        var s := FindSection(text, ws, we, "take:");
        if s == -1 then []
        else
          KeptLinesAreClean(SliceLines(text, s + ws, we), TakeStops);
          KeptLines(SliceLines(text, s + ws, we), TakeStops)
  }

  /**
   * get_output_channel_emits, on the file's text. The output section is not
   * checked: without one the slice starts one character before the block body.
   */
  function GetOutputChannelEmits(text: string, procName: string, finder: string -> seq<(string, string)>): (r: seq<Channel>)
    requires IsWord(procName)
    ensures OneLineNamed(r) || NumberedClean(r, OutputStops)
  {
    var ps := FindProcessName(procName, text);
    if ps == -1 then []
    else
      var pe := ClosingBracket(text, ps);
      if pe == -1 then []
      else
        var os := FindSection(text, ps, pe, "output:") + ps;
        var out := EmitChannels(finder(PySlice(text, os, pe)));
        NumberedKeptClean(SliceLines(text, os, pe), OutputStops);
        if out == [] then Numbered(KeptLines(SliceLines(text, os, pe), OutputStops)) else out
  }

  /** get_wf_emits, on the file's text. */
  function GetWfEmits(text: string, wfName: string, finder: string -> seq<(string, string)>): (r: seq<Channel>)
    requires IsWord(wfName)
    ensures (forall k :: 0 <= k < |r| ==> r[k].Named?) || NumberedClean(r, OutputStops)
  {
    var ws := FindWorkflowName(wfName, text);
    if ws == -1 then []
    else
      var we := ClosingBracket(text, ws);
      if we == -1 then []
      else
        var s := FindSection(text, ws, we, "emit:");
        if s == -1 then []
        else
          var es := s + ws;
          var out := WfEmitChannels(finder(PySlice(text, es, we)));
          NumberedKeptClean(SliceLines(text, es, we), OutputStops);
          if out == [] then Numbered(KeptLines(SliceLines(text, es, we), OutputStops)) else out
  }

  /**
   * get_input_channel_text returns [] when no `process NAME {` occurs, when the
   * process block's braces never balance, or when its body has no `input:`.
   */
  lemma InputChannelTextMissing(text: string, procName: string)
    requires IsWord(procName)
    ensures NoBlock(text, "process", procName) ==> GetInputChannelText(text, procName) == []
    ensures var ps := FindProcessName(procName, text);
      ps != -1 && Unbalanced(text, ps) ==> GetInputChannelText(text, procName) == []
    ensures var ps := FindProcessName(procName, text);
      (ps != -1 && ClosingBracket(text, ps) != -1 && !Contains(text[ps..ClosingBracket(text, ps)], "input:")) ==>
        GetInputChannelText(text, procName) == []
  {
    FindBlockIsLeftmostMatch("process", procName, text);
    var ps := FindProcessName(procName, text);
    if ps != -1 {
      ClosingBracketIsFirstBalance(text, ps);
      var pe := ClosingBracket(text, ps);
      if pe != -1 {
        SectionInBlock(text, ps, pe, "input:");
      }
    }
  }

  /**
   * Otherwise get_input_channel_text lists the lines from the end of the
   * `input:` match, which lies inside the process body, up to the closing
   * brace: stripped, non-blank, none starting with a stop keyword.
   */
  lemma InputChannelTextFound(text: string, procName: string)
    requires IsWord(procName)
    requires FindProcessName(procName, text) != -1
    requires ClosingBracket(text, FindProcessName(procName, text)) != -1
    requires Contains(text[FindProcessName(procName, text)..ClosingBracket(text, FindProcessName(procName, text))], "input:")
    ensures var ps := FindProcessName(procName, text);
      var pe := ClosingBracket(text, ps);
      var a := FindSection(text, ps, pe, "input:") + ps;
      ps + 6 <= a <= pe && GetInputChannelText(text, procName) == KeptLines(Split(text[a..pe], '\n'), InputStops)
    ensures var r := GetInputChannelText(text, procName);
      forall k :: 0 <= k < |r| ==> r[k] != "" && Strip(r[k]) == r[k] && !StartsWithAny(r[k], InputStops)
  {
    var ps := FindProcessName(procName, text);
    var pe := ClosingBracket(text, ps);
    SectionInBlock(text, ps, pe, "input:");
    var a := FindSection(text, ps, pe, "input:") + ps;
    KeptLinesAreClean(Split(text[a..pe], '\n'), InputStops);
  }

  /**
   * get_wf_takes returns [] when no `workflow NAME {` occurs, when the
   * workflow block's braces never balance, or when its body has no `take:`.
   */
  lemma WfTakesMissing(text: string, wfName: string)
    requires IsWord(wfName)
    ensures NoBlock(text, "workflow", wfName) ==> GetWfTakes(text, wfName) == []
    ensures var ws := FindWorkflowName(wfName, text);
      ws != -1 && Unbalanced(text, ws) ==> GetWfTakes(text, wfName) == []
    ensures var ws := FindWorkflowName(wfName, text);
      (ws != -1 && ClosingBracket(text, ws) != -1 && !Contains(text[ws..ClosingBracket(text, ws)], "take:")) ==>
        GetWfTakes(text, wfName) == []
  {
    FindBlockIsLeftmostMatch("workflow", wfName, text);
    var ws := FindWorkflowName(wfName, text);
    if ws != -1 {
      ClosingBracketIsFirstBalance(text, ws);
      var we := ClosingBracket(text, ws);
      if we != -1 {
        SectionInBlock(text, ws, we, "take:");
      }
    }
  }

  /**
   * Otherwise get_wf_takes lists the lines from the end of the `take:` match
   * up to the closing brace, stopping at `main:`.
   */
  lemma WfTakesFound(text: string, wfName: string)
    requires IsWord(wfName)
    requires FindWorkflowName(wfName, text) != -1
    requires ClosingBracket(text, FindWorkflowName(wfName, text)) != -1
    requires Contains(text[FindWorkflowName(wfName, text)..ClosingBracket(text, FindWorkflowName(wfName, text))], "take:")
    ensures var ws := FindWorkflowName(wfName, text);
      var we := ClosingBracket(text, ws);
      var a := FindSection(text, ws, we, "take:") + ws;
      ws + 5 <= a <= we && GetWfTakes(text, wfName) == KeptLines(Split(text[a..we], '\n'), TakeStops)
    ensures var r := GetWfTakes(text, wfName);
      forall k :: 0 <= k < |r| ==> r[k] != "" && Strip(r[k]) == r[k] && !StartsWith(r[k], "main:")
  {
    var ws := FindWorkflowName(wfName, text);
    var we := ClosingBracket(text, ws);
    SectionInBlock(text, ws, we, "take:");
    var a := FindSection(text, ws, we, "take:") + ws;
    var r := KeptLines(Split(text[a..we], '\n'), TakeStops);
    KeptLinesAreClean(Split(text[a..we], '\n'), TakeStops);
    forall k | 0 <= k < |r| ensures !StartsWith(r[k], "main:") {
      assert TakeStops[0] == "main:";
    }
  }

  /**
   * get_output_channel_emits returns [] when no `process NAME {` occurs or
   * when the process block's braces never balance.
   */
  lemma OutputChannelEmitsMissing(text: string, procName: string, finder: string -> seq<(string, string)>)
    requires IsWord(procName)
    ensures NoBlock(text, "process", procName) ==> GetOutputChannelEmits(text, procName, finder) == []
    ensures var ps := FindProcessName(procName, text);
      ps != -1 && Unbalanced(text, ps) ==> GetOutputChannelEmits(text, procName, finder) == []
  {
    FindBlockIsLeftmostMatch("process", procName, text);
    var ps := FindProcessName(procName, text);
    if ps != -1 {
      ClosingBracketIsFirstBalance(text, ps);
    }
  }

  /**
   * Otherwise get_output_channel_emits works on the text from a start offset up
   * to the closing brace: the end of the `output:` match when the body has
   * one, and one character before the body, the block's own `{`, when it does
   * not. It lists the emit matches there, and falls back to the numbered
   * lines exactly when there are none.
   */
  lemma OutputChannelEmitsFound(text: string, procName: string, finder: string -> seq<(string, string)>)
    requires IsWord(procName)
    requires FindProcessName(procName, text) != -1
    requires ClosingBracket(text, FindProcessName(procName, text)) != -1
    ensures var ps := FindProcessName(procName, text);
      var pe := ClosingBracket(text, ps);
      var a := FindSection(text, ps, pe, "output:") + ps;
      var emits := EmitChannels(finder(text[a..pe]));
      && (Contains(text[ps..pe], "output:") ==> ps + 7 <= a <= pe)
      && (!Contains(text[ps..pe], "output:") ==> a == ps - 1 && text[a] == '{')
      && GetOutputChannelEmits(text, procName, finder)
           == if emits == [] then Numbered(KeptLines(Split(text[a..pe], '\n'), OutputStops)) else emits
  {
    var ps := FindProcessName(procName, text);
    var pe := ClosingBracket(text, ps);
    SectionInBlock(text, ps, pe, "output:");
  }

  /**
   * get_wf_emits returns [] when no `workflow NAME {` occurs, when the
   * workflow block's braces never balance, or when its body has no `emit:`.
   */
  lemma WfEmitsMissing(text: string, wfName: string, finder: string -> seq<(string, string)>)
    requires IsWord(wfName)
    ensures NoBlock(text, "workflow", wfName) ==> GetWfEmits(text, wfName, finder) == []
    ensures var ws := FindWorkflowName(wfName, text);
      ws != -1 && Unbalanced(text, ws) ==> GetWfEmits(text, wfName, finder) == []
    ensures var ws := FindWorkflowName(wfName, text);
      (ws != -1 && ClosingBracket(text, ws) != -1 && !Contains(text[ws..ClosingBracket(text, ws)], "emit:")) ==>
        GetWfEmits(text, wfName, finder) == []
  {
    FindBlockIsLeftmostMatch("workflow", wfName, text);
    var ws := FindWorkflowName(wfName, text);
    if ws != -1 {
      ClosingBracketIsFirstBalance(text, ws);
      var we := ClosingBracket(text, ws);
      if we != -1 {
        SectionInBlock(text, ws, we, "emit:");
      }
    }
  }

  /**
   * Otherwise get_wf_emits lists the `name = expr` matches after the `emit:`
   * match, and falls back to the numbered lines exactly when there are none.
   */
  lemma WfEmitsFound(text: string, wfName: string, finder: string -> seq<(string, string)>)
    requires IsWord(wfName)
    requires FindWorkflowName(wfName, text) != -1
    requires ClosingBracket(text, FindWorkflowName(wfName, text)) != -1
    requires Contains(text[FindWorkflowName(wfName, text)..ClosingBracket(text, FindWorkflowName(wfName, text))], "emit:")
    ensures var ws := FindWorkflowName(wfName, text);
      var we := ClosingBracket(text, ws);
      var a := FindSection(text, ws, we, "emit:") + ws;
      var emits := WfEmitChannels(finder(text[a..we]));
      && ws + 5 <= a <= we
      && GetWfEmits(text, wfName, finder)
           == if emits == [] then Numbered(KeptLines(Split(text[a..we], '\n'), OutputStops)) else emits
  {
    var ws := FindWorkflowName(wfName, text);
    var we := ClosingBracket(text, ws);
    SectionInBlock(text, ws, we, "emit:");
  }
}
