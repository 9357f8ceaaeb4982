# sublime-nextflow text scanners, modelled in Dafny

This project models the text-scanning core of the sublime-nextflow editor plugin. The plugin finds brace-delimited blocks in Nextflow sources and configs, then slices out their contents. The modelled parts are:

- the brace-depth scan that finds a block's closing `}`;
- the `process NAME {` / `workflow NAME {` locators and the section finders (`input:`, `output:`, `take:`, `emit:`);
- the section line extractors and their numbered variant;
- the composite popup lookups in `process_popups.py`, `process_out_emit_completion.py` and `process_call_popup.py`;
- the `params { ... }` scanner and the parameter-schema lookup and formatting in `params_completions.py`;
- the `withLabel` body collector in `process_label_completion.py`;
- the line matchers, `relative_path` and the include-text construction in `nextflow_include_command.py`.

Modules that follow the source files:

- `ProcessPopups` (process_popups.dfy)
- `ProcessOutEmitCompletion` (process_out_emit_completion.dfy)
- `ProcessCallPopup` (process_call_popup.dfy)
- `ParamsCompletions` (params_completions.dfy)
- `ParamsSchema` (params_schema.dfy)
- `ProcessLabelCompletion` (process_label_completion.dfy)
- `NextflowInclude` (nextflow_include_command.dfy)

Shared modules for logic the source repeats or takes from Python:

- `TextOps`: `str.strip`, `str.split`, `str.join`, slices, `*` on strings.
- `BraceScan`: `find_closing_bracket`. Its three copies are identical, so it is modelled once.
- `BlockSearch`: the block and section finders.
- `BlockLookup`: facts about blocks that are missing or unbalanced.
- `SectionLines`: the line extractor, parameterised by its stop keywords.
- `Patterns`: a small matcher for the fixed regexes of the core, with `re.match`, `re.search` and `re.finditer`.
- `JsonValues`: JSON values and the dict operations the schema code uses.
- `PurePaths`: POSIX `pathlib` paths.
- `StringSort`: `sorted` on strings.

Where the source loops and updates variables, the model has a `method` with a loop. Each method is proved equal to a specification function, and the properties the plugin relies on are proved as lemmas about that function. The composite lookups are straight-line code with early returns in the source, so they are functions here.

Inputs the plugin reads from disk or from the editor are parameters: the file text, its lines, the file name, the selection count and the cursor column. The `finditer` results of the two backtracking emit regexes are a parameter too: a `finder` function from the searched slice to its group pairs.

## Model

| member | source | states |
|---|---|---|
| BraceScan.FindClosingBracket | process_popups.py:20-30 | The counter loop returns the scan's result: -1, or an index from start on that holds `}` |
| BraceScan.ClosingBracket | process_popups.py:20-30 | find_closing_bracket gives -1 or an index from start on that holds `}` |
| BraceScan.ClosingBracketIsFirstBalance | process_popups.py:20-30 | -1 exactly when no prefix of text[start..] brings the depth to 0. Otherwise: the first index where it does, holding `}`; the text between the braces is balanced; every shorter prefix keeps the depth at 1 or more |
| BraceScan.ScanFromFindsFirstZero | process_out_emit_completion.py:17-27 | From any index and depth, the scan stops at the first index where the running depth reaches 0, and returns -1 exactly when none does |
| BraceScan.DepthStep | process_call_popup.py:16-26 | One more character changes the depth by +1 for `{`, -1 for `}` and 0 otherwise |
| BlockSearch.FindProcessName | process_popups.py:33-37 | -1, or an offset just past a `{` |
| BlockSearch.FindWorkflowName | process_popups.py:40-44 | -1, or an offset just past a `{` |
| BlockSearch.FindBlock | process_popups.py:33-44 | The shared search behind both locators: -1, or an offset just past a `{` |
| BlockSearch.FindBlockIsLeftmostMatch | process_popups.py:33-44 | -1 exactly when no position matches `KEYWORD\s+NAME\s*{`; otherwise the end of the leftmost match |
| BlockSearch.SearchBlockNone | process_call_popup.py:29-33 | The search from p finds nothing exactly when no position from p on matches |
| BlockSearch.SearchBlockFirst | process_out_emit_completion.py:30-34 | A found offset comes from the first matching position, with none before it |
| BlockSearch.FindBlockAtStart | process_popups.py:33-37 | A text that opens with `KEYWORD NAME {` has its body start just after that brace |
| BlockSearch.IndexOfIsFirst | process_popups.py:47-51 | No position between the start and the found occurrence holds the pattern |
| BlockSearch.KeywordEnd | process_popups.py:47-51 | `m.end()` of the section search: -1, or an offset at least the keyword's length and at most the text's length |
| BlockSearch.KeywordEndSpec | process_popups.py:47-58 | -1 exactly when the keyword does not occur; otherwise the end of the whitespace run after its first occurrence |
| BlockSearch.FindSection | process_popups.py:127-138 | -1 or an offset relative to text[start:end], at least the keyword's length and at most end - start |
| BlockLookup.SectionInBlock | process_popups.py:96-99 | The section search inside a block fails exactly when the keyword is absent from the body; otherwise the absolute offset lies inside the body, past the keyword |
| SectionLines.KeptLinesAreClean | process_popups.py:61-72 | No kept line is empty, has whitespace at either end, or starts with a stop keyword |
| SectionLines.KeptLinesBeforeStop | process_popups.py:61-72 | The kept lines are exactly the stripped, non-blank lines before the first stop line, in source order |
| SectionLines.KeptLinesSingleLine | process_popups.py:63 | Lines split on newlines hold no newline |
| SectionLines.KeepLines | process_popups.py:64-72 | The extraction loop with its `continue` and `break` computes the kept lines |
| SectionLines.CollectLines | process_popups.py:75-85 | The extraction of text[start:end] with a stop set gives the kept lines of its split |
| SectionLines.NumberedAt | process_popups.py:167 | Entry k of the numbered lines is (k, line k) |
| SectionLines.KeepNumberedLines | process_popups.py:158-168 | The numbering loop gives entry k = (k, k-th kept line) |
| SectionLines.CollectNumberedLines | process_popups.py:158-168 | output_section_lines numbers the kept lines of text[start:end] |
| SectionLines.Flatten | process_popups.py:145 | A collapsed channel expression holds no newline |
| SectionLines.FlattenKeepsNonSpace | process_popups.py:145 | Collapsing an expression onto one line removes whitespace only |
| SectionLines.FlattenOneLine | process_popups.py:145 | A one-line expression is only stripped |
| SectionLines.EmitChannels | process_popups.py:143-146 | One (emit, chan) pair per match, in match order, with chan collapsed |
| ProcessPopups.GetInputChannels | process_popups.py:61-72 | The lines kept before `output:`, `script:`, `when:` or `exec:` |
| ProcessPopups.GetWfTakeChannels | process_popups.py:75-85 | The lines kept before `main:` |
| ProcessPopups.OutputSectionLines | process_popups.py:158-168 | The numbered lines kept before `script:`, `when:` or `exec:` |
| ProcessPopups.GetOutputChannels | process_popups.py:141-147 | The loop over the matches gives their (emit, chan) pairs in order |
| ProcessPopups.WfEmitChannels | process_popups.py:152-154 | One (name, expression) pair per match, in match order |
| ProcessPopups.WfEmitChannelsRoundTrip | process_popups.py:150-155 | The entries keep the match pairs unchanged and in order: reading the pairs back gives the matches, and named entries are rebuilt from their pairs |
| ProcessPopups.GetWfEmitChannels | process_popups.py:150-155 | The loop over the matches gives their pairs in order |
| ProcessPopups.InputChannelTextMissing | process_popups.py:88-98 | [] when the process is absent, its braces are unbalanced, or its body has no `input:` |
| ProcessPopups.InputChannelTextFound | process_popups.py:88-100 | Otherwise: the kept lines from the end of the `input:` match, which lies inside the body, to the closing brace. They are clean and none starts with a stop keyword |
| ProcessPopups.GetInputChannelText | process_popups.py:88-100 | Every returned line is non-empty, stripped, and does not start with `output:`, `script:`, `when:` or `exec:` |
| ProcessPopups.WfTakesMissing | process_popups.py:103-113 | [] when the workflow is absent, its braces are unbalanced, or its body has no `take:` |
| ProcessPopups.WfTakesFound | process_popups.py:103-115 | Otherwise: the kept lines after `take:` up to the closing brace, stopping at `main:` |
| ProcessPopups.GetWfTakes | process_popups.py:103-115 | Every returned line is non-empty, stripped, and does not start with `main:` |
| ProcessPopups.OutputChannelEmitsMissing | process_popups.py:171-178 | [] when the process is absent or its braces are unbalanced |
| ProcessPopups.OutputChannelEmitsFound | process_popups.py:179-184 | The missing `output:` is not checked, so the start then falls on the block's own `{`. The numbered-lines fallback is used exactly when no emit matches |
| ProcessPopups.GetOutputChannelEmits | process_popups.py:171-184 | Either every entry is a named channel with a one-line expression, or entry k is numbered k and holds a clean line that does not start with `script:`, `when:` or `exec:` |
| ProcessPopups.WfEmitsMissing | process_popups.py:187-197 | [] when the workflow is absent, its braces are unbalanced, or its body has no `emit:` |
| ProcessPopups.WfEmitsFound | process_popups.py:198-202 | Otherwise: the `name = expr` matches after `emit:`, with the numbered lines used exactly when there are none |
| ProcessPopups.GetWfEmits | process_popups.py:187-202 | Either every entry is a named pair, or entry k is numbered k and holds a clean line that does not start with `script:`, `when:` or `exec:` |
| ProcessOutEmitCompletion.WithPath | process_out_emit_completion.py:49 | Every entry is paired with the same path, in order |
| ProcessOutEmitCompletion.GetOutputChannels | process_out_emit_completion.py:44-50 | One (emit, chan, path) triple per match, chan collapsed onto one line |
| ProcessOutEmitCompletion.OutputSectionLines | process_out_emit_completion.py:53-63 | The numbered lines kept before `script:`, each with the path |
| ProcessOutEmitCompletion.OutputSectionLinesEntries | process_out_emit_completion.py:53-63 | Entry k is (k, k-th kept line, path); kept lines are stripped, non-blank and do not start with `script:` |
| ProcessOutEmitCompletion.OutputChannelEmitsMissing | process_out_emit_completion.py:66-73 | [] when the process is absent or its braces are unbalanced |
| ProcessOutEmitCompletion.OutputChannelEmitsFound | process_out_emit_completion.py:74-79 | With no `output:`, the start is proc_start - 1, the block's `{`. The line fallback is used exactly when no emit matches. Every entry carries the path |
| ProcessOutEmitCompletion.GetOutputChannelEmits | process_out_emit_completion.py:66-79 | Every entry carries the path; either all are named with a one-line expression, or entry k is numbered k with a clean line not starting with `script:` |
| ProcessCallPopup.GetInputChannels | process_call_popup.py:43-53 | The lines kept before `output:` or `script:` |
| ProcessCallPopup.InputChannelTextMissing | process_call_popup.py:56-63 | [] when the process is absent or its braces are unbalanced |
| ProcessCallPopup.InputChannelTextFound | process_call_popup.py:64-67 | With no `input:`, the start is proc_start - 1, the block's `{`. The result is exactly the kept lines of that slice: stripped, non-empty, none starting with `output:` or `script:` |
| ProcessCallPopup.GetInputChannelText | process_call_popup.py:56-67 | Every returned line is non-empty, stripped, and does not start with `output:` or `script:` |
| Patterns.MatchTokens | params_completions.py:15 | A match ends inside the text and has one group per capturing token |
| Patterns.MatchGroups | params_completions.py:15 | Each group is a non-empty run of its token's character class (maximality is proved for the params line by ParamLineGroups) |
| Patterns.MatchAt | process_label_completion.py:11 | re.match at q: the match starts at q and ends inside the text |
| Patterns.Search | params_completions.py:19 | re.search returns the match at a position from `from` on |
| Patterns.SearchIsFirst | params_completions.py:19 | No position before the found match has one |
| Patterns.FindAllMatches | process_label_completion.py:17 | Every finditer match is the match at its position and is not empty |
| Patterns.FindAllGroups | process_label_completion.py:17 | The groups of every finditer match fit the pattern's capturing tokens |
| Patterns.FindAllFrom | process_label_completion.py:17 | The first finditer match starts at `from` or later |
| Patterns.FindAllOrdered | process_label_completion.py:17 | finditer's matches come in text order without overlapping |
| Patterns.FindAllBetween | process_label_completion.py:17 | No position between two consecutive matches has a match |
| Patterns.FindAllEdges | process_label_completion.py:17 | Nothing matches before the first match or after the last; no match at all exactly when no position matches |
| ParamsCompletions.ParamsList | params_completions.py:18-39 | params_list: the entries of the params block, or None when the config has no header |
| ParamsCompletions.ParamsOf | params_completions.py:18-39 | Every entry params_list returns has a word name and a non-empty value without whitespace |
| ParamsCompletions.ScanParams | params_completions.py:21-37 | The loop with its `brackets` counter, `continue` and `break` gives the entries of the lines up to the first closing one |
| ParamsCompletions.ScanLine | params_completions.py:25-36 | Each of the loop's four cases (skip, match, close, other) keeps the loop invariant or ends with the whole result |
| ParamsCompletions.ParamsNoneIffNoHeader | params_completions.py:19-20 | None exactly when no position of the config matches the `\nparams\s*{\n` header |
| ParamsCompletions.NoNewlineNoParams | params_completions.py:12 | A config without a newline, a block on its first line included, has no params |
| ParamsCompletions.PairMatchShape | params_completions.py:15 | A matching line gives a word for the name and a non-empty, whitespace-free value |
| ParamsCompletions.ParamLineRoundTrip | params_completions.py:15 | `name = value` written out reads back as (name, value) |
| ParamsCompletions.ParamLineGroups | params_completions.py:15 | A line matches exactly when it is a word, optional whitespace, `=`, optional whitespace, a non-empty value, and no line break before its last character. The name is the maximal word run at the start; the value is the maximal whitespace-free run after the `=` |
| ParamsCompletions.ParamLineReads | params_completions.py:15-30 | `name s1 = s2 rest`, with whitespace s1 and s2, reads as the name and the first whitespace-free run of rest; the rest of the line, such as a trailing comment, is ignored |
| ParamsCompletions.AssignGroups | params_completions.py:15 | The same characterisation for any pattern with the tokens of `^(\w+)\s*=\s*(\S+).*$` |
| ParamsCompletions.SkippedIsNotParam | params_completions.py:26-28 | A blank or `//` line never matches the line pattern |
| ParamsCompletions.ClosingIsNotParam | params_completions.py:28-31 | A line starting with `}` is not skipped and does not match, so it closes the block |
| ParamsCompletions.StopFrom | params_completions.py:31-36 | The first closing line from i on: no earlier line closes the block |
| ParamsCompletions.ParamsEntries | params_completions.py:22-36 | Each entry is a word name with a non-empty whitespace-free value, matched by a line before the first closing line |
| ParamsCompletions.EntriesFromLines | params_completions.py:24-30 | Every entry comes from a line that is neither blank nor a comment and matches |
| ParamsCompletions.SkippedLineIgnored | params_completions.py:26-27 | A blank or comment line contributes nothing, wherever it stands |
| ParamsCompletions.EntriesAppend | params_completions.py:24-30 | The entries of consecutive runs of lines come in line order |
| ParamsCompletions.LinesAfterCloseIgnored | params_completions.py:31-36 | Replacing everything after the first closing line changes no entry |
| ParamsSchema.LookupCases | params_completions.py:44-47 | A definition is skipped (KeyError) exactly when `properties` or the parameter is missing. Its value is returned exactly when both keys are present |
| ParamsSchema.InfoFrom | params_completions.py:43-48 | The loop's result is `{}` or the lookup result of one of the definitions |
| ParamsSchema.ParamInfo | params_completions.py:42-48 | A result needs a schema dict with a `definitions` dict, and is `{}` or the `properties` entry of one of its definitions |
| ParamsSchema.GetParamInfo | params_completions.py:42-48 | The loop with its early return and `continue` gives the first definition's entry |
| ParamsSchema.InfoFromFirst | params_completions.py:43-45 | The first definition whose lookup does not raise KeyError decides the result |
| ParamsSchema.InfoFromNone | params_completions.py:48 | When every definition raises KeyError the result is `{}` |
| ParamsSchema.InfoFromNoKeyError | params_completions.py:46-47 | KeyError never leaves the loop |
| ParamsSchema.ParamInfoKeyError | params_completions.py:43 | The only KeyError is a schema without `definitions` |
| ParamsSchema.EnumListSorted | params_completions.py:64-65 | A list enum renders as its strings, sorted and joined with `, ` |
| ParamsSchema.EnumValueText | params_completions.py:62-66 | The enum step: a list is sorted and joined; any other value is used as it is |
| ParamsSchema.FormatParamInfo | params_completions.py:50-69 | Building the text paragraph by paragraph gives the formatted entry |
| ParamsSchema.FormatInfo | params_completions.py:50-69 | A formatted text comes from a dict entry and opens with the description, type and default paragraphs |
| ParamsSchema.FormatOpensWithDefaults | params_completions.py:51-59 | For every dict entry that formats, the text opens with the description, type and default paragraphs; each shows str() of the stored value, or N/A, string or ? when the key is missing |
| ParamsSchema.FormatDefaults | params_completions.py:51-53 | An entry with no keys shows N/A, string and ? |
| ParamsSchema.FormatErrors | params_completions.py:51-65 | Formatting fails exactly when the entry is not a dict (AttributeError) or its enum list holds a non-string (TypeError); never with KeyError |
| ParamsSchema.FormatStartsWithDescription | params_completions.py:53-55 | The text opens with the description paragraph, N/A when there is none |
| ParamsSchema.FormatIgnoresOtherKeys | params_completions.py:50-69 | Keys other than the six it reads do not change the text |
| StringSort.SortStringsSorted | params_completions.py:65 | sorted(xs) is in order and holds the same strings, as often as xs does |
| StringSort.SortIsSorted | params_completions.py:65 | Any sorted rearrangement of xs is what sorted(xs) returns |
| StringSort.SortedUnique | params_completions.py:65 | Two sorted lists holding the same strings are equal |
| StringSort.InsertPermutation | params_completions.py:65 | Insertion adds exactly one copy of x |
| StringSort.InsertSorted | params_completions.py:65 | Insertion keeps a list sorted |
| StringSort.StrLeTotal | params_completions.py:65 | String order is total |
| StringSort.StrLeAntisymmetric | params_completions.py:65 | String order is antisymmetric |
| StringSort.StrLeTransitive | params_completions.py:65 | String order is transitive |
| ProcessLabelCompletion.GetConfigLabels | process_label_completion.py:14-32 | get_config_labels gives the labels of the file's text |
| ProcessLabelCompletion.Labels | process_label_completion.py:14-32 | Every triple carries the file name and a label made of word characters |
| ProcessLabelCompletion.ScanLabels | process_label_completion.py:17-31 | The loop over the matches gives one triple per match |
| ProcessLabelCompletion.ScanBody | process_label_completion.py:19-29 | The inline brace scan gives the closing-bracket index, starting from end + 1 |
| ProcessLabelCompletion.LabelsPerMatch | process_label_completion.py:17-31 | Exactly one triple per finditer match, in match order: file name, the match's one group, the body after the match |
| ProcessLabelCompletion.LabelsAreWords | process_label_completion.py:11 | Every reported label is a non-empty run of word characters |
| ProcessLabelCompletion.LabelsOfAt | process_label_completion.py:31 | Triple k comes from match k |
| ProcessLabelCompletion.PatternMatches | process_label_completion.py:11 | Every match of the label pattern has exactly one group |
| ProcessLabelCompletion.BodyAt | process_label_completion.py:30 | The body is the stripped slice up to the brace the scan found, with each line stripped |
| ProcessLabelCompletion.StripLines | process_label_completion.py:30 | The lines of the result are the lines of the stripped text, each stripped |
| ProcessLabelCompletion.LabelBody | process_label_completion.py:18-30 | Every body line is stripped, and the body has as many lines as the stripped slice: interior blank lines are kept |
| ProcessLabelCompletion.LabelScanSkipsEnd | process_label_completion.py:21 | The scan starts at end + 1, so replacing the character at end does not change where the body ends |
| ProcessLabelCompletion.ScanFromReadsSuffix | process_label_completion.py:21-29 | The depth scan reads only the text from its start index on |
| NextflowInclude.FindProcesses | nextflow_include_command.py:13-18 | find_processes yields the names of the lines that match `process NAME {` |
| NextflowInclude.FindFunctions | nextflow_include_command.py:21-26 | find_functions yields the names of the lines that match `def NAME(...) {` |
| NextflowInclude.FindNames | nextflow_include_command.py:15-18 | The generator loop yields, in order, the names of the matching lines |
| NextflowInclude.NamesFromLines | nextflow_include_command.py:16-18 | Every yielded name is a word taken from a matching line |
| NextflowInclude.NamesAppend | nextflow_include_command.py:15 | The names of consecutive runs of lines come in line order |
| NextflowInclude.ProcessLineRoundTrip | nextflow_include_command.py:10 | `process NAME {` on its own line is found, with its name |
| NextflowInclude.DefLineRoundTrip | nextflow_include_command.py:11 | `def NAME(ARGS) {` on its own line is found, with its name |
| NextflowInclude.IndentedLineNotFound | nextflow_include_command.py:10-11 | The patterns are anchored: an indented declaration is not found |
| NextflowInclude.RelativePath | nextflow_include_command.py:29-38 | The loop over the parents, with its try/continue and early return, gives the relative path |
| NextflowInclude.RelativeFrom | nextflow_include_command.py:30-38 | From parent i on, the result starts with `./` or `../`, or is the import path unchanged |
| NextflowInclude.RelativePathOf | nextflow_include_command.py:29-38 | relative_path starts with `./` or `../`, or is the import path unchanged |
| NextflowInclude.RelativeNearest | nextflow_include_command.py:30-37 | The nearest parent holding the import path is used: `./` plus the rest for the script's own directory, `../` once per further level otherwise |
| NextflowInclude.RelativeNoParent | nextflow_include_command.py:38 | When no parent holds the import path, the result is the path unchanged |
| NextflowInclude.RelativeFromNone | nextflow_include_command.py:36-38 | Parents that all fail lead to the import path unchanged |
| NextflowInclude.RelativePathResolves | nextflow_include_command.py:30-35 | Read from the script's directory, the relative path leads back to the import path |
| NextflowInclude.ResolveFrom | nextflow_include_command.py:33-35 | The `./` or `../` prefix for level i, then the remaining parts, lead to those parts below parent i |
| NextflowInclude.LowerSpec | nextflow_include_command.py:57 | Lowering leaves no upper-case letter, changes nothing else, and is idempotent |
| NextflowInclude.ProcessIncludeText | nextflow_include_command.py:57 | The process include names the process at offset 10, then the relative path between the quotes, then the lower-cased name in the options map; its length is fixed by the two |
| NextflowInclude.ProcessIncludeParts | nextflow_include_command.py:57 | The same positions, for the text written out |
| NextflowInclude.FunctionsIncludeText | nextflow_include_command.py:110 | The functions include holds the joined names at offset 10 and then the relative path between the quotes |
| NextflowInclude.FunctionNamesReadBack | nextflow_include_command.py:110 | The names joined with `; ` split on `;` and stripped give the names back |
| NextflowInclude.InsertProcessWhen | nextflow_include_command.py:45-57 | Text is inserted exactly when both arguments are given, there is one selection and the cursor is at column 0; the text is the process include |
| NextflowInclude.InsertFunctionsWhen | nextflow_include_command.py:98-110 | Text is inserted exactly when names and a module are given, there is one selection and the cursor is at column 0; the text is the functions include |
| NextflowInclude.InsertProcess | nextflow_include_command.py:41-57 | `view.selection[0]` raises IndexError exactly when both arguments are given and there is no selection; inserted text opens with the process include |
| NextflowInclude.InsertFunctions | nextflow_include_command.py:94-110 | IndexError exactly when names and a module are given and there is no selection; inserted text opens with the functions include |
| NextflowInclude.ModuleBaseValid | nextflow_include_command.py:54-55 | The module path without its extension is a proper path |
| NextflowInclude.ModuleBaseDropsExtension | nextflow_include_command.py:54-55 | `NAME.EXT` becomes `NAME` in the same directory |
| NextflowInclude.IncludeResolves | nextflow_include_command.py:54-57 | The inserted path leads from the script's directory to the module without its extension |
| TextOps.PySlice | process_popups.py:63 | Python slicing: in-range bounds give the plain slice; -1 as the end drops the last character |
| TextOps.Strip | process_popups.py:65 | A stripped string is empty or has no whitespace at either end |
| TextOps.StripSlice | process_popups.py:65 | What strip removes, on either side, is whitespace |
| TextOps.StripEmpty | process_popups.py:66 | A stripped string is empty exactly when the original was all whitespace |
| TextOps.StripIdempotent | process_label_completion.py:30 | Stripping twice is stripping once |
| TextOps.NonSpaceStrip | process_popups.py:145 | Stripping removes whitespace only |
| TextOps.Split | process_popups.py:63 | A split has at least one piece and no piece holds the separator |
| TextOps.JoinSplit | process_label_completion.py:30 | Joining a split with its separator gives the text back |
| TextOps.SplitJoin | nextflow_include_command.py:110 | Splitting a join of separator-free pieces gives the pieces back |
| TextOps.Repeat | nextflow_include_command.py:35 | `'../' * i` has i times its length |
| PurePaths.ParsePathText | nextflow_include_command.py:54-56 | Reading back the text of a path gives the path |
| PurePaths.Parents | nextflow_include_command.py:30 | One parent per part; parent i has the same root and the path's parts minus the last i + 1 |
| PurePaths.RelativeToContains | nextflow_include_command.py:33 | relative_to succeeds exactly when the base has the target's root and its parts begin the target's parts |
| PurePaths.RelativeTo | nextflow_include_command.py:33 | `relative_to`'s text, read from the base, leads back to a target without `..` parts |
| PurePaths.StemDropsExtension | nextflow_include_command.py:55 | A name with an extension loses exactly the extension |
| PurePaths.StemKeepsPlainName | nextflow_include_command.py:55 | A name with no `.` after its first character is its own stem |
| PurePaths.Stem | nextflow_include_command.py:55 | The stem is the name, or a non-empty prefix of it ending just before its last `.`, with a non-empty suffix after |
| PurePaths.LastIndexOf | nextflow_include_command.py:55 | The index of the last occurrence, or -1 when there is none |
| JsonValues.GetFindsFirst | params_completions.py:51-53 | A key is found exactly when an entry has it, with the first such entry's value |
| JsonValues.Index | params_completions.py:45 | `value[key]`: the stored value, KeyError for a dict without the key, TypeError for a non-dict |
| JsonValues.GetOr | params_completions.py:51-53 | `dict.get(key, default)`: the stored value or the default |
| JsonValues.Values | params_completions.py:43 | `dict.values()` in entry order |
| JsonValues.QuoteFor | params_completions.py:55-68 | `repr` quotes with `"` exactly when the string holds `'` and no `"` |
| JsonValues.ReprStr | params_completions.py:55-68 | `repr` of a string opens and closes with that quote |
| JsonValues.ReprStrRoundTrip | params_completions.py:55-68 | Reading the escapes back gives the string: repr loses nothing |
| JsonValues.EscapedQuote | params_completions.py:55-68 | Inside the quotes, the quote character only appears right after a backslash |
| JsonValues.ReprStrPlain | params_completions.py:55-68 | Printable ASCII without `"` or a backslash is written as it is: between `"` when it holds `'`, between `'` otherwise |

## Left out

- `\w` is ASCII letters, digits and `_` only. Python's Unicode word characters are not modelled.
- Regexes are not modelled in general.
  - The fixed patterns of the core are written as token sequences for a small matcher with Python's greedy semantics. This covers the `params` header and line, the `withLabel` selector, and the `process` and `def` lines.
  - The backtracking emit regexes (process_popups.py:13 and 17, process_out_emit_completion.py:15) are given as a `finder` parameter. The model proves what the code does with its group pairs.
- In the `withLabel` selector, the leading `\s*` is left out. It changes where a match starts but not its end or its group, and the body is taken from the end.
- Block names are assumed to be words. find_process_name and find_workflow_name paste the name into the regex, so regex metacharacters in it are not modelled.
- The `print("NOMATCH", l)` at params_completions.py:34 is output only. The model treats the line as ignored.
- File and editor I/O are parameters or left out:
  - `Path.read_text` and `open`: the model takes the text or the lines.
  - `view.file_name()`: the model takes the file name as a string, and a missing file name is not modelled.
  - `view.selection` and `view.rowcol`: the model takes the selection count and column.
  - `view.insert`: the model returns the text to insert.
- Also not modelled:
  - the pickers that walk the project with `rglob` and show quick panels (nextflow_include_command.py:60-91 and 113-149);
  - the event listeners and popups;
  - the HTML helpers (proc_input_html, proc_output_html and the rest);
  - container_select.py and conda_completions.py, which use the network, subprocesses, caches and threads.
- JSON numbers are integers; floats are not modelled. A dict keeps duplicate keys and lookup finds the first, where `json.load` keeps the last.
- JsonValues.ReprStr: characters above U+00FF that the Unicode database calls non-printable are written as they are; Python writes them as `\u` or `\U` escapes. The Latin-1 ones (C0 and C1 controls, DEL, the no-break space and the soft hyphen) are escaped as Python does.
- Patterns.MatchGroups: states that each group is a non-empty run of its class, not that the run is maximal; maximality is proved for the params line pattern by ParamsCompletions.ParamLineGroups.
- ParamsCompletions.PairMatchShape: states the shape of the pair for any pattern of its kind, not which run of the line the value is; for the params line pattern, ParamsCompletions.ParamLineGroups and ParamLineReads prove that the value is the first maximal whitespace-free run after the `=`.
- NextflowInclude.Lower: `str.lower` on ASCII letters only.
- Paths are POSIX only. The Windows flavour and a leading `//` root are not modelled. Walking `..` from the root stays at the root.
- find_closing_bracket appears three times, identically (process_popups.py:20-30, process_out_emit_completion.py:17-27, process_call_popup.py:16-26). It is modelled once, in BraceScan, and the inline copy in get_config_labels uses the same scan from end + 1.
