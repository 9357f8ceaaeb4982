/**
 * params_completions.py, the schema half: get_param_info, which finds a
 * parameter's entry in the `definitions` of nextflow_schema.json, and
 * format_param_info, which renders such an entry as the HTML of a popup.
 * Both work on values json.load produced; a key or type error that the
 * source does not catch is the Err result of the model.
 */
module ParamsSchema {
  import opened TextOps
  import opened JsonValues
  import opened StringSort

  /** defn['properties'][param] for one definition. */
  function Lookup(defn: Json, param: string): Result<Json> {
    match Index(defn, "properties")
    case Err(e) => Err(e)
    case Ok(props) => Index(props, param)
  }

  /**
   * The loop skips a definition exactly when it is a dict without
   * `properties`, or its `properties` is a dict without param; it returns the
   * stored value exactly when both keys are there.
   */
  lemma LookupCases(defn: Json, param: string)
    ensures Lookup(defn, param) == Err(KeyError) <==>
      defn.JDict? &&
      (!HasKey(defn.entries, "properties") ||
       (Get(defn.entries, "properties").value.JDict? && !HasKey(Get(defn.entries, "properties").value.entries, param)))
    ensures Lookup(defn, param).Ok? <==>
      defn.JDict? && HasKey(defn.entries, "properties") &&
      Get(defn.entries, "properties").value.JDict? && HasKey(Get(defn.entries, "properties").value.entries, param)
    ensures Lookup(defn, param).Ok? ==>
      Get(Get(defn.entries, "properties").value.entries, param) == Some(Lookup(defn, param).value)
  {
  }

  /** The loop of get_param_info over the definitions, as a function. */
  function InfoFrom(defs: seq<Json>, param: string): (r: Result<Json>)
    ensures r == Ok(JDict([])) || exists i :: 0 <= i < |defs| && Lookup(defs[i], param) == r
  {
    if defs == [] then Ok(JDict([]))
    else
      var r := Lookup(defs[0], param);
      if r == Err(KeyError) then
        var rest := InfoFrom(defs[1..], param);
        assert rest != Ok(JDict([])) ==> exists i :: 0 <= i < |defs| && Lookup(defs[i], param) == rest by {
          if rest != Ok(JDict([])) {
            var i :| 0 <= i < |defs[1..]| && Lookup(defs[1..][i], param) == rest;
            assert defs[i + 1] == defs[1..][i];
          }
        }
        rest
      else r
  }

  /**
   * get_param_info as a function: the definitions must be a dict (its
   * .values() is read). A result is the empty dict or the `properties` entry
   * of one of the definitions.
   */
  function ParamInfo(schema: Json, param: string): (r: Result<Json>)
    ensures r.Ok? ==>
      && schema.JDict? && HasKey(schema.entries, "definitions") && Get(schema.entries, "definitions").value.JDict?
      && (r.value == JDict([]) ||
          exists d :: d in Values(Get(schema.entries, "definitions").value.entries) && Lookup(d, param) == r)
  {
    match Index(schema, "definitions")
    case Err(e) => Err(e)
    case Ok(defs) =>
      if defs.JDict? then
        var r := InfoFrom(Values(defs.entries), param);
        assert r.Ok? && r.value != JDict([]) ==>
          exists d :: d in Values(defs.entries) && Lookup(d, param) == r;
        r
      else Err(AttributeError)
  }

  /** The first definition whose lookup does not raise KeyError decides the result. */
  lemma {:induction false} InfoFromFirst(defs: seq<Json>, param: string, i: nat)
    requires i < |defs| && Lookup(defs[i], param) != Err(KeyError)
    requires forall j :: 0 <= j < i ==> Lookup(defs[j], param) == Err(KeyError)
    ensures InfoFrom(defs, param) == Lookup(defs[i], param)
  {
    if i > 0 {
      assert Lookup(defs[0], param) == Err(KeyError);
      InfoFromFirst(defs[1..], param, i - 1);
    }
  }

  /** When every lookup raises KeyError the result is the empty dict. */
  lemma {:induction false} InfoFromNone(defs: seq<Json>, param: string)
    requires forall j :: 0 <= j < |defs| ==> Lookup(defs[j], param) == Err(KeyError)
    ensures InfoFrom(defs, param) == Ok(JDict([]))
  {
    if defs != [] {
      InfoFromNone(defs[1..], param);
    }
  }

  /** The loop catches KeyError, so KeyError never leaves it; any other error does. */
  lemma {:induction false} InfoFromNoKeyError(defs: seq<Json>, param: string)
    ensures InfoFrom(defs, param) != Err(KeyError)
  {
    if defs != [] && Lookup(defs[0], param) == Err(KeyError) {
      InfoFromNoKeyError(defs[1..], param);
    }
  }

  /** The only KeyError get_param_info raises is a schema dict without `definitions`. */
  lemma ParamInfoKeyError(schema: Json, param: string)
    ensures ParamInfo(schema, param) == Err(KeyError) <==> schema.JDict? && !HasKey(schema.entries, "definitions")
  {
    var d := Index(schema, "definitions");
    if d.Ok? && d.value.JDict? {
      InfoFromNoKeyError(Values(d.value.entries), param);
    }
  }

  /** get_param_info: the loop with its early return. */
  method GetParamInfo(schema: Json, param: string) returns (r: Result<Json>)
    ensures r == ParamInfo(schema, param)
  {
    var defsVal := Index(schema, "definitions");
    if defsVal.Err? {
      return Err(defsVal.error);
    }
    if !defsVal.value.JDict? {
      return Err(AttributeError);
    }
    var defs := Values(defsVal.value.entries);
    var i := 0;
    while i < |defs|
      invariant i <= |defs| && InfoFrom(defs[i..], param) == InfoFrom(defs, param)
      decreases |defs| - i
    {
      assert defs[i..][0] == defs[i] && defs[i..][1..] == defs[i + 1..];
      var props := Index(defs[i], "properties");
      if props.Ok? {
        var info := Index(props.value, param);
        if info != Err(KeyError) {
          return info;
        }
      } else if props.error != KeyError {
        return props;
      }
      i := i + 1;
    }
    assert defs[i..] == [];
    return Ok(JDict([]));
  }

  /** The strings of a list whose items are all strings. */
  function Strings(items: seq<Json>): (ss: seq<string>)
    requires forall i :: 0 <= i < |items| ==> items[i].JStr?
    ensures |ss| == |items| && forall i :: 0 <= i < |items| ==> ss[i] == items[i].s
  {
    seq(|items|, i requires 0 <= i < |items| => items[i].s)
  }

  /** ', '.join(sorted(items)): TypeError unless every item is a string. */
  function EnumList(items: seq<Json>): Result<string> {
    if forall i :: 0 <= i < |items| ==> items[i].JStr? then Ok(Join(SortStrings(Strings(items)), ", "))
    else Err(TypeError)
  }

  /**
   * A list of strings renders as its strings in sorted order joined by ", ":
   * for every sorted rearrangement ys of the strings, the text is ys joined.
   */
  lemma EnumListSorted(items: seq<Json>, ys: seq<string>)
    requires forall i :: 0 <= i < |items| ==> items[i].JStr?
    requires Sorted(ys) && multiset(ys) == multiset(Strings(items))
    ensures EnumList(items) == Ok(Join(ys, ", "))
  {
    SortIsSorted(Strings(items), ys);
  }

  /** The enum text: a list sorted and joined, any other value as str() gives it. */
  function EnumText(e: Json): Result<string> {
    if e.JList? then EnumList(e.items) else Ok(Show(e))
  }

  /** f'<p>{description}</p>' */
  function DescriptionPara(description: Json): string {
    "<p>" + Show(description) + "</p>"
  }

  /** The type and default paragraphs, added in one step. */
  function TypeDefaultParas(paramType: Json, default: Json): string {
    "<p><b>Type:</b> <code>" + Show(paramType) + "</code></p>" + "<p><b>Default:</b> <code>" + Show(default) + "</code></p>"
  }

  function PatternPara(pattern: Json): string {
    "<p><b>Pattern:</b> <code>" + Show(pattern) + "</code><p>"
  }

  function EnumPara(text: string): string {
    "<p><b>Enum:</b> " + text + "</p>"
  }

  function HelpPara(helpText: Json): string {
    "<p><i>" + Show(helpText) + "</i><p>"
  }

  /** The pattern paragraph, empty when the entry has no pattern. */
  function PatternText(info: seq<(string, Json)>): string {
    match Get(info, "pattern")
    case None => ""
    case Some(v) => PatternPara(v)
  }

  /** The help paragraph, empty when the entry has no help text. */
  function HelpText(info: seq<(string, Json)>): string {
    match Get(info, "help_text")
    case None => ""
    case Some(v) => HelpPara(v)
  }

  /** The three paragraphs every entry gets, with their defaults. */
  function HeadText(info: seq<(string, Json)>): string {
    DescriptionPara(GetOr(info, "description", JStr("N/A")))
    + TypeDefaultParas(GetOr(info, "type", JStr("string")), GetOr(info, "default", JStr("?")))
  }

  /** format_param_info as a function; a value that is not a dict has no .get. */
  function FormatInfo(info: Json): (r: Result<string>)
    ensures r.Ok? ==> info.JDict? && StartsWith(r.value, HeadText(info.entries))
  {
    if !info.JDict? then Err(AttributeError)
    else
      var f := info.entries;
      match Get(f, "enum")
      case None =>
        ConcatStartsWith(HeadText(f), PatternText(f), HelpText(f));
        Ok(HeadText(f) + PatternText(f) + HelpText(f))
      case Some(e) =>
        match EnumText(e)
        case Err(err) => Err(err)
        case Ok(t) =>
          ConcatStartsWith(HeadText(f) + PatternText(f), EnumPara(t), HelpText(f));
          ConcatStartsWith(HeadText(f), PatternText(f), []);
          PrefixOfPrefix(HeadText(f) + PatternText(f) + EnumPara(t) + HelpText(f), HeadText(f) + PatternText(f), HeadText(f));
          Ok(HeadText(f) + PatternText(f) + EnumPara(t) + HelpText(f))
  }

  /** The enum step of format_param_info: a list is sorted and joined, any other value is used as it is. */
  method EnumValueText(e: Json) returns (r: Result<string>)
    ensures r == EnumText(e)
  {
    if e.JList? {
      r := EnumList(e.items);
    } else {
      r := Ok(Show(e));
    }
  }

  /** format_param_info, building its text paragraph by paragraph. */
  method FormatParamInfo(info: Json) returns (r: Result<string>)
    ensures r == FormatInfo(info)
  {
    if !info.JDict? {
      return Err(AttributeError);
    }
    var f := info.entries;
    var paramType := GetOr(f, "type", JStr("string"));
    var default := GetOr(f, "default", JStr("?"));
    var description := GetOr(f, "description", JStr("N/A"));
    var out := "";
    out := out + DescriptionPara(description);
    assert out == DescriptionPara(description);
    out := out + TypeDefaultParas(paramType, default);
    assert out == HeadText(f);
    if HasKey(f, "pattern") {
      out := out + PatternPara(Get(f, "pattern").value);
    }
    assert out == HeadText(f) + PatternText(f);
    ghost var enum := "";
    if HasKey(f, "enum") {
      var text := EnumValueText(Get(f, "enum").value);
      if text.Err? {
        return Err(text.error);
      }
      out := out + EnumPara(text.value);
      enum := EnumPara(text.value);
    }
    assert out == HeadText(f) + PatternText(f) + enum;
    if HasKey(f, "help_text") {
      out := out + HelpPara(Get(f, "help_text").value);
    }
    assert out == HeadText(f) + PatternText(f) + enum + HelpText(f);
    if !HasKey(f, "enum") {
      assert HeadText(f) + PatternText(f) + enum == HeadText(f) + PatternText(f);
    }
    return Ok(out);
  }

  /** str() of the value stored under key, or the given text when the entry lacks the key. */
  function ShownOr(f: seq<(string, Json)>, key: string, default: string): string {
    if HasKey(f, key) then Show(Get(f, key).value) else default
  }

  /**
   * Every popup opens with the description, type and default paragraphs, each
   * showing the stored value as str() gives it or, for a missing key, the
   * literal default N/A, string or ?.
   */
  lemma FormatOpensWithDefaults(info: Json)
    requires FormatInfo(info).Ok?
    ensures info.JDict?
    ensures StartsWith(FormatInfo(info).value,
      "<p>" + ShownOr(info.entries, "description", "N/A") + "</p>"
      + "<p><b>Type:</b> <code>" + ShownOr(info.entries, "type", "string") + "</code></p>"
      + "<p><b>Default:</b> <code>" + ShownOr(info.entries, "default", "?") + "</code></p>")
  {
    HeadTextShown(info.entries);
  }

  /** The three head paragraphs, written with ShownOr. */
  lemma HeadTextShown(f: seq<(string, Json)>)
    ensures HeadText(f) ==
      "<p>" + ShownOr(f, "description", "N/A") + "</p>"
      + "<p><b>Type:</b> <code>" + ShownOr(f, "type", "string") + "</code></p>"
      + "<p><b>Default:</b> <code>" + ShownOr(f, "default", "?") + "</code></p>"
  {
    assert Show(GetOr(f, "description", JStr("N/A"))) == ShownOr(f, "description", "N/A");
    assert Show(GetOr(f, "type", JStr("string"))) == ShownOr(f, "type", "string");
    assert Show(GetOr(f, "default", JStr("?"))) == ShownOr(f, "default", "?");
  }

  /** An entry with none of the keys renders the three defaults: N/A, string and ?. */
  lemma FormatDefaults()
    ensures FormatInfo(JDict([])) ==
      Ok(("<p>" + "N/A" + "</p>")
         + ("<p><b>Type:</b> <code>" + "string" + "</code></p>" + "<p><b>Default:</b> <code>" + "?" + "</code></p>"))
  {
    var head := HeadText([]);
    assert PatternText([]) == "" && HelpText([]) == "";
    assert head + "" + "" == head;
  }

  /**
   * Formatting fails exactly when the entry is not a dict (AttributeError) or
   * its enum is a list with an item that is not a string (TypeError).
   */
  lemma FormatErrors(info: Json)
    ensures FormatInfo(info) == Err(AttributeError) <==> !info.JDict?
    ensures FormatInfo(info) == Err(TypeError) <==>
      info.JDict? && HasKey(info.entries, "enum") && Get(info.entries, "enum").value.JList? &&
      exists i :: 0 <= i < |Get(info.entries, "enum").value.items| && !Get(info.entries, "enum").value.items[i].JStr?
    ensures FormatInfo(info).Err? ==> FormatInfo(info).error != KeyError
  {
  }

  /** The popup text opens with the description paragraph, "N/A" when there is none. */
  lemma FormatStartsWithDescription(info: Json)
    requires FormatInfo(info).Ok?
    ensures info.JDict?
    ensures StartsWith(FormatInfo(info).value, DescriptionPara(GetOr(info.entries, "description", JStr("N/A"))))
  {
    var f := info.entries;
    var out := FormatInfo(info).value;
    var head := HeadText(f);
    match Get(f, "enum") {
      case None =>
        ConcatStartsWith(head, PatternText(f), HelpText(f));
      case Some(e) =>
        ConcatStartsWith(head + PatternText(f), EnumPara(EnumText(e).value), HelpText(f));
        ConcatStartsWith(head, PatternText(f), []);
        PrefixOfPrefix(out, head + PatternText(f), head);
    }
    ConcatStartsWith(DescriptionPara(GetOr(f, "description", JStr("N/A"))),
      TypeDefaultParas(GetOr(f, "type", JStr("string")), GetOr(f, "default", JStr("?"))), []);
    PrefixOfPrefix(out, head, DescriptionPara(GetOr(f, "description", JStr("N/A"))));
  }

  /** a begins a + b + c. */
  lemma ConcatStartsWith(a: string, b: string, c: string)
    ensures StartsWith(a + b + c, a) && StartsWith(a + b, a)
  {
    assert (a + b + c)[..|a|] == a;
    assert (a + b)[..|a|] == a;
  }

  lemma PrefixOfPrefix(s: string, t: string, u: string)
    requires StartsWith(s, t) && StartsWith(t, u)
    ensures StartsWith(s, u)
  {
    assert s[..|u|] == s[..|t|][..|u|];
  }

  /** Keys other than the six it reads do not change the popup text. */
  lemma FormatIgnoresOtherKeys(f: seq<(string, Json)>, key: string, v: Json)
    requires key != "type" && key != "default" && key != "description"
    requires key != "pattern" && key != "enum" && key != "help_text"
    ensures FormatInfo(JDict(f + [(key, v)])) == FormatInfo(JDict(f))
  {
    var g := f + [(key, v)];
    GetAppendOther(f, key, v, "type");
    GetAppendOther(f, key, v, "default");
    GetAppendOther(f, key, v, "description");
    GetAppendOther(f, key, v, "pattern");
    GetAppendOther(f, key, v, "enum");
    GetAppendOther(f, key, v, "help_text");
    assert HeadText(g) == HeadText(f);
  }

  /** Appending an entry under another key does not change a lookup. */
  lemma {:induction false} GetAppendOther(f: seq<(string, Json)>, key: string, v: Json, k: string)
    requires k != key
    ensures Get(f + [(key, v)], k) == Get(f, k)
  {
    if f == [] {
      assert [(key, v)][1..] == [];
    } else {
      GetAppendOther(f[1..], key, v, k);
      assert (f + [(key, v)])[1..] == f[1..] + [(key, v)];
    }
  }
}
