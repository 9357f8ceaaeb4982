/**
 * The values json.load gives the schema functions of params_completions.py:
 * None, booleans, integers, strings, lists and dicts (a dict as its entries in
 * file order), with the Python operations on them that those functions use:
 * d[key], d.get(key, default), `key in d`, d.values() and str(value).
 */
module JsonValues {
  import opened TextOps

  datatype Json =
    | JNull
    | JBool(b: bool)
    | JInt(n: int)
    | JStr(s: string)
    | JList(items: seq<Json>)
    | JDict(entries: seq<(string, Json)>)

  /** The Python exceptions these functions can raise. */
  datatype PyError = KeyError | TypeError | AttributeError

  datatype Result<T> = Ok(value: T) | Err(error: PyError)

  /** The value stored under key in a dict's entries (the first entry with that key). */
  function Get(entries: seq<(string, Json)>, key: string): (r: Option<Json>)
  {
    if entries == [] then None
    else if entries[0].0 == key then Some(entries[0].1)
    else Get(entries[1..], key)
  }

  /** A key is found exactly when some entry has it, and then with the value of the first such entry. */
  lemma {:induction false} GetFindsFirst(entries: seq<(string, Json)>, key: string)
    ensures Get(entries, key).None? <==> forall i :: 0 <= i < |entries| ==> entries[i].0 != key
    ensures Get(entries, key).Some? ==>
      exists i :: 0 <= i < |entries| && entries[i] == (key, Get(entries, key).value) &&
        forall j :: 0 <= j < i ==> entries[j].0 != key
  {
    if entries != [] && entries[0].0 != key {
      GetFindsFirst(entries[1..], key);
      if Get(entries, key).Some? {
        var i :| 0 <= i < |entries[1..]| && entries[1..][i] == (key, Get(entries, key).value) &&
          forall j :: 0 <= j < i ==> entries[1..][j].0 != key;
        assert entries[i + 1] == (key, Get(entries, key).value);
        forall j | 0 <= j < i + 1 ensures entries[j].0 != key {
          if j > 0 {
            assert entries[j] == entries[1..][j - 1];
          }
        }
      } else {
        forall i | 0 <= i < |entries| ensures entries[i].0 != key {
          if i > 0 {
            assert entries[i] == entries[1..][i - 1];
          }
        }
      }
    }
  }

  /** `key in d` for a dict d. */
  predicate HasKey(entries: seq<(string, Json)>, key: string) {
    Get(entries, key).Some?
  }

  /**
   * value[key]: a dict gives the stored value or raises KeyError; None, a
   * boolean, an integer, a string or a list cannot be indexed by a string and
   * raises TypeError.
   */
  function Index(value: Json, key: string): (r: Result<Json>)
    ensures r.Ok? <==> value.JDict? && HasKey(value.entries, key)
    ensures r == Err(KeyError) <==> value.JDict? && !HasKey(value.entries, key)
    ensures r.Ok? ==> Get(value.entries, key) == Some(r.value)
  {
    if !value.JDict? then Err(TypeError)
    else
      match Get(value.entries, key)
      case None => Err(KeyError)
      case Some(v) => Ok(v)
  }

  /** d.get(key, default) for a dict d. */
  function GetOr(entries: seq<(string, Json)>, key: string, default: Json): (r: Json)
    ensures HasKey(entries, key) ==> Get(entries, key) == Some(r)
    ensures !HasKey(entries, key) ==> r == default
  {
    match Get(entries, key)
    case None => default
    case Some(v) => v
  }

  /** d.values(), in entry order. */
  function Values(entries: seq<(string, Json)>): (vs: seq<Json>)
    ensures |vs| == |entries|
    ensures forall i :: 0 <= i < |entries| ==> vs[i] == entries[i].1
  {
    seq(|entries|, i requires 0 <= i < |entries| => entries[i].1)
  }

  /** The decimal digits of n. */
  function NatText(n: nat): string
  {
    if n < 10 then [(n as int + '0' as int) as char] else NatText(n / 10) + NatText(n % 10)
  }

  /** str(n) for an integer n. */
  function IntText(n: int): string
  {
    if n < 0 then "-" + NatText(-n) else NatText(n)
  }

  /** str(value): a string is itself; anything else is its repr. */
  function Show(value: Json): string
  {
    if value.JStr? then value.s else Repr(value)
  }

  /** repr(value); strings, dict keys included, as ReprStr writes them. */
  function Repr(value: Json): string
    decreases value, 1
  {
    match value
    case JNull => "None"
    case JBool(b) => if b then "True" else "False"
    case JInt(n) => IntText(n)
    case JStr(s) => ReprStr(s)
    case JList(items) => "[" + Join(ReprItems(value, items), ", ") + "]"
    case JDict(entries) => "{" + Join(ReprEntries(value, entries), ", ") + "}"
  }

  function ReprItems(value: Json, items: seq<Json>): (r: seq<string>)
    requires value.JList? && items == value.items
    decreases value, 0
  {
    seq(|items|, i requires 0 <= i < |items| => Repr(items[i]))
  }

  function ReprEntries(value: Json, entries: seq<(string, Json)>): (r: seq<string>)
    requires value.JDict? && entries == value.entries
    decreases value, 0
  {
    seq(|entries|, i requires 0 <= i < |entries| => ReprStr(entries[i].0) + ": " + Repr(entries[i].1))
  }

  /** The quote repr(s) uses: a double quote when s holds a single quote and no double quote, a single quote otherwise. */
  function QuoteFor(s: string): (q: char)
    ensures q == '"' <==> '\'' in s && '"' !in s
    ensures q == '"' || q == '\''
  {
    if '\'' in s && '"' !in s then '"' else '\''
  }

  /** The lower-case hexadecimal digit of n. */
  function HexDigit(n: nat): char
    requires n < 16
  {
    "0123456789abcdef"[n]
  }

  /** The value of a lower-case hexadecimal digit, or None. */
  function HexValue(c: char): (r: Option<nat>)
    ensures r.Some? ==> r.value < 16
  {
    if '0' <= c <= '9' then Some(c as int - '0' as int)
    else if 'a' <= c <= 'f' then Some(c as int - 'a' as int + 10)
    else None
  }

  lemma HexDigitValue(n: nat)
    requires n < 16
    ensures HexValue(HexDigit(n)) == Some(n)
  {
  }

  /**
   * The Latin-1 characters repr writes as `\xNN`: the C0 controls other than
   * tab, line feed and carriage return, DEL, the C1 controls, the no-break
   * space and the soft hyphen.
   */
  predicate HexEscaped(c: char) {
    && c != '\t' && c != '\n' && c != '\r'
    && (c as int < 0x20 || 0x7f <= c as int <= 0xa0 || c as int == 0xad)
  }

  /** How repr writes one character of a string quoted by q. */
  function EscapeChar(c: char, q: char): (t: string)
    ensures 0 < |t|
    ensures t[0] == '\\' || t == [c]
  {
    if c == q || c == '\\' then ['\\', c]
    else if c == '\t' then "\\t"
    else if c == '\n' then "\\n"
    else if c == '\r' then "\\r"
    else if HexEscaped(c) then ['\\', 'x', HexDigit(c as int / 16), HexDigit(c as int % 16)]
    else [c]
  }

  /** How repr writes the characters of a string quoted by q, in order. */
  function EscapeAll(s: string, q: char): string
  {
    if s == [] then [] else EscapeChar(s[0], q) + EscapeAll(s[1..], q)
  }

  /** repr(s) for a string s. */
  function ReprStr(s: string): (t: string)
    ensures 2 <= |t| && t[0] == t[|t| - 1] == QuoteFor(s)
  {
    [QuoteFor(s)] + EscapeAll(s, QuoteFor(s)) + [QuoteFor(s)]
  }

  /** Reading back the characters between the quotes of a repr: each escape gives the character it stands for. */
  function Unescape(t: string): string
  {
    if t == [] then []
    else if t[0] == '\\' && 2 <= |t| && t[1] == 't' then ['\t'] + Unescape(t[2..])
    else if t[0] == '\\' && 2 <= |t| && t[1] == 'n' then ['\n'] + Unescape(t[2..])
    else if t[0] == '\\' && 2 <= |t| && t[1] == 'r' then ['\r'] + Unescape(t[2..])
    else if t[0] == '\\' && 4 <= |t| && t[1] == 'x' && HexValue(t[2]).Some? && HexValue(t[3]).Some? then
      [(HexValue(t[2]).value * 16 + HexValue(t[3]).value) as char] + Unescape(t[4..])
    else if t[0] == '\\' && 2 <= |t| then [t[1]] + Unescape(t[2..])
    else [t[0]] + Unescape(t[1..])
  }

  /** One escaped character reads back as itself, whatever follows it. */
  lemma UnescapeChar(c: char, q: char, rest: string)
    requires q == '\'' || q == '"'
    ensures Unescape(EscapeChar(c, q) + rest) == [c] + Unescape(rest)
  {
    var t := EscapeChar(c, q) + rest;
    if c == q || c == '\\' {
      assert t[2..] == rest;
    } else if c == '\t' || c == '\n' || c == '\r' {
      assert t[2..] == rest;
    } else if HexEscaped(c) {
      HexDigitValue(c as int / 16);
      HexDigitValue(c as int % 16);
      assert t[4..] == rest;
    } else {
      assert t[1..] == rest;
    }
  }

  /** The text between the quotes of repr(s) reads back as s: repr loses nothing. */
  lemma {:induction false} ReprStrRoundTrip(s: string, q: char)
    requires q == '\'' || q == '"'
    ensures Unescape(EscapeAll(s, q)) == s
  {
    if s != [] {
      ReprStrRoundTrip(s[1..], q);
      UnescapeChar(s[0], q, EscapeAll(s[1..], q));
      assert [s[0]] + s[1..] == s;
    }
  }

  /** The quote of repr(s) never appears inside it unescaped: every occurrence follows a backslash. */
  lemma {:induction false} EscapedQuote(s: string, q: char)
    requires q == '\'' || q == '"'
    ensures forall k :: 0 <= k < |EscapeAll(s, q)| && EscapeAll(s, q)[k] == q ==> 0 < k && EscapeAll(s, q)[k - 1] == '\\'
  {
    if s != [] {
      EscapedQuote(s[1..], q);
      var head, tail := EscapeChar(s[0], q), EscapeAll(s[1..], q);
      var t := head + tail;
      forall k | 0 <= k < |t| && t[k] == q ensures 0 < k && t[k - 1] == '\\' {
        if k < |head| {
          assert head[k] == q;
        } else {
          assert tail[k - |head|] == q;
          if k - |head| > 0 {
            assert t[k - 1] == tail[k - |head| - 1];
          } else {
            assert false;
          }
        }
      }
    }
  }

  /**
   * A string of printable ASCII without a double quote or a backslash is
   * written as it is: between double quotes when it holds a single quote,
   * between single quotes otherwise.
   */
  lemma ReprStrPlain(s: string)
    requires forall k :: 0 <= k < |s| ==> 0x20 <= s[k] as int < 0x7f && s[k] != '"' && s[k] != '\\'
    ensures ReprStr(s) == if '\'' in s then "\"" + s + "\"" else "'" + s + "'"
  {
    var q := QuoteFor(s);
    forall k | 0 <= k < |s| ensures s[k] != q {
      if q == '\'' {
        assert s[k] in s;
      }
    }
    PlainEscapes(s, q);
  }

  lemma {:induction false} PlainEscapes(s: string, q: char)
    requires forall k :: 0 <= k < |s| ==> 0x20 <= s[k] as int < 0x7f && s[k] != q && s[k] != '\\'
    ensures EscapeAll(s, q) == s
  {
    if s != [] {
      PlainEscapes(s[1..], q);
      assert [s[0]] + s[1..] == s;
    }
  }
}
