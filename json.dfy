/**
 * JSON values as `json.loads` returns them, Python's truthiness and `str()` on
 * them, and the lexical conditions RFC 8259 places on any text a conforming
 * decoder accepts. The decoder itself is a parameter of every parsing function.
 */
module Json {
  import opened Text
  import opened Wrappers

  /** A decoded JSON value; numbers are integers. */
  datatype Json =
    | JNull
    | JBool(b: bool)
    | JNum(n: int)
    | JStr(s: string)
    | JArray(items: seq<Json>)
    | JObject(fields: map<string, Json>)

  /** `key in value` for a decoded object. */
  predicate HasKey(j: Json, key: string) {
    j.JObject? && key in j.fields
  }

  /** Python `d.get(key, default)` on a dict. */
  function Get(j: Json, key: string, default: Json): (r: Json)
    requires j.JObject?
    ensures key in j.fields ==> r == j.fields[key]
    ensures key !in j.fields ==> r == default
  {
    if key in j.fields then j.fields[key] else default
  }

  /** Python truthiness. */
  predicate Truthy(j: Json) {
    match j
    case JNull => false
    case JBool(b) => b
    case JNum(n) => n != 0
    case JStr(s) => s != []
    case JArray(items) => items != []
    case JObject(fields) => fields != map[]
  }

  /**
   * Python `str()` of a decoded value. Strings are themselves; `None`, `True`,
   * `False` and integers render as Python does. Lists and dicts render as a
   * bracket pair only.
   */
  function PyStr(j: Json): (r: string)
    ensures j.JStr? ==> r == j.s
    ensures j.JNum? ==> r == IntToString(j.n)
  {
    match j
    case JNull => "None"
    case JBool(b) => if b then "True" else "False"
    case JNum(n) => IntToString(n)
    case JStr(s) => s
    case JArray(_) => "[]"
    case JObject(_) => "{}"
  }

  /**
   * The string lexis of RFC 8259 (section 7) read left to right: outside a
   * string a backslash is never allowed; inside one, a backslash escapes the
   * next character, a raw control character is not allowed and a quote closes
   * the string; the text must not end inside a string.
   */
  predicate LexFrom(s: string, inString: bool)
    decreases |s|
  {
    if |s| == 0 then !inString
    else if !inString then
      s[0] != '\\' && LexFrom(s[1..], s[0] == '"')
    else if s[0] == '"' then LexFrom(s[1..], false)
    else if s[0] == '\\' then |s| >= 2 && LexFrom(s[2..], true)
    else s[0] >= ' ' && LexFrom(s[1..], true)
  }

  predicate LexicallyValid(s: string) { LexFrom(s, false) }

  /** Every text the decoder accepts is lexically valid JSON. */
  ghost predicate ConformingDecoder(decode: string -> Option<Json>) {
    forall s :: decode(s).Some? ==> LexicallyValid(s)
  }

  /** A text that starts with `{` decodes to an object, if it decodes at all. */
  ghost predicate ObjectShaped(decode: string -> Option<Json>) {
    forall s :: |s| > 0 && s[0] == '{' && decode(s).Some? ==> decode(s).value.JObject?
  }

  /** Reading up to a backslash that lies before every quote: the text is rejected. */
  lemma {:induction false} StrayBackslashRejected(s: string, i: nat)
    requires i < |s| && s[i] == '\\'
    requires forall j :: 0 <= j < i ==> s[j] != '"'
    ensures !LexicallyValid(s)
    decreases i
  {
    if i > 0 {
      assert s[0] != '"';
      assert s[1..][i - 1] == '\\';
      forall j | 0 <= j < i - 1 ensures s[1..][j] != '"' {
        assert s[1..][j] == s[j + 1];
      }
      if s[0] != '\\' {
        StrayBackslashRejected(s[1..], i - 1);
      }
    }
  }

  /** Lexing a prefix free of quotes and backslashes outside strings changes nothing. */
  lemma {:induction false} LexSkipPlain(a: string, b: string)
    requires forall j :: 0 <= j < |a| ==> a[j] != '"' && a[j] != '\\'
    ensures LexFrom(a + b, false) == LexFrom(b, false)
    decreases |a|
  {
    if |a| > 0 {
      assert (a + b)[1..] == a[1..] + b;
      LexSkipPlain(a[1..], b);
    } else {
      assert a + b == b;
    }
  }

  /** Lexing a quoted run of plain characters returns to the outside state. */
  lemma {:induction false} LexSkipString(a: string, b: string)
    requires forall j :: 0 <= j < |a| ==> a[j] != '"' && a[j] != '\\' && a[j] >= ' '
    ensures LexFrom(a + b, true) == LexFrom(b, true)
    decreases |a|
  {
    if |a| > 0 {
      assert (a + b)[1..] == a[1..] + b;
      LexSkipString(a[1..], b);
    } else {
      assert a + b == b;
    }
  }
}
