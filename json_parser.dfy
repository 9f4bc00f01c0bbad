/**
 * `extract_question_data` (core/json_parser.py): turns one model response into
 * a question record. The text is stripped, unfenced, trimmed to its outer
 * braces and patched by the keyword-fragment rewrites; a braced result is
 * decoded, and a `question` that is itself a braced object is decoded again.
 */
module JsonParser {
  import opened Text
  import opened Json
  import opened Wrappers
  import opened Fences

  /** The record `extract_question_data` returns; `raw_response` is always the input and is not kept. */
  datatype Extraction =
    | Extracted(question: Json, expectedAnswer: Json, parseError: bool)  // success=True
    | ExtractFailed                                                    // success=False

  // ---------------------------------------------------------------------------
  // The keyword-fragment rewrites: `re.sub` with one of five patterns.

  /** The JSON escape text `\n\nAnahtar kelimeler:` that every fragment pattern looks for. */
  const Keyword: string := "\\n\\nAnahtar kelimeler:"

  const AnswerKey: string := "\"expected_answer\":"

  /**
   * `("expected_answer":\s*"[^"]*"),\s*"(KW[^"]*)"(\s*\})` with replacement `\1\2"\3`
   * (`keepQuote`) or, with the closing quote of the answer left out, `…\2"\3`.
   */
  datatype Fragment =
    | AnswerFragment(keepQuote: bool)
    | CommaFragment                    // `",\s*"(KW[^"]*)"` → `\1"`
    | LineFragment(breaks: nat)        // `",\s*\n\s*"(KW[^"]*)"` (1) or `",\s*\n\s*\n\s*"(KW[^"]*)"` (2) → `\1"`

  /** The index of the first quote at or after `i`, or `|s|`. */
  function NextQuote(s: string, i: nat): (j: nat)
    requires i <= |s|
    ensures i <= j <= |s|
    ensures forall k :: i <= k < j ==> s[k] != '"'
    ensures j == |s| || s[j] == '"'
    decreases |s| - i
  {
    if i == |s| || s[i] == '"' then i else NextQuote(s, i + 1)
  }

  /** `"(KW[^"]*)"` at `k`: the index of its closing quote. */
  function KeywordString(s: string, k: nat): (r: Option<nat>)
    requires k <= |s|
    ensures r.Some? ==> k + 1 + |Keyword| <= r.value < |s| && s[k] == '"' && s[r.value] == '"'
    ensures r.Some? ==> OccursAt(s, Keyword, k + 1)
  {
    if k < |s| && s[k] == '"' && OccursAt(s, Keyword, k + 1) then
      var j := NextQuote(s, k + 1 + |Keyword|);
      if j < |s| then Some(j) else None
    else None
  }

  /** A match at the start of the text: its length and its replacement. */
  datatype Rewrite = Rewrite(len: nat, out: string)

  /** Pattern 1 at index 0: `"expected_answer":` and the whitespace after it. */
  function MatchAnswerFragment(s: string, keepQuote: bool): (r: Option<Rewrite>)
    ensures r.Some? ==> 0 < r.value.len <= |s|
  {
    if !OccursAt(s, AnswerKey, 0) then None else AnswerString(s, SkipSpace(s, |AnswerKey|), keepQuote)
  }

  /** The answer string `"[^"]*"`, opening at `a`. */
  function AnswerString(s: string, a: nat, keepQuote: bool): (r: Option<Rewrite>)
    requires a <= |s|
    ensures r.Some? ==> 0 < r.value.len <= |s|
  {
    if a == |s| || s[a] != '"' then None else AfterAnswer(s, NextQuote(s, a + 1), keepQuote)
  }

  /** `,\s*` and the fragment string after the answer's closing quote at `b`. */
  function AfterAnswer(s: string, b: nat, keepQuote: bool): (r: Option<Rewrite>)
    requires b <= |s|
    ensures r.Some? ==> 0 < r.value.len <= |s|
  {
    if b + 1 >= |s| || s[b + 1] != ',' then None
    else
      var k := SkipSpace(s, b + 2);
      match KeywordString(s, k)
      case None => None
      case Some(j) => ClosingBrace(s, b, k, j, keepQuote)
  }

  /** `\s*\}` after the fragment's closing quote at `j`, and the replacement `\1\2"\3`. */
  function ClosingBrace(s: string, b: nat, k: nat, j: nat, keepQuote: bool): (r: Option<Rewrite>)
    requires b < k < j < |s|
    ensures r.Some? ==> 0 < r.value.len <= |s|
  {
    var c := SkipSpace(s, j + 1);
    if c == |s| || s[c] != '}' then None
    else Some(Rewrite(c + 1, s[..if keepQuote then b + 1 else b] + (s[k + 1..j] + ("\"" + s[j + 1..c + 1]))))
  }

  /** `",\s*"(KW[^"]*)"` at index 0, where the whitespace holds at least `breaks` newlines. */
  function MatchCommaFragment(s: string, breaks: nat): (r: Option<Rewrite>)
    ensures r.Some? ==> 0 < r.value.len <= |s|
  {
    if |s| < 2 || s[0] != '"' || s[1] != ',' then None
    else
      var k := SkipSpace(s, 2);
      if Count(s[2..k], '\n') < breaks then None
      else match KeywordString(s, k)
        case None => None
        case Some(j) => Some(Rewrite(j + 1, s[k + 1..j] + "\""))
  }

  /** The match of `pat` at index 0 of `s`, if any (no pattern leaves a backtracking choice). */
  function MatchFragment(s: string, pat: Fragment): (r: Option<Rewrite>)
    ensures r.Some? ==> 0 < r.value.len <= |s|
  {
    match pat
    case AnswerFragment(keepQuote) => MatchAnswerFragment(s, keepQuote)
    case CommaFragment => MatchCommaFragment(s, 0)
    case LineFragment(breaks) => MatchCommaFragment(s, breaks)
  }

  /** `re.sub(pat, repl, s)`: every non-overlapping match, left to right, is replaced. */
  function SubAll(s: string, pat: Fragment): string
    decreases |s|
  {
    if |s| == 0 then []
    else match MatchFragment(s, pat)
      case Some(m) => m.out + SubAll(s[m.len..], pat)
      case None => [s[0]] + SubAll(s[1..], pat)
  }

  /**
   * Pattern 1 in its corrected form, which merges the keyword fragment into the
   * answer string (`Pattern1MergesIntoAnswer`); the source's replacement, which
   * keeps the answer's closing quote, is `AnswerFragment(true)`.
   */
  const Pattern1 := AnswerFragment(false)
  const Pattern2 := CommaFragment
  const Pattern4 := LineFragment(1)
  const Pattern5 := LineFragment(2)

  // ---------------------------------------------------------------------------
  // The cleaning pipeline.

  predicate Braced(s: string) { StartsWith(s, "{") && EndsWith(s, "}") }

  /** `re.search(r'```json\s*(\{.*?\})\s*```', s, re.DOTALL)`: its stripped group, or `s` when nothing matches. */
  function UnfenceObject(s: string): string
  {
    match Search(s, JsonObjectFence)
    case Some(g) => Strip(g)
    case None => s
  }

  /**
   * Fence handling on the stripped response. The source's second branch,
   * `startswith('```json')`, is left out: such a text contains the fence and
   * takes the first branch (`LeadingJsonFenceTakesRegexBranch`).
   */
  function StripFences(s: string): string
  {
    if Contains(s, "```json") && Contains(s, "```") then UnfenceObject(s)
    else if StartsWith(s, "```") then Strip(ReplaceAll(s, "```", ""))
    else if StartsWith(s, "json (") then Strip(ReplaceFirst(s, "json (", "{"))
    else if StartsWith(s, "\"json (") then Strip(ReplaceFirst(s, "\"json (", "{"))
    else s
  }

  /** Drops what precedes the first `{` and what follows the last `}`. */
  function TrimToBraces(s: string): (r: string)
  {
    var i := Find(s, "{");
    var t := if !StartsWith(s, "{") && i != -1 then s[i..] else s;
    var j := RFind(t, "}");
    if !EndsWith(t, "}") && j != -1 then t[..j + 1] else t
  }

  /** Patterns 1 and 2, the unconditional `""` → `"` replacement, then patterns 4 and 5. */
  function MergeFragments(s: string): string
  {
    SubAll(SubAll(ReplaceAll(SubAll(SubAll(s, Pattern1), Pattern2), "\"\"", "\""), Pattern4), Pattern5)
  }

  /** `cleaned_text` at the point of the decode. */
  function CleanText(text: string): string
  {
    MergeFragments(TrimToBraces(StripFences(Strip(text))))
  }

  /** The nested question text: stripped, and replaced by its fenced `{…}` block when there is one. */
  function UnfenceQuestion(q: string): string
  {
    var t := Strip(q);
    if Contains(t, "```json") then UnfenceObject(t) else t
  }

  /** The two rewrites applied to a nested question before its decode. */
  function NestedClean(q: string): string
  {
    SubAll(SubAll(q, Pattern4), Pattern2)
  }

  /**
   * The nested-`question` step: a string question that is a braced object after
   * unfencing is decoded again; its `question` overrides and its
   * `expected_answer` fills an empty one. When that decode fails (or yields a
   * non-object, whose `.get` raises) the unfenced text is kept.
   */
  function ResolveNested(decode: string -> Option<Json>, question: Json, answer: Json): (r: (Json, Json))
    ensures !question.JStr? ==> r == (question, answer)
    ensures Truthy(answer) ==> r.1 == answer
  {
    if !question.JStr? then (question, answer)
    else
      var q := UnfenceQuestion(question.s);
      if !Braced(q) then (JStr(q), answer)
      else match decode(NestedClean(q))
        case Some(JObject(m)) =>
          var n := JObject(m);
          (Get(n, "question", JStr(q)), if Truthy(answer) then answer else Get(n, "expected_answer", JStr("")))
        case _ => (JStr(q), answer)
  }

  /** `extract_question_data(text)` with `json.loads` as `decode`. */
  function Extract(decode: string -> Option<Json>, text: string): (r: Extraction)
    ensures !Braced(CleanText(text)) ==> r == Extracted(JStr(CleanText(text)), JStr(""), false)
    ensures Braced(CleanText(text)) && decode(CleanText(text)).None?
            ==> r == Extracted(JStr(Strip(text)), JStr(""), true)
    ensures r.ExtractFailed? <==> Braced(CleanText(text)) && decode(CleanText(text)).Some? && !decode(CleanText(text)).value.JObject?
    ensures r.Extracted? && r.parseError ==> r.question == JStr(Strip(text))
  {
    var c := CleanText(text);
    if !Braced(c) then Extracted(JStr(c), JStr(""), false)
    else match decode(c)
      case None => Extracted(JStr(Strip(text)), JStr(""), true)
      case Some(v) =>
        if !v.JObject? then ExtractFailed
        else
          var (q, a) := ResolveNested(decode, Get(v, "question", JStr(c)), Get(v, "expected_answer", JStr("")));
          Extracted(q, a, false)
  }

  // ---------------------------------------------------------------------------
  // Properties.

  lemma StripKeepsBraced(g: string)
    requires |g| >= 2 && g[0] == '{' && g[|g| - 1] == '}'
    ensures Strip(g) == g
  {
    assert LeadingRun(g, IsSpace) == 0;
    assert TrailingRun(g, IsSpace) == |g|;
    assert g[0..] == g;
  }

  /** The unfenced block, when there is one, is a braced object. */
  lemma UnfenceObjectBraced(s: string)
    ensures UnfenceObject(s) == s || (|UnfenceObject(s)| >= 2 && UnfenceObject(s)[0] == '{' && UnfenceObject(s)[|UnfenceObject(s)| - 1] == '}')
  {
    match Search(s, JsonObjectFence)
    case Some(g) => StripKeepsBraced(g);
    case None =>
  }

  lemma FenceImpliesTicks(s: string)
    requires Contains(s, "```json")
    ensures Contains(s, "```")
  {
    var i := Find(s, "```json");
    assert s[i..i + 3] == s[i..i + 7][..3];
    assert OccursAt(s, "```", i);
    ContainsIff(s, "```", i);
  }

  lemma StartsWithContains(s: string, p: string)
    requires StartsWith(s, p)
    ensures Contains(s, p)
  {
    assert OccursAt(s, p, 0);
    ContainsIff(s, p, 0);
  }

  /**
   * A response containing a `json` fence anywhere is unfenced by the regex, or
   * kept as it is when the regex finds no object block; the other branches are
   * skipped, and the source's `startswith('```json')` branch can never run.
   */
  lemma JsonFenceTakesRegexBranch(s: string)
    requires Contains(s, "```json")
    ensures StripFences(s) == UnfenceObject(s)
    ensures StripFences(s) == s || Braced(StripFences(s))
  {
    FenceImpliesTicks(s);
    UnfencedIsBraced(s);
  }

  lemma UnfencedIsBraced(s: string)
    ensures UnfenceObject(s) == s || Braced(UnfenceObject(s))
  {
    UnfenceObjectBraced(s);
    var r := UnfenceObject(s);
    if r != s {
      BracedByChars(r);
    }
  }

  lemma BracedByChars(r: string)
    requires |r| >= 2 && r[0] == '{' && r[|r| - 1] == '}'
    ensures Braced(r)
  {
    assert r[..1] == [r[0]];
    assert r[|r| - 1..] == [r[|r| - 1]];
  }

  lemma LeadingJsonFenceTakesRegexBranch(s: string)
    requires StartsWith(s, "```json")
    ensures StripFences(s) == UnfenceObject(s)
  {
    StartsWithContains(s, "```json");
    JsonFenceTakesRegexBranch(s);
  }

  /** A text without fences or `json (` prefixes passes the fence step unchanged. */
  lemma UnfencedTextUnchanged(s: string)
    requires !Contains(s, "```json") && !StartsWith(s, "```") && !StartsWith(s, "json (") && !StartsWith(s, "\"json (")
    ensures StripFences(s) == s
  {
  }

  /** When a `{` comes before the last `}`, trimming leaves exactly the span from the first `{` to the last `}`. */
  lemma TrimToBracesIsOuterSpan(s: string)
    requires Find(s, "{") != -1 && Find(s, "{") <= RFind(s, "}")
    ensures TrimToBraces(s) == s[Find(s, "{")..RFind(s, "}") + 1]
  {
    var i := Find(s, "{");
    var j := RFind(s, "}");
    var t := if !StartsWith(s, "{") && i != -1 then s[i..] else s;
    if StartsWith(s, "{") {
      assert OccursAt(s, "{", 0);
    }
    assert t == s[i..];
    RFindInSuffix(s, i);
    if EndsWith(t, "}") {
      assert OccursAt(t, "}", |t| - 1);
      assert t[..j - i + 1] == t;
    }
  }

  /** The last `}` of a suffix that holds the last `}` of the text is that same brace. */
  lemma RFindInSuffix(s: string, i: nat)
    requires i <= RFind(s, "}")
    ensures RFind(s[i..], "}") == RFind(s, "}") - i
  {
    var j := RFind(s, "}");
    var t := s[i..];
    assert OccursAt(t, "}", j - i) by {
      assert t[j - i..j - i + 1] == s[j..j + 1];
    }
    forall k | j - i < k ensures !OccursAt(t, "}", k) {
      if OccursAt(t, "}", k) {
        assert t[k..k + 1] == s[k + i..k + i + 1];
        assert OccursAt(s, "}", k + i);
      }
    }
  }

  /** A braced text is left alone by trimming. */
  lemma TrimToBracesKeepsBraced(s: string)
    requires Braced(s)
    ensures TrimToBraces(s) == s
  {
  }

  /** Text without a backslash contains no keyword fragment, so a fragment rewrite leaves it unchanged. */
  lemma {:induction false} SubAllWithoutBackslash(s: string, pat: Fragment)
    requires forall i :: 0 <= i < |s| ==> s[i] != '\\'
    ensures SubAll(s, pat) == s
    decreases |s|
  {
    if |s| > 0 {
      NoKeywordNoMatch(s, pat);
      SubAllWithoutBackslash(s[1..], pat);
      assert s == [s[0]] + s[1..];
    }
  }

  lemma NoKeywordNoMatch(s: string, pat: Fragment)
    requires forall i :: 0 <= i < |s| ==> s[i] != '\\'
    ensures MatchFragment(s, pat).None?
  {
    forall k: nat | k <= |s| ensures KeywordString(s, k).None? {
      if KeywordString(s, k).Some? {
        OccursAtHead(s, Keyword, k + 1);
        assert false;
      }
    }
  }

  lemma OccursAtHead(s: string, p: string, i: nat)
    requires |p| > 0 && OccursAt(s, p, i)
    ensures s[i] == p[0]
  {
    assert s[i..i + |p|][0] == s[i];
  }

  /** `SkipSpace` stops at the end of a whitespace run. */
  lemma SkipSpaceOver(s: string, i: nat, n: nat)
    requires i + n <= |s|
    requires forall k :: i <= k < i + n ==> IsSpace(s[k])
    requires i + n == |s| || !IsSpace(s[i + n])
    ensures SkipSpace(s, i) == i + n
  {
  }

  /** `NextQuote` stops at the first quote. */
  lemma NextQuoteOver(s: string, i: nat, n: nat)
    requires i + n < |s| && s[i + n] == '"'
    requires forall k :: i <= k < i + n ==> s[k] != '"'
    ensures NextQuote(s, i) == i + n
  {
  }

  /** Characters that may stand inside a JSON string or outside one without changing the lexical state. */
  predicate PlainText(w: string) {
    forall k :: 0 <= k < |w| ==> w[k] != '"' && w[k] != '\\' && w[k] >= ' '
  }

  predicate SpacesBetween(s: string, i: nat, j: nat)
    requires i <= j <= |s|
  {
    forall k :: i <= k < j ==> IsSpace(s[k])
  }

  predicate QuoteFreeBetween(s: string, i: nat, j: nat)
    requires i <= j <= |s|
  {
    forall k :: i <= k < j ==> s[k] != '"'
  }

  /**
   * `s` opens with `"expected_answer":`, whitespace, the answer string
   * `s[a..b + 1]`, a comma, whitespace, the fragment string `s[k..j + 1]`,
   * whitespace and `}` at `c`.
   */
  predicate AnswerFragmentAt(s: string, a: nat, b: nat, k: nat, j: nat, c: nat) {
    |AnswerKey| <= a < b && b + 2 <= k && k + 1 + |Keyword| <= j < c < |s|
    && OccursAt(s, AnswerKey, 0) && SpacesBetween(s, |AnswerKey|, a)
    && s[a] == '"' && QuoteFreeBetween(s, a + 1, b) && s[b] == '"' && s[b + 1] == ','
    && SpacesBetween(s, b + 2, k) && s[k] == '"' && OccursAt(s, Keyword, k + 1)
    && QuoteFreeBetween(s, k + 1 + |Keyword|, j) && s[j] == '"'
    && SpacesBetween(s, j + 1, c) && s[c] == '}'
  }

  /** Pattern 1 matches such a text and rewrites it as `\1\2"\3` (or, without the answer's closing quote, `…\2"\3`). */
  lemma AnswerFragmentMatches(s: string, a: nat, b: nat, k: nat, j: nat, c: nat, keepQuote: bool)
    requires AnswerFragmentAt(s, a, b, k, j, c)
    ensures MatchFragment(s, AnswerFragment(keepQuote))
            == Some(Rewrite(c + 1, s[..if keepQuote then b + 1 else b] + (s[k + 1..j] + ("\"" + s[j + 1..c + 1]))))
  {
    AnswerKeyStep(s, a, keepQuote);
    AnswerStringStep(s, a, b, keepQuote);
    AfterAnswerStep(s, b, k, j, keepQuote);
    ClosingBraceStep(s, b, k, j, c, keepQuote);
  }

  lemma AnswerKeyStep(s: string, a: nat, keepQuote: bool)
    requires |AnswerKey| <= a < |s| && OccursAt(s, AnswerKey, 0) && SpacesBetween(s, |AnswerKey|, a) && s[a] == '"'
    ensures MatchAnswerFragment(s, keepQuote) == AnswerString(s, a, keepQuote)
  {
    SkipSpaceOver(s, |AnswerKey|, a - |AnswerKey|);
  }

  lemma AnswerStringStep(s: string, a: nat, b: nat, keepQuote: bool)
    requires a < b < |s| && s[a] == '"' && QuoteFreeBetween(s, a + 1, b) && s[b] == '"'
    ensures AnswerString(s, a, keepQuote) == AfterAnswer(s, b, keepQuote)
  {
    NextQuoteOver(s, a + 1, b - a - 1);
    assert NextQuote(s, a + 1) == b;
  }

  lemma AfterAnswerStep(s: string, b: nat, k: nat, j: nat, keepQuote: bool)
    requires b + 2 <= k && k + 1 + |Keyword| <= j < |s|
    requires s[b + 1] == ',' && SpacesBetween(s, b + 2, k) && s[k] == '"' && OccursAt(s, Keyword, k + 1)
    requires QuoteFreeBetween(s, k + 1 + |Keyword|, j) && s[j] == '"'
    ensures AfterAnswer(s, b, keepQuote) == ClosingBrace(s, b, k, j, keepQuote)
  {
    SkipSpaceOver(s, b + 2, k - b - 2);
    KeywordStringStep(s, k, j);
  }

  lemma KeywordStringStep(s: string, k: nat, j: nat)
    requires k + 1 + |Keyword| <= j < |s| && s[k] == '"' && OccursAt(s, Keyword, k + 1)
    requires QuoteFreeBetween(s, k + 1 + |Keyword|, j) && s[j] == '"'
    ensures KeywordString(s, k) == Some(j)
  {
    NextQuoteOver(s, k + 1 + |Keyword|, j - k - 1 - |Keyword|);
  }

  lemma ClosingBraceStep(s: string, b: nat, k: nat, j: nat, c: nat, keepQuote: bool)
    requires b < k < j < c < |s| && SpacesBetween(s, j + 1, c) && s[c] == '}'
    ensures ClosingBrace(s, b, k, j, keepQuote)
            == Some(Rewrite(c + 1, s[..if keepQuote then b + 1 else b] + (s[k + 1..j] + ("\"" + s[j + 1..c + 1]))))
  {
    SkipSpaceOver(s, j + 1, c - j - 1);
  }

  lemma {:induction false} LexOverKeyword(y: string)
    ensures LexFrom(Keyword + y, true) == LexFrom(y, true)
  {
    var t := "Anahtar kelimeler:";
    var e := "\\n";
    assert Keyword == e + (e + t);
    Assoc(e, e + t, y);
    Assoc(e, t, y);
    LexOverEscape(e + (t + y));
    LexOverEscape(t + y);
    LexSkipString(t, y);
  }

  /** An escape sequence `\n` inside a string leaves the lexer inside it. */
  lemma LexOverEscape(y: string)
    ensures LexFrom("\\n" + y, true) == LexFrom(y, true)
  {
    assert ("\\n" + y)[2..] == y;
  }

  lemma {:induction false} LexOverAnswerKey(y: string)
    ensures LexFrom(AnswerKey + y, false) == LexFrom(y, false)
  {
    var t := "expected_answer";
    assert AnswerKey + y == "\"" + (t + ("\"" + (":" + y)));
    LexSkipString(t, "\"" + (":" + y));
    LexSkipPlain(":", y);
  }

  /** Whitespace outside strings leaves the lexical state alone. */
  lemma LexOverSpaces(ws: string, y: string)
    requires forall k :: 0 <= k < |ws| ==> IsSpace(ws[k])
    ensures LexFrom(ws + y, false) == LexFrom(y, false)
  {
    LexSkipPlain(ws, y);
  }

  /** The key, the whitespace and the opening quote of the answer: after them the lexer is inside the answer string. */
  lemma LexIntoAnswer(s: string, a: nat, y: string)
    requires |AnswerKey| <= a < |s| && OccursAt(s, AnswerKey, 0) && SpacesBetween(s, |AnswerKey|, a) && s[a] == '"'
    ensures LexFrom(s[..a + 1] + y, false) == LexFrom(y, true)
  {
    var ws := s[|AnswerKey|..a];
    assert s[..a + 1] + y == AnswerKey + (ws + ("\"" + y));
    LexOverAnswerKey(ws + ("\"" + y));
    LexOverSpaces(ws, "\"" + y);
    assert ("\"" + y)[1..] == y;
  }

  /**
   * Pattern 1 as written keeps the answer's closing quote, so the keyword's
   * first backslash stands outside any string: whatever follows, the rewritten
   * text is not JSON, and a conforming decoder rejects the response.
   */
  lemma Pattern1AsWrittenBreaksJson(s: string, a: nat, b: nat, k: nat, j: nat, c: nat, rest: string)
    requires AnswerFragmentAt(s, a, b, k, j, c) && PlainText(s[a + 1..b])
    ensures var m := MatchFragment(s, AnswerFragment(true));
            m.Some? && !LexFrom(m.value.out + rest, false)
  {
    AnswerFragmentMatches(s, a, b, k, j, c, true);
    var tail := AsWrittenShape(s, a, b, k, j, c, rest);
    var body := s[a + 1..b];
    LexIntoAnswer(s, a, body + ("\"" + tail));
    LexSkipString(body, "\"" + tail);
    assert ("\"" + tail)[1..] == tail;
  }

  /** The text pattern 1 as written leaves: the key, the answer string closed, then the keyword's backslash. */
  lemma AsWrittenShape(s: string, a: nat, b: nat, k: nat, j: nat, c: nat, rest: string) returns (tail: string)
    requires AnswerFragmentAt(s, a, b, k, j, c)
    ensures |tail| > 0 && tail[0] == '\\'
    ensures (s[..b + 1] + (s[k + 1..j] + ("\"" + s[j + 1..c + 1]))) + rest == s[..a + 1] + (s[a + 1..b] + ("\"" + tail))
  {
    var head, body, frag := s[..a + 1], s[a + 1..b], s[k + 1..j];
    var t := frag + ("\"" + s[j + 1..c + 1]);
    tail := t + rest;
    SplitBefore(s, a, b, '"');
    Assoc(s[..b + 1], t, rest);
    Assoc(head, body + "\"", tail);
    Assoc(body, "\"", tail);
    OccursAtHead(s, Keyword, k + 1);
    assert tail[0] == frag[0] == s[k + 1];
  }

  /**
   * Pattern 1 without the answer's closing quote: the fragment continues the
   * answer string, and the rewritten member lexes as one complete key-value
   * pair whatever follows it.
   */
  lemma Pattern1MergesIntoAnswer(s: string, a: nat, b: nat, k: nat, j: nat, c: nat, rest: string)
    requires AnswerFragmentAt(s, a, b, k, j, c) && PlainText(s[a + 1..b]) && PlainText(s[k + 1 + |Keyword|..j])
    ensures var m := MatchFragment(s, Pattern1);
            m.Some? && m.value.out == s[..b] + (s[k + 1..j] + ("\"" + s[j + 1..c + 1]))
            && LexFrom(m.value.out + rest, false) == LexFrom(rest, false)
  {
    AnswerFragmentMatches(s, a, b, k, j, c, false);
    var body, w, ws3 := s[a + 1..b], s[k + 1 + |Keyword|..j], s[j + 1..c];
    var close := ws3 + ("}" + rest);
    MergedShape(s, a, b, k, j, c, rest);
    LexIntoAnswer(s, a, body + (Keyword + (w + ("\"" + close))));
    LexSkipString(body, Keyword + (w + ("\"" + close)));
    LexOverKeyword(w + ("\"" + close));
    LexSkipString(w, "\"" + close);
    assert ("\"" + close)[1..] == close;
    LexOverSpaces(ws3, "}" + rest);
    LexSkipPlain("}", rest);
  }

  /** The shape of Pattern 1's corrected rewrite, followed by `rest`, as nested pieces. */
  lemma MergedShape(s: string, a: nat, b: nat, k: nat, j: nat, c: nat, rest: string)
    requires a < b < k && k + 1 + |Keyword| <= j < c < |s| && OccursAt(s, Keyword, k + 1) && s[c] == '}'
    ensures (s[..b] + (s[k + 1..j] + ("\"" + s[j + 1..c + 1]))) + rest
            == s[..a + 1] + (s[a + 1..b] + (Keyword + (s[k + 1 + |Keyword|..j] + ("\"" + (s[j + 1..c] + ("}" + rest))))))
  {
    var head, body, frag := s[..a + 1], s[a + 1..b], s[k + 1..j];
    var w := s[k + 1 + |Keyword|..j];
    var ws3, brace := s[j + 1..c], s[j + 1..c + 1];
    var close := ws3 + ("}" + rest);
    var q := "\"" + brace;
    // the closing run: `"`, the spaces, `}`, then whatever follows
    SliceLast(s, j + 1, c + 1);
    assert brace == ws3 + "}";
    Assoc(ws3, "}", rest);
    assert brace + rest == close;
    Assoc("\"", brace, rest);
    assert q + rest == "\"" + close;
    // the fragment: the keyword, the continuation text, the closing run
    OccursAtSlice(s, Keyword, k + 1);
    assert frag == Keyword + w;
    Assoc(frag, q, rest);
    Assoc(Keyword, w, q + rest);
    assert (frag + q) + rest == Keyword + (w + ("\"" + close));
    // the answer text before it
    SliceSplit(s, a + 1, b);
    assert s[..b] == head + body;
    Assoc(s[..b], frag + q, rest);
    Assoc(head, body, (frag + q) + rest);
  }

  /** The last character of a non-empty slice splits off. */
  lemma SliceLast(s: string, i: nat, j: nat)
    requires i < j <= |s|
    ensures s[i..j] == s[i..j - 1] + [s[j - 1]]
  {
  }

  lemma Assoc(x: string, y: string, z: string)
    ensures (x + y) + z == x + (y + z)
  {
  }

  /** A prefix ending in `ch` at `b` splits at `a`. */
  lemma SplitBefore(s: string, a: nat, b: nat, ch: char)
    requires a < b < |s| && s[b] == ch
    ensures s[..b + 1] == s[..a + 1] + (s[a + 1..b] + [ch])
  {
  }

  lemma SliceSplit(s: string, i: nat, j: nat)
    requires i <= j <= |s|
    ensures s[..j] == s[..i] + s[i..j]
  {
  }

  lemma OccursAtSlice(s: string, p: string, i: nat)
    requires OccursAt(s, p, i)
    ensures forall j :: i + |p| <= j <= |s| ==> s[i..j] == p + s[i + |p|..j]
  {
  }

  /** Pattern 2 turns `", "KW w"` into `KW w"`: the fragment continues the string that precedes it. */
  lemma CommaFragmentMerges(s: string, k: nat, j: nat)
    requires 2 <= k && k + 1 + |Keyword| <= j < |s|
    requires s[0] == '"' && s[1] == ',' && SpacesBetween(s, 2, k) && s[k] == '"'
    requires OccursAt(s, Keyword, k + 1) && QuoteFreeBetween(s, k + 1 + |Keyword|, j) && s[j] == '"'
    ensures MatchFragment(s, Pattern2) == Some(Rewrite(j + 1, s[k + 1..j] + "\""))
  {
    SkipSpaceOver(s, 2, k - 2);
    KeywordStringStep(s, k, j);
  }

  /**
   * The `""` replacement turns the empty value of `{"x": ""}`, for any one-letter
   * key `x`, into an unterminated string...
   */
  lemma EmptyAnswerLosesQuote(x: char)
    requires x != '"'
    ensures ReplaceAll(['{', '"', x, '"', ':', ' ', '"', '"', '}'], "\"\"", "\"")
            == ['{', '"', x, '"', ':', ' ', '"', '}']
  {
    var p, q := "\"\"", "\"";
    var pre, y := ['{', '"', x, '"', ':', ' '], ['"', '"', '}'];
    var t := pre + y;
    assert t == ['{', '"', x, '"', ':', ' ', '"', '"', '}'];
    forall i | 0 <= i < |pre| ensures !OccursAt(t, p, i) {
      assert t[i..i + 2][0] == t[i] && t[i..i + 2][1] == t[i + 1];
    }
    ReplaceAllKeepsPrefix(pre, y, p, q);
    ReplaceAllHits(['}'], p, q);
    ReplaceAllSkips('}', [], p, q);
    assert y == p + ['}'];
  }

  /** ...which no conforming decoder accepts. */
  lemma UnterminatedAnswerRejected(x: char)
    requires x != '"' && x != '\\'
    ensures !LexicallyValid(['{', '"', x, '"', ':', ' ', '"', '}'])
  {
    var t := ['{', '"', x, '"', ':', ' ', '"', '}'];
    assert !LexFrom(t[7..], true) by { assert t[7..][1..] == []; }
    assert !LexFrom(t[6..], false) by { assert t[6..][1..] == t[7..]; }
    assert !LexFrom(t[5..], false) by { assert t[5..][1..] == t[6..]; }
    assert !LexFrom(t[4..], false) by { assert t[4..][1..] == t[5..]; }
    assert !LexFrom(t[3..], true) by { assert t[3..][1..] == t[4..]; }
    assert !LexFrom(t[2..], true) by { assert t[2..][1..] == t[3..]; }
    assert !LexFrom(t[1..], false) by { assert t[1..][1..] == t[2..]; }
    assert t[1..] == t[0..][1..];
  }

  /**
   * With a decoder that only accepts JSON, a response whose cleaned text is a
   * braced but malformed object falls back to the stripped response.
   */
  lemma MalformedObjectFallsBack(decode: string -> Option<Json>, text: string)
    requires ConformingDecoder(decode)
    requires Braced(CleanText(text)) && !LexicallyValid(CleanText(text))
    ensures Extract(decode, text) == Extracted(JStr(Strip(text)), JStr(""), true)
  {
  }

  /**
   * The plain success path: a cleaned text decoding to an object whose
   * `question` is a string that is not itself a braced object gives that
   * string, unfenced and stripped, with the object's `expected_answer` (empty
   * when absent) and no parse error.
   */
  lemma ExtractPlainSuccess(decode: string -> Option<Json>, text: string, m: map<string, Json>, q: string)
    requires Braced(CleanText(text)) && decode(CleanText(text)) == Some(JObject(m))
    requires "question" in m && m["question"] == JStr(q) && !Braced(UnfenceQuestion(q))
    ensures Extract(decode, text) == Extracted(JStr(UnfenceQuestion(q)), Get(JObject(m), "expected_answer", JStr("")), false)
  {
  }

  /** A `question` that is not a string is passed through unchanged, with the object's answer. */
  lemma ExtractKeepsNonStringQuestion(decode: string -> Option<Json>, text: string, m: map<string, Json>)
    requires Braced(CleanText(text)) && decode(CleanText(text)) == Some(JObject(m))
    requires "question" in m && !m["question"].JStr?
    ensures Extract(decode, text) == Extracted(m["question"], Get(JObject(m), "expected_answer", JStr("")), false)
  {
  }

  /** When `{`-texts decode to objects, every response yields a record. */
  lemma ExtractAlwaysSucceeds(decode: string -> Option<Json>, text: string)
    requires ObjectShaped(decode)
    ensures Extract(decode, text).Extracted?
  {
    var c := CleanText(text);
    if Braced(c) {
      assert c[..1] == "{";
    }
  }

  /** Without `question` and `expected_answer` keys the record holds the cleaned text and an empty answer. */
  lemma MissingKeysKeepCleanedText(decode: string -> Option<Json>, text: string, m: map<string, Json>)
    requires var c := CleanText(text);
             Braced(c) && decode(c) == Some(JObject(m)) && !Contains(c, "```json")
             && forall i :: 0 <= i < |c| ==> c[i] != '\\'
    requires "question" !in m && "expected_answer" !in m
    ensures Extract(decode, text) == Extracted(JStr(CleanText(text)), JStr(""), false)
  {
    var c := CleanText(text);
    BracedUnfencedIsKept(c);
    NestedCleanWithoutBackslash(c);
    assert ResolveNested(decode, JStr(c), JStr("")) == (JStr(c), JStr(""));
  }

  /** A braced text without a json fence is its own unfenced question. */
  lemma BracedUnfencedIsKept(c: string)
    requires Braced(c) && !Contains(c, "```json")
    ensures UnfenceQuestion(c) == c
  {
    assert c[0] == c[..1][0] == '{';
    assert c[|c| - 1] == c[|c| - 1..][0] == '}';
    StripKeepsBraced(c);
    var t := Strip(c);
    assert t == c;
    assert !Contains(t, "```json");
  }

  /** Neither nested rewrite can match a text without a backslash. */
  lemma NestedCleanWithoutBackslash(c: string)
    requires forall i :: 0 <= i < |c| ==> c[i] != '\\'
    ensures NestedClean(c) == c
  {
    SubAllWithoutBackslash(c, Pattern4);
    SubAllWithoutBackslash(c, Pattern2);
  }

  /**
   * A string question that is a braced object decoding to an object with a
   * `question` key is replaced by that key's value; the nested
   * `expected_answer` is used only when the outer one is empty.
   */
  lemma NestedQuestionOverrides(decode: string -> Option<Json>, q: string, answer: Json, n: map<string, Json>)
    requires Braced(UnfenceQuestion(q)) && decode(NestedClean(UnfenceQuestion(q))) == Some(JObject(n))
    requires "question" in n
    ensures ResolveNested(decode, JStr(q), answer).0 == n["question"]
    ensures ResolveNested(decode, JStr(q), answer).1
            == if Truthy(answer) then answer else if "expected_answer" in n then n["expected_answer"] else JStr("")
  {
  }

  /** When the nested decode fails the unfenced, stripped question is kept with the outer answer. */
  lemma NestedFailureKeepsQuestion(decode: string -> Option<Json>, q: string, answer: Json)
    requires Braced(UnfenceQuestion(q)) && decode(NestedClean(UnfenceQuestion(q))).None?
    ensures ResolveNested(decode, JStr(q), answer) == (JStr(UnfenceQuestion(q)), answer)
  {
  }
}
