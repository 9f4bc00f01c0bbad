/**
 * The response side of `QuestionGenerator` (core/question_generator.py): the
 * four array-parsing strategies and their cascade, the nested and fallback
 * parsers of the batch chain, the per-category parser of a single request,
 * the chunk arithmetic of the chunked generator and the bookkeeping of the
 * category-based and per-role generators. The model's replies are inputs;
 * `json.loads` is the parameter `decode`.
 */
module QuestionGenerator {
  import opened Text
  import opened Json
  import opened Wrappers
  import opened Tables
  import opened Fences
  import JsonRepair
  import JsonParser
  import QuestionCategories
  import RubricSystem

  // ---------------------------------------------------------------------------
  // Parsed records.

  /** A parsed question: `{"success": True, "question": …, "expected_answer": …}`, with the `parse_error` flag of a fallback record. */
  datatype Record = Record(question: Json, expectedAnswer: Json, parseError: bool)

  /** An element `_format_questions_array` keeps: a dict with a `question` key. */
  predicate IsQuestionObject(item: Json) {
    item.JObject? && "question" in item.fields
  }

  /** The record made of a kept element: both fields through `str()`, a missing answer as `""`. */
  function Formatted(item: Json): (r: Record)
    requires IsQuestionObject(item)
    ensures r.question == JStr(PyStr(item.fields["question"])) && !r.parseError
    ensures "expected_answer" !in item.fields ==> r.expectedAnswer == JStr("")
    ensures "expected_answer" in item.fields ==> r.expectedAnswer == JStr(PyStr(item.fields["expected_answer"]))
  {
    Record(JStr(PyStr(item.fields["question"])), JStr(PyStr(Get(item, "expected_answer", JStr("")))), false)
  }

  /** `_format_questions_array` as a specification: the kept elements of `items`, formatted. */
  function FormatQuestions(items: seq<Json>): (r: seq<Record>)
    ensures |r| <= |items|
  {
    if |items| == 0 then []
    else
      var last := items[|items| - 1];
      FormatQuestions(items[..|items| - 1]) + (if IsQuestionObject(last) then [Formatted(last)] else [])
  }

  /** `_format_questions_array`: the append loop. */
  method FormatQuestionsArray(data: seq<Json>) returns (result: seq<Record>)
    ensures result == FormatQuestions(data)
  {
    result := [];
    var i := 0;
    while i < |data|
      invariant 0 <= i <= |data|
      invariant result == FormatQuestions(data[..i])
    {
      assert data[..i + 1][..i] == data[..i];
      if IsQuestionObject(data[i]) {
        result := result + [Formatted(data[i])];
      }
      i := i + 1;
    }
    assert data[..i] == data;
  }

  /**
   * The records are exactly the question objects of the input, in input order:
   * `idx` lists their positions, strictly increasing, and misses none.
   */
  lemma {:induction false} FormatQuestionsSelects(items: seq<Json>) returns (idx: seq<nat>)
    ensures |idx| == |FormatQuestions(items)|
    ensures forall k :: 0 <= k < |idx| ==>
              idx[k] < |items| && IsQuestionObject(items[idx[k]]) && FormatQuestions(items)[k] == Formatted(items[idx[k]])
    ensures forall k, l :: 0 <= k < l < |idx| ==> idx[k] < idx[l]
    ensures forall i :: 0 <= i < |items| && IsQuestionObject(items[i]) ==> i in idx
  {
    idx := Positions(items, IsQuestionObject);
    PositionsPick(items);
    PositionsIncrease(items, IsQuestionObject);
    PositionsComplete(items, IsQuestionObject);
  }

  /** The positions of the elements of `items` satisfying `p`, in order. */
  ghost function Positions(items: seq<Json>, p: Json -> bool): (idx: seq<nat>)
  {
    if |items| == 0 then []
    else Positions(items[..|items| - 1], p) + (if p(items[|items| - 1]) then [|items| - 1] else [])
  }

  lemma {:induction false} PositionsPick(items: seq<Json>)
    ensures |Positions(items, IsQuestionObject)| == |FormatQuestions(items)|
    ensures forall k :: 0 <= k < |Positions(items, IsQuestionObject)| ==>
              Positions(items, IsQuestionObject)[k] < |items| && IsQuestionObject(items[Positions(items, IsQuestionObject)[k]])
              && FormatQuestions(items)[k] == Formatted(items[Positions(items, IsQuestionObject)[k]])
  {
    if |items| > 0 {
      var n := |items| - 1;
      var init := items[..n];
      PositionsPick(init);
      var prev := Positions(init, IsQuestionObject);
      var idx := Positions(items, IsQuestionObject);
      forall k | 0 <= k < |prev|
        ensures idx[k] == prev[k] < |items| && IsQuestionObject(items[idx[k]])
                && FormatQuestions(items)[k] == FormatQuestions(init)[k] == Formatted(items[idx[k]])
      {
        assert init[prev[k]] == items[prev[k]];
      }
    }
  }

  lemma {:induction false} PositionsIncrease(items: seq<Json>, p: Json -> bool)
    ensures forall k :: 0 <= k < |Positions(items, p)| ==> Positions(items, p)[k] < |items|
    ensures forall k, l :: 0 <= k < l < |Positions(items, p)| ==> Positions(items, p)[k] < Positions(items, p)[l]
  {
    if |items| > 0 {
      PositionsIncrease(items[..|items| - 1], p);
    }
  }

  lemma {:induction false} PositionsComplete(items: seq<Json>, p: Json -> bool)
    ensures forall i :: 0 <= i < |items| && p(items[i]) ==> i in Positions(items, p)
  {
    if |items| > 0 {
      var n := |items| - 1;
      var init := items[..n];
      PositionsComplete(init, p);
      forall i | 0 <= i < n && p(items[i]) ensures i in Positions(items, p) {
        assert init[i] == items[i];
      }
    }
  }

  // ---------------------------------------------------------------------------
  // The four strategies of `_parse_questions_array_robust`.

  /** Strategy 1, `_try_direct_json_array`: the stripped text, when it is bracketed and decodes to a list. */
  function DirectArray(decode: string -> Option<Json>, text: string): (r: seq<Record>)
    ensures var c := Strip(text);
            r != [] ==> StartsWith(c, "[") && EndsWith(c, "]") && decode(c).Some? && decode(c).value.JArray?
    ensures var c := Strip(text);
            StartsWith(c, "[") && EndsWith(c, "]") && decode(c).Some? && decode(c).value.JArray?
            ==> r == FormatQuestions(decode(c).value.items)
  {
    var c := Strip(text);
    if StartsWith(c, "[") && EndsWith(c, "]") then
      match decode(c)
      case Some(JArray(items)) => FormatQuestions(items)
      case _ => []
    else []
  }

  /** The three patterns of strategy 2, in the order they are tried. */
  const ArrayPatterns: seq<FencePattern> := [JsonArrayFence, BareArrayFence, JsonArrayLabel]

  /**
   * The pattern loop of strategy 2 from a given pattern on: a pattern that does
   * not match passes to the next; a match whose stripped group fails to decode
   * ends the strategy with nothing; one that decodes to a list is formatted;
   * one that decodes to anything else passes to the next pattern.
   */
  function FencedFrom(decode: string -> Option<Json>, text: string, pats: seq<FencePattern>): seq<Record>
    decreases |pats|
  {
    if |pats| == 0 then []
    else match Search(text, pats[0])
      case None => FencedFrom(decode, text, pats[1..])
      case Some(g) =>
        match decode(Strip(g))
        case None => []
        case Some(JArray(items)) => FormatQuestions(items)
        case Some(_) => FencedFrom(decode, text, pats[1..])
  }

  /** Strategy 2, `_try_markdown_cleanup_parse`. */
  function MarkdownCleanup(decode: string -> Option<Json>, text: string): seq<Record>
  {
    FencedFrom(decode, text, ArrayPatterns)
  }

  /** Patterns that do not match are skipped. */
  lemma {:induction false} FencedFromSkipsUnmatched(decode: string -> Option<Json>, text: string, pats: seq<FencePattern>, k: nat)
    requires k <= |pats|
    requires forall j :: 0 <= j < k ==> Search(text, pats[j]).None?
    ensures FencedFrom(decode, text, pats) == FencedFrom(decode, text, pats[k..])
    decreases k
  {
    if k > 0 {
      assert Search(text, pats[0]).None?;
      forall j | 0 <= j < k - 1 ensures Search(text, pats[1..][j]).None? {
        assert pats[1..][j] == pats[j + 1];
      }
      FencedFromSkipsUnmatched(decode, text, pats[1..], k - 1);
      assert pats[1..][k - 1..] == pats[k..];
    }
  }

  /**
   * The first pattern that matches decides: a failed decode of its group gives
   * no records without trying the later patterns, a list gives its records,
   * and only a decoded non-list passes on; no match at all gives no records.
   */
  lemma FirstMatchingPatternDecides(decode: string -> Option<Json>, text: string, k: nat)
    requires k <= 3
    requires forall j :: 0 <= j < k ==> Search(text, ArrayPatterns[j]).None?
    ensures k == 3 ==> MarkdownCleanup(decode, text) == []
    ensures k < 3 && Search(text, ArrayPatterns[k]).Some? ==>
              var d := decode(Strip(Search(text, ArrayPatterns[k]).value));
              (d.None? ==> MarkdownCleanup(decode, text) == [])
              && (d.Some? && d.value.JArray? ==> MarkdownCleanup(decode, text) == FormatQuestions(d.value.items))
              && (d.Some? && !d.value.JArray? ==> MarkdownCleanup(decode, text) == FencedFrom(decode, text, ArrayPatterns[k + 1..]))
  {
    FencedFromSkipsUnmatched(decode, text, ArrayPatterns, k);
    if k < 3 {
      assert ArrayPatterns[k..][1..] == ArrayPatterns[k + 1..];
    }
  }

  /** Strategy 3, `_try_regex_extract_parse`: the span from the first `[` to the last `]`, repaired and decoded. */
  function BracketSpan(decode: string -> Option<Json>, text: string): (r: seq<Record>)
    ensures r != [] ==> 0 <= Find(text, "[") < RFind(text, "]")
  {
    var start := Find(text, "[");
    var end := RFind(text, "]");
    if start != -1 && end != -1 && start < end then
      match decode(JsonRepair.FixCommonJsonErrors(text[start..end + 1]))
      case Some(JArray(items)) => FormatQuestions(items)
      case _ => []
    else []
  }

  /**
   * With a decoder that accepts only JSON, strategy 3 gives nothing for a span
   * whose first string is a key such as `"question"`: the repair escapes its
   * opening quote.
   */
  lemma BracketSpanRejectsKeyedObjects(decode: string -> Option<Json>, text: string, i: nat)
    requires ConformingDecoder(decode)
    requires var start := Find(text, "[");
             var end := RFind(text, "]");
             0 <= start < end && JsonRepair.WordQuoteAt(text[start..end + 1], i)
    ensures BracketSpan(decode, text) == []
  {
    var start := Find(text, "[");
    var end := RFind(text, "]");
    JsonRepair.FixBreaksWordQuote(text[start..end + 1], i);
  }

  /** The bracket span of a question text, repaired and decoded to a list. */
  function QuestionSpan(decode: string -> Option<Json>, q: string): seq<Record>
  {
    var start := Find(q, "[");
    var end := RFind(q, "]");
    if start == -1 || end == -1 then []
    else match decode(JsonRepair.FixCommonJsonErrors(Slice(q, start as nat, (end + 1) as nat)))
      case Some(JArray(items)) => FormatQuestions(items)
      case _ => []
  }

  /** The question text of a successful extraction when it is a string holding both brackets. */
  predicate BracketedQuestion(e: JsonParser.Extraction) {
    e.Extracted? && e.question.JStr? && Contains(e.question.s, "[") && Contains(e.question.s, "]")
  }

  /**
   * Strategy 4, `_try_nested_json_robust`: the single-object extraction, then
   * the bracket span of its question. A question that is not a string never
   * yields records (the membership test or `find` raises, or fails).
   */
  function NestedRobust(decode: string -> Option<Json>, text: string): (r: seq<Record>)
    ensures r != [] ==> BracketedQuestion(JsonParser.Extract(decode, text))
  {
    var e := JsonParser.Extract(decode, text);
    if BracketedQuestion(e) then QuestionSpan(decode, e.question.s) else []
  }

  /** A span whose first string is a key decodes to nothing after the repair. */
  lemma QuestionSpanRejectsKeyedObjects(decode: string -> Option<Json>, q: string, i: nat)
    requires ConformingDecoder(decode)
    requires var start := Find(q, "[");
             var end := RFind(q, "]");
             0 <= start <= end && JsonRepair.WordQuoteAt(q[start..end + 1], i)
    ensures QuestionSpan(decode, q) == []
  {
    var start := Find(q, "[");
    var end := RFind(q, "]");
    assert Slice(q, start as nat, (end + 1) as nat) == q[start..end + 1];
    JsonRepair.FixBreaksWordQuote(q[start..end + 1], i);
  }

  /** The four strategies, in the order the robust parser tries them. */
  function Strategies(decode: string -> Option<Json>, text: string): seq<seq<Record>>
  {
    [DirectArray(decode, text), MarkdownCleanup(decode, text), BracketSpan(decode, text), NestedRobust(decode, text)]
  }

  /** The reference definition of a cascade: the first non-empty list, or `[]`. */
  function FirstNonEmpty(rs: seq<seq<Record>>): (r: seq<Record>)
    ensures r == [] <==> forall k :: 0 <= k < |rs| ==> rs[k] == []
    ensures r != [] ==> exists k :: 0 <= k < |rs| && r == rs[k] && forall j :: 0 <= j < k ==> rs[j] == []
  {
    if |rs| == 0 then []
    else if rs[0] != [] then rs[0]
    else
      var r := FirstNonEmpty(rs[1..]);
      assert forall k :: 1 <= k < |rs| ==> rs[k] == rs[1..][k - 1];
      r
  }

  /** `_parse_questions_array_robust`: strategy by strategy, returning the first non-empty result. */
  function ParseQuestionsArrayRobust(decode: string -> Option<Json>, text: string): seq<Record>
  {
    var direct := DirectArray(decode, text);
    if direct != [] then direct
    else
      var fenced := MarkdownCleanup(decode, text);
      if fenced != [] then fenced
      else
        var span := BracketSpan(decode, text);
        if span != [] then span
        else NestedRobust(decode, text)
  }

  /** A cascade of four lists, written out. */
  lemma FirstNonEmptyOfFour(a: seq<Record>, b: seq<Record>, c: seq<Record>, d: seq<Record>)
    ensures FirstNonEmpty([a, b, c, d]) == if a != [] then a else if b != [] then b else if c != [] then c else d
  {
    assert [d][1..] == [];
    assert FirstNonEmpty([d]) == d;
    assert [c, d][1..] == [d];
    assert FirstNonEmpty([c, d]) == if c != [] then c else d;
    assert [b, c, d][1..] == [c, d];
    assert FirstNonEmpty([b, c, d]) == if b != [] then b else if c != [] then c else d;
    assert [a, b, c, d][1..] == [b, c, d];
  }

  /** The robust parser is the cascade of the four strategies. */
  lemma RobustIsFirstNonEmpty(decode: string -> Option<Json>, text: string)
    ensures ParseQuestionsArrayRobust(decode, text) == FirstNonEmpty(Strategies(decode, text))
  {
    FirstNonEmptyOfFour(DirectArray(decode, text), MarkdownCleanup(decode, text), BracketSpan(decode, text), NestedRobust(decode, text));
  }

  /** Every strategy failed when the robust parser returns nothing. */
  lemma RobustEmpty(decode: string -> Option<Json>, text: string)
    requires ParseQuestionsArrayRobust(decode, text) == []
    ensures NestedRobust(decode, text) == []
  {
  }

  // ---------------------------------------------------------------------------
  // The fallback chain of `generate_questions_batch`.

  /**
   * `_try_parse_nested_json`: like strategy 4, except that a question holding
   * a ```` ```json ```` fence is first narrowed to the fenced array.
   */
  function TryParseNestedJson(decode: string -> Option<Json>, text: string): (r: seq<Record>)
    ensures r != [] ==> BracketedQuestion(JsonParser.Extract(decode, text))
  {
    var e := JsonParser.Extract(decode, text);
    if !BracketedQuestion(e) then []
    else
      var q := e.question.s;
      var c := if Contains(q, "```json") then (match Search(q, JsonArrayFence) case Some(g) => Strip(g) case None => q) else q;
      QuestionSpan(decode, c)
  }

  /** Without a fence in the extracted question, the nested retry is strategy 4 again. */
  lemma NestedRetryIsStrategyFour(decode: string -> Option<Json>, text: string)
    requires var e := JsonParser.Extract(decode, text);
             !(BracketedQuestion(e) && Contains(e.question.s, "```json"))
    ensures TryParseNestedJson(decode, text) == NestedRobust(decode, text)
  {
  }

  /** `_fallback_parse`: the single extraction record, when the extraction succeeds. */
  function FallbackParse(decode: string -> Option<Json>, text: string): (r: seq<Record>)
    ensures |r| <= 1
    ensures r != [] <==> JsonParser.Extract(decode, text).Extracted?
    ensures r != [] ==> var e := JsonParser.Extract(decode, text);
                        r[0] == Record(e.question, e.expectedAnswer, e.parseError)
  {
    match JsonParser.Extract(decode, text)
    case Extracted(q, a, pe) => [Record(q, a, pe)]
    case ExtractFailed => []
  }

  /** The chain: the robust parser, the nested retry on a non-blank text, then the fallback. */
  function ParseBatchResponse(decode: string -> Option<Json>, text: string): seq<Record>
  {
    var robust := ParseQuestionsArrayRobust(decode, text);
    var nested := if robust == [] && Strip(text) != [] then TryParseNestedJson(decode, text) else robust;
    if nested == [] then FallbackParse(decode, text) else nested
  }

  /**
   * The chain keeps a non-empty robust result; the nested retry can add
   * records only for a fenced question; otherwise it ends with the fallback.
   */
  lemma BatchChainOrder(decode: string -> Option<Json>, text: string)
    ensures var robust := ParseQuestionsArrayRobust(decode, text);
            robust != [] ==> ParseBatchResponse(decode, text) == robust
    ensures var robust := ParseQuestionsArrayRobust(decode, text);
            var e := JsonParser.Extract(decode, text);
            robust == [] && !(BracketedQuestion(e) && Contains(e.question.s, "```json"))
            ==> ParseBatchResponse(decode, text) == FallbackParse(decode, text)
  {
    var robust := ParseQuestionsArrayRobust(decode, text);
    var e := JsonParser.Extract(decode, text);
    if robust == [] && !(BracketedQuestion(e) && Contains(e.question.s, "```json")) {
      RobustEmpty(decode, text);
      NestedRetryIsStrategyFour(decode, text);
    }
  }

  /** When `{`-texts decode to objects, the chain always yields at least one record. */
  lemma BatchChainNeverEmpty(decode: string -> Option<Json>, text: string)
    requires ObjectShaped(decode)
    ensures ParseBatchResponse(decode, text) != []
  {
    JsonParser.ExtractAlwaysSucceeds(decode, text);
  }

  // ---------------------------------------------------------------------------
  // Questions with their metadata.

  /** A question record with the metadata the generators attach to it. */
  datatype Question = Question(question: Json, expectedAnswer: Json, parseError: bool,
                               questionType: string, typeName: string, role: string,
                               salaryCoefficient: int, distribution: RubricSystem.Distribution)

  /** The `category_map` of `_get_category_name`. */
  const CategoryNames: seq<(string, string)> := [
    ("professional_experience", "Mesleki Deneyim Soruları"),
    ("theoretical_knowledge", "Teorik Bilgi Soruları"),
    ("practical_application", "Pratik Uygulama Soruları")
  ]

  /** `_get_category_name`: the mapped name, or the code itself when it is not mapped. */
  function CategoryName(code: string): (r: string)
    ensures code !in Codes(CategoryNames) ==> r == code
    ensures code in Codes(CategoryNames) ==> (code, r) in CategoryNames
  {
    match Lookup(CategoryNames, code)
    case Some(name) => name
    case None => code
  }

  /** The name map agrees with the category table: a category's name is the table's name for it. */
  lemma CategoryNamesAgreeWithTable(i: nat)
    requires i < |QuestionCategories.QuestionCategoryTable|
    ensures CategoryName(QuestionCategories.QuestionCategoryTable[i].0) == QuestionCategories.QuestionCategoryTable[i].1.name
  {
    LookupFindsEntry(CategoryNames, i);
  }

  // ---------------------------------------------------------------------------
  // `_parse_all_questions`: one reply holding every category.

  /** The fence handling of `_parse_all_questions`: a ```` ```json ```` fenced object, or a leading fence removed. */
  function UnfenceReply(s: string): string
  {
    if Contains(s, "```json") then JsonParser.UnfenceObject(s)
    else if StartsWith(s, "```") then Strip(ReplaceAll(s, "```", ""))
    else s
  }

  /** The record of one dict element of a category list; the role fields are filled in later. */
  function PendingQuestion(code: string, item: Json): Question
    requires item.JObject?
  {
    Question(Get(item, "question", JStr("")), Get(item, "expected_answer", JStr("")), false,
             code, CategoryName(code), "", 0, [])
  }

  /** The records of a category list: one per dict element, in order, tagged with the category. */
  function CategoryQuestions(code: string, items: seq<Json>): (r: seq<Question>)
    ensures |r| <= |items|
    ensures forall k :: 0 <= k < |r| ==> r[k].questionType == code && r[k].typeName == CategoryName(code)
  {
    if |items| == 0 then []
    else
      var last := items[|items| - 1];
      CategoryQuestions(code, items[..|items| - 1]) + (if last.JObject? then [PendingQuestion(code, last)] else [])
  }

  /** A dict element of a category list. */
  predicate IsDict(j: Json) { j.JObject? }

  /**
   * The records of a category list are exactly its dict elements, in list
   * order: `idx` lists their positions, strictly increasing, and misses none.
   */
  lemma {:induction false} CategoryQuestionsSelects(code: string, items: seq<Json>) returns (idx: seq<nat>)
    ensures |idx| == |CategoryQuestions(code, items)|
    ensures forall k :: 0 <= k < |idx| ==>
              idx[k] < |items| && items[idx[k]].JObject?
              && CategoryQuestions(code, items)[k] == PendingQuestion(code, items[idx[k]])
    ensures forall k, l :: 0 <= k < l < |idx| ==> idx[k] < idx[l]
    ensures forall i :: 0 <= i < |items| && items[i].JObject? ==> i in idx
  {
    idx := Positions(items, IsDict);
    CategoryPick(code, items);
    PositionsIncrease(items, IsDict);
    PositionsComplete(items, IsDict);
  }

  lemma {:induction false} CategoryPick(code: string, items: seq<Json>)
    ensures |Positions(items, IsDict)| == |CategoryQuestions(code, items)|
    ensures forall k :: 0 <= k < |Positions(items, IsDict)| ==>
              Positions(items, IsDict)[k] < |items| && items[Positions(items, IsDict)[k]].JObject?
              && CategoryQuestions(code, items)[k] == PendingQuestion(code, items[Positions(items, IsDict)[k]])
  {
    if |items| > 0 {
      var n := |items| - 1;
      var init := items[..n];
      CategoryPick(code, init);
      var prev := Positions(init, IsDict);
      var idx := Positions(items, IsDict);
      forall k | 0 <= k < |prev|
        ensures idx[k] == prev[k] < |items| && items[idx[k]].JObject?
                && CategoryQuestions(code, items)[k] == CategoryQuestions(code, init)[k] == PendingQuestion(code, items[idx[k]])
      {
        assert init[prev[k]] == items[prev[k]];
      }
    }
  }

  /** The entry for one requested category: its list's records, or `[]` when it is absent or not a list. */
  function CategoryEntry(m: map<string, Json>, code: string): seq<Question>
  {
    if code in m && m[code].JArray? then CategoryQuestions(code, m[code].items) else []
  }

  /** The keys a dict built over `codes` has. */
  function KeySet(codes: seq<string>): (r: set<string>)
    ensures forall c :: c in r <==> c in codes
  {
    set c | c in codes
  }

  /** The result dict built over the requested categories. */
  function AllQuestions(m: map<string, Json>, codes: seq<string>): (r: map<string, seq<Question>>)
    ensures r.Keys == KeySet(codes)
    ensures forall c :: c in codes ==> r[c] == CategoryEntry(m, c)
  {
    if |codes| == 0 then map[]
    else AllQuestions(m, codes[..|codes| - 1])[codes[|codes| - 1] := CategoryEntry(m, codes[|codes| - 1])]
  }

  /** `_parse_all_questions` with the keys of `question_counts` as `codes`. */
  function ParseAll(decode: string -> Option<Json>, text: string, codes: seq<string>): (r: map<string, seq<Question>>)
    ensures r != map[] ==> r.Keys == KeySet(codes)
  {
    match decode(JsonParser.TrimToBraces(UnfenceReply(Strip(text))))
    case Some(JObject(m)) => AllQuestions(m, codes)
    case _ => map[]
  }

  /**
   * A reply that decodes to an object gives exactly one entry per requested
   * category: absent and non-list categories get `[]`, and a list keeps its
   * dict elements only. Any other reply gives `{}`.
   */
  lemma ParseAllShape(decode: string -> Option<Json>, text: string, codes: seq<string>)
    ensures var d := decode(JsonParser.TrimToBraces(UnfenceReply(Strip(text))));
            !(d.Some? && d.value.JObject?) ==> ParseAll(decode, text, codes) == map[]
    ensures var d := decode(JsonParser.TrimToBraces(UnfenceReply(Strip(text))));
            d.Some? && d.value.JObject? ==>
              var r := ParseAll(decode, text, codes);
              r.Keys == KeySet(codes)
              && forall c :: c in codes ==>
                   (c !in d.value.fields || !d.value.fields[c].JArray? ==> r[c] == [])
                   && (c in d.value.fields && d.value.fields[c].JArray? ==> |r[c]| <= |d.value.fields[c].items|)
                   && (c in d.value.fields && d.value.fields[c].JArray? ==> r[c] == CategoryQuestions(c, d.value.fields[c].items))
  {
    var d := decode(JsonParser.TrimToBraces(UnfenceReply(Strip(text))));
    if d.Some? && d.value.JObject? {
      var m := d.value.fields;
      assert ParseAll(decode, text, codes) == AllQuestions(m, codes);
    }
  }

  /** The inner loop of `_parse_all_questions`: one category's records. */
  method CollectCategory(code: string, items: seq<Json>) returns (qs: seq<Question>)
    ensures qs == CategoryQuestions(code, items)
  {
    qs := [];
    var i := 0;
    while i < |items|
      invariant 0 <= i <= |items|
      invariant qs == CategoryQuestions(code, items[..i])
    {
      assert items[..i + 1][..i] == items[..i];
      if items[i].JObject? {
        qs := qs + [PendingQuestion(code, items[i])];
      }
      i := i + 1;
    }
    assert items[..i] == items;
  }

  /** `_parse_all_questions`: the outer loop over the requested categories. */
  method ParseAllQuestions(decode: string -> Option<Json>, text: string, codes: seq<string>) returns (result: map<string, seq<Question>>)
    ensures result == ParseAll(decode, text, codes)
  {
    var cleaned := UnfenceReply(Strip(text));
    cleaned := JsonParser.TrimToBraces(cleaned);
    var data := decode(cleaned);
    if !(data.Some? && data.value.JObject?) {
      return map[];
    }
    var m := data.value.fields;
    result := map[];
    var i := 0;
    while i < |codes|
      invariant 0 <= i <= |codes|
      invariant result == AllQuestions(m, codes[..i])
    {
      var code := codes[i];
      assert codes[..i + 1][..i] == codes[..i];
      if code in m && m[code].JArray? {
        var qs := CollectCategory(code, m[code].items);
        result := result[code := qs];
      } else {
        result := result[code := []];
      }
      i := i + 1;
    }
    assert codes[..i] == codes;
  }

  // ---------------------------------------------------------------------------
  // The chunk arithmetic of `generate_questions_chunked`.

  const ChunkSize: int := 50

  function Min(a: int, b: int): int { if a <= b then a else b }

  function Max(a: int, b: int): int { if a >= b then a else b }

  /** `chunks_needed`: the ceiling of `total / 50` (floor division). */
  function ChunksNeeded(total: int): int { (total + ChunkSize - 1) / ChunkSize }

  /** `current_chunk_size` of chunk `k`: 50, or what remains. */
  function ChunkLength(total: int, k: int): int { Min(ChunkSize, total - k * ChunkSize) }

  /** The questions the first `n` chunks ask for. */
  function ChunkLengths(total: int, n: nat): int
  {
    if n == 0 then 0 else ChunkLengths(total, n - 1) + ChunkLength(total, n - 1)
  }

  lemma {:induction false} FullChunks(total: int, n: nat)
    requires n * ChunkSize <= total
    ensures ChunkLengths(total, n) == n * ChunkSize
  {
    if n > 0 {
      FullChunks(total, n - 1);
    }
  }

  /** The chunks partition the total: each holds 1 to 50 questions and together they hold all. */
  lemma ChunksCoverTotal(total: int)
    requires total >= 0
    ensures ChunksNeeded(total) >= 0
    ensures ChunkLengths(total, ChunksNeeded(total)) == total
    ensures forall k :: 0 <= k < ChunksNeeded(total) ==> 1 <= ChunkLength(total, k) <= ChunkSize
  {
    var n := ChunksNeeded(total);
    if n > 0 {
      assert (n - 1) * ChunkSize < total <= n * ChunkSize;
      FullChunks(total, n - 1);
    }
  }

  /** Python `int(x)` of an exact quotient `a / b`: truncation toward zero. */
  function TruncDiv(a: int, b: int): (q: int)
    requires b > 0
    ensures a >= 0 ==> q == a / b
    ensures a < 0 ==> q <= 0
  {
    if a >= 0 then a / b else -((-a) / b)
  }

  /** One category's count in a chunk with `remaining` questions left to assign. */
  function ChunkShare(remaining: int, current: int, count: int, total: int): int
    requires total > 0
  {
    if remaining <= 0 then 0 else Min(remaining, Max(1, TruncDiv(current * count, total)))
  }

  /**
   * The counts of the first `n` categories of a chunk of `current` questions,
   * and what is left to assign after them: while questions remain, a category
   * gets its proportional share `int(current * count / total)`, at least 1
   * and at most what remains; once none remain, 0.
   */
  function ChunkPrefix(counts: seq<(string, int)>, n: nat, current: int, total: int): (r: (seq<(string, int)>, int))
    requires n <= |counts| && total > 0
    ensures |r.0| == n
    ensures forall i :: 0 <= i < n ==> r.0[i].0 == counts[i].0 && r.0[i].1 >= 0
    ensures RubricSystem.Total(r.0) + r.1 == current
    ensures current >= 0 ==> r.1 >= 0
    ensures current <= 0 ==> forall i :: 0 <= i < n ==> r.0[i].1 == 0
  {
    if n == 0 then ([], current)
    else
      var (prefix, remaining) := ChunkPrefix(counts, n - 1, current, total);
      var share := ChunkShare(remaining, current, counts[n - 1].1, total);
      var r := prefix + [(counts[n - 1].0, share)];
      assert r[..n - 1] == prefix;
      (r, remaining - share)
  }

  /** `chunk_counts` of a chunk of `current` questions. */
  function ChunkCountsOf(counts: seq<(string, int)>, current: int, total: int): (r: seq<(string, int)>)
    requires total > 0
    ensures |r| == |counts|
    ensures forall i :: 0 <= i < |r| ==> r[i].0 == counts[i].0 && r[i].1 >= 0
    ensures current >= 0 ==> RubricSystem.Total(r) <= current
  {
    ChunkPrefix(counts, |counts|, current, total).0
  }

  /** `chunk_counts`: the loop that hands out the chunk category by category. */
  method ChunkCounts(counts: seq<(string, int)>, current: int, total: int) returns (chunkCounts: seq<(string, int)>)
    requires total > 0
    ensures chunkCounts == ChunkCountsOf(counts, current, total)
  {
    chunkCounts := [];
    var remainingPerCategory := current;
    var i := 0;
    while i < |counts|
      invariant 0 <= i <= |counts|
      invariant (chunkCounts, remainingPerCategory) == ChunkPrefix(counts, i, current, total)
    {
      var (code, totalCount) := counts[i];
      if remainingPerCategory <= 0 {
        chunkCounts := chunkCounts + [(code, 0)];
      } else {
        var chunkCount := Min(remainingPerCategory, Max(1, TruncDiv(current * totalCount, total)));
        chunkCounts := chunkCounts + [(code, chunkCount)];
        remainingPerCategory := remainingPerCategory - chunkCount;
      }
      i := i + 1;
    }
  }

  /**
   * The proportional shares round down, so a chunk can ask for fewer questions
   * than it holds: three categories of 20 give a first chunk of 50 split as
   * 16 + 16 + 16.
   */
  lemma ChunkShortfall(a: string, b: string, c: string)
    ensures var r := ChunkCountsOf([(a, 20), (b, 20), (c, 20)], 50, 60);
            r == [(a, 16), (b, 16), (c, 16)] && RubricSystem.Total(r) == 48
  {
    var counts: seq<(string, int)> := [(a, 20), (b, 20), (c, 20)];
    assert ChunkPrefix(counts, 1, 50, 60) == ([(a, 16)], 34);
    assert [(a, 16)] + [(b, 16)] == [(a, 16), (b, 16)];
    assert ChunkPrefix(counts, 2, 50, 60) == ([(a, 16), (b, 16)], 18);
    assert [(a, 16), (b, 16)] + [(c, 16)] == [(a, 16), (b, 16), (c, 16)];
    assert ChunkPrefix(counts, 3, 50, 60) == ([(a, 16), (b, 16), (c, 16)], 2);
  }

  // ---------------------------------------------------------------------------
  // Names a template or an import asks for.

  /** The first of `wanted` not among `available`: the `KeyError` of `str.format`, the `ImportError` of `from … import`. */
  function FirstMissing<T(==)>(wanted: seq<T>, available: set<T>): Option<T>
  {
    if |wanted| == 0 then None
    else if wanted[0] !in available then Some(wanted[0])
    else FirstMissing(wanted[1..], available)
  }

  /** Nothing is missing exactly when every wanted name is available; a missing name is wanted and unavailable. */
  lemma {:induction false} FirstMissingSpec<T>(wanted: seq<T>, available: set<T>)
    ensures FirstMissing(wanted, available).None? <==> forall i :: 0 <= i < |wanted| ==> wanted[i] in available
    ensures FirstMissing(wanted, available).Some? ==>
              FirstMissing(wanted, available).value in wanted && FirstMissing(wanted, available).value !in available
  {
    if |wanted| > 0 && wanted[0] in available {
      FirstMissingSpec(wanted[1..], available);
      assert forall i :: 1 <= i < |wanted| ==> wanted[i] == wanted[1..][i - 1];
    }
  }

  /** The names a `str.format` call of the batch prompt involves. */
  datatype Placeholder =
    | JobContext | RoleName | SalaryCoefficient | Description | TypeName | TypeDescription | QuestionCount
    | K1 | K2 | K3 | K4 | K5

  /** The key `format` looks up for a placeholder, as `KeyError` reports it. */
  function PlaceholderKey(p: Placeholder): string
  {
    match p
    case JobContext => "job_context"
    case RoleName => "role_name"
    case SalaryCoefficient => "salary_coefficient"
    case Description => "description"
    case TypeName => "type_name"
    case TypeDescription => "type_description"
    case QuestionCount => "question_count"
    case K1 => "K1"
    case K2 => "K2"
    case K3 => "K3"
    case K4 => "K4"
    case K5 => "K5"
  }

  /** The placeholders of `BATCH_PROMPT_TEMPLATE`, in order of appearance. */
  const BatchTemplateFields: seq<Placeholder> := [
    JobContext, RoleName, SalaryCoefficient, Description, TypeName, TypeDescription,
    QuestionCount, QuestionCount, SalaryCoefficient, K1, K2, K3, K4, K5, QuestionCount
  ]

  /** The keyword arguments `generate_questions_batch` passes to `format`. */
  const BatchFormatKeys: set<Placeholder> := {
    JobContext, RoleName, SalaryCoefficient, Description, TypeName, QuestionCount, K1, K2, K3, K4, K5
  }

  /** The keyword arguments with the category description supplied as `type_description`. */
  const CorrectedBatchFormatKeys: set<Placeholder> := BatchFormatKeys + {TypeDescription}

  /** As written, formatting the batch prompt raises `KeyError('type_description')`. */
  lemma BatchPromptAsWrittenRaises()
    ensures FirstMissing(BatchTemplateFields, BatchFormatKeys) == Some(TypeDescription)
  {
    var f, keys := BatchTemplateFields, BatchFormatKeys;
    assert f[0] in keys && f[1] in keys && f[2] in keys && f[3] in keys && f[4] in keys;
    FirstMissingAt(f, keys, 5);
  }

  /** When the names before position `k` are all supplied and the one at `k` is not, `k` is reported. */
  lemma {:induction false} FirstMissingAt<T>(wanted: seq<T>, available: set<T>, k: nat)
    requires k < |wanted| && wanted[k] !in available
    requires forall i :: 0 <= i < k ==> wanted[i] in available
    ensures FirstMissing(wanted, available) == Some(wanted[k])
  {
    if k > 0 {
      FirstMissingAt(wanted[1..], available, k - 1);
    }
  }

  /** With `type_description` supplied, every placeholder of the batch prompt is filled. */
  lemma BatchPromptCorrectedFormats()
    ensures FirstMissing(BatchTemplateFields, CorrectedBatchFormatKeys) == None
  {
    forall i | 0 <= i < |BatchTemplateFields| ensures BatchTemplateFields[i] in CorrectedBatchFormatKeys {
    }
    FirstMissingSpec(BatchTemplateFields, CorrectedBatchFormatKeys);
  }

  /** The names a `from core.prompt_templates import …` involves. */
  datatype TemplateName = SystemMessage | MainPromptTemplate | BatchPromptTemplate

  /** The names `core/prompt_templates.py` defines. */
  const PromptTemplateNames: set<TemplateName> := {SystemMessage, BatchPromptTemplate}

  /** The names `core/question_generator.py` imports from it. */
  const ImportedTemplateNames: seq<TemplateName> := [SystemMessage, MainPromptTemplate, BatchPromptTemplate]

  /** The template module with the main prompt template `generate_single_question` formats. */
  const CorrectedTemplateNames: set<TemplateName> := PromptTemplateNames + {MainPromptTemplate}

  /** As written, importing the generator module raises `ImportError` for `MAIN_PROMPT_TEMPLATE`. */
  lemma TemplateImportAsWrittenFails()
    ensures FirstMissing(ImportedTemplateNames, PromptTemplateNames) == Some(MainPromptTemplate)
  {
    assert MainPromptTemplate !in PromptTemplateNames;
    assert ImportedTemplateNames[1..] == [MainPromptTemplate, BatchPromptTemplate];
  }

  /** With the main template defined, every imported name resolves. */
  lemma TemplateImportCorrectedLoads()
    ensures FirstMissing(ImportedTemplateNames, CorrectedTemplateNames) == None
  {
    forall i | 0 <= i < |ImportedTemplateNames| ensures ImportedTemplateNames[i] in CorrectedTemplateNames {
    }
    FirstMissingSpec(ImportedTemplateNames, CorrectedTemplateNames);
  }

  // ---------------------------------------------------------------------------
  // `generate_questions_batch`: one category, one reply.

  /** The arguments of one batch call. */
  datatype BatchRequest = BatchRequest(role: string, coefficient: int, questionType: string, typeName: string,
                                       typeDescription: string, count: int)

  datatype BatchReply = BatchFailed(error: string) | BatchSucceeded(questions: seq<Question>)

  /** The metadata `question.update` writes into a parsed record of a batch. */
  function Annotated(r: Record, req: BatchRequest): Question
  {
    Question(r.question, r.expectedAnswer, r.parseError, req.questionType, req.typeName, req.role,
             req.coefficient, RubricSystem.DistributionByMultiplier(req.coefficient))
  }

  /** The records of a batch, each annotated with the batch metadata. */
  function AnnotateAll(recs: seq<Record>, req: BatchRequest): (qs: seq<Question>)
    ensures |qs| == |recs|
    ensures forall i :: 0 <= i < |qs| ==>
              qs[i].question == recs[i].question && qs[i].expectedAnswer == recs[i].expectedAnswer
              && qs[i].parseError == recs[i].parseError
              && qs[i].questionType == req.questionType && qs[i].typeName == req.typeName && qs[i].role == req.role
              && qs[i].salaryCoefficient == req.coefficient
              && qs[i].distribution == RubricSystem.DistributionByMultiplier(req.coefficient)
  {
    if |recs| == 0 then [] else AnnotateAll(recs[..|recs| - 1], req) + [Annotated(recs[|recs| - 1], req)]
  }

  /** The questions of a batch: the chain's records of the stripped reply, each annotated. */
  function BatchQuestions(decode: string -> Option<Json>, response: string, req: BatchRequest): seq<Question>
  {
    AnnotateAll(ParseBatchResponse(decode, Strip(response)), req)
  }

  /** `str()` of a `KeyError`: the missing key in quotes. */
  function KeyErrorText(key: string): string { "'" + key + "'" }

  /**
   * `generate_questions_batch` as written: formatting the prompt raises
   * `KeyError('type_description')` before any request is made, and the
   * handler returns a failure whose error is `str()` of that exception.
   */
  function GenerateQuestionsBatchAsWritten(decode: string -> Option<Json>, response: string, req: BatchRequest): BatchReply
  {
    match FirstMissing(BatchTemplateFields, BatchFormatKeys)
    case Some(p) => BatchFailed(KeyErrorText(PlaceholderKey(p)))
    case None => BatchSucceeded(BatchQuestions(decode, response, req))
  }

  /** As written, every batch call fails, whatever the reply would have been. */
  lemma BatchAsWrittenAlwaysFails(decode: string -> Option<Json>, response: string, req: BatchRequest)
    ensures GenerateQuestionsBatchAsWritten(decode, response, req) == BatchFailed(KeyErrorText(PlaceholderKey(TypeDescription)))
  {
    BatchPromptAsWrittenRaises();
  }

  /**
   * `generate_questions_batch` with `type_description` supplied: the prompt
   * formats (`BatchPromptCorrectedFormats`), the reply is stripped and run through the parse chain, and
   * every record gets the batch metadata in a loop.
   */
  method GenerateQuestionsBatch(decode: string -> Option<Json>, response: string, req: BatchRequest) returns (reply: BatchReply)
    ensures reply == BatchSucceeded(BatchQuestions(decode, response, req))
  {
    var generatedText := Strip(response);
    var questionsData := ParseBatchResponse(decode, generatedText);
    var questions: seq<Question> := [];
    var i := 0;
    while i < |questionsData|
      invariant 0 <= i <= |questionsData|
      invariant questions == AnnotateAll(questionsData[..i], req)
    {
      AnnotateAllStep(questionsData, i, req);
      questions := questions + [Annotated(questionsData[i], req)];
      i := i + 1;
    }
    assert questionsData[..i] == questionsData;
    reply := BatchSucceeded(questions);
  }

  lemma AnnotateAllStep(recs: seq<Record>, i: nat, req: BatchRequest)
    requires i < |recs|
    ensures AnnotateAll(recs[..i + 1], req) == AnnotateAll(recs[..i], req) + [Annotated(recs[i], req)]
  {
    assert recs[..i + 1][..i] == recs[..i];
  }

  /** When `{`-texts decode to objects, a batch always holds at least one question. */
  lemma BatchNeverEmpty(decode: string -> Option<Json>, response: string, req: BatchRequest)
    requires ObjectShaped(decode)
    ensures BatchQuestions(decode, response, req) != []
  {
    BatchChainNeverEmpty(decode, Strip(response));
  }

  // ---------------------------------------------------------------------------
  // `generate_all_questions_single_request` and `generate_questions_chunked`.

  /** A generator's outcome: a failure, or the questions per category. */
  datatype Generation = GenerationFailed(error: string) | Generated(questions: map<string, seq<Question>>)

  /**
   * `generate_all_questions_single_request` as written: the loop over the
   * active categories unpacks each triple as a pair, so any active category
   * makes it fail; with none, the reply is parsed.
   */
  function SingleRequestAsWritten(decode: string -> Option<Json>, response: string, counts: seq<(string, int)>,
                                  active: seq<QuestionCategories.CategoryEntry>): Generation
  {
    if |active| == 0 then Generated(ParseAll(decode, Strip(response), Codes(counts)))
    else if QuestionCategories.UnpackPair(QuestionCategories.AsTuple(active[0])).None? then
      GenerationFailed(QuestionCategories.PairUnpackError)
    else
      // dead: every category entry is a triple, which never unpacks as a pair (CategoryTuplesAreTriples)
      assert false;
      GenerationFailed(QuestionCategories.PairUnpackError)
  }

  /** `generate_all_questions_single_request`, with the categories unpacked as triples: the stripped reply, parsed per requested category. */
  function SingleRequest(decode: string -> Option<Json>, response: string, counts: seq<(string, int)>): (g: Generation)
    ensures g.Generated? && g.questions.Keys <= KeySet(Codes(counts))
  {
    Generated(ParseAll(decode, Strip(response), Codes(counts)))
  }

  /** Empty lists for the given categories: the initial `all_results`. */
  function EmptyLists(codes: seq<string>): (r: map<string, seq<Question>>)
    ensures r.Keys == KeySet(codes)
  {
    map c | c in codes :: []
  }

  /**
   * Extending `all` by a chunk's questions: every category's list grows by the
   * chunk's list; a category `all` does not hold raises `KeyError`, which ends
   * the whole generator with a failure.
   */
  function MergeChunk(all: map<string, seq<Question>>, chunk: map<string, seq<Question>>): (r: Option<map<string, seq<Question>>>)
    ensures r.Some? <==> chunk.Keys <= all.Keys
    ensures r.Some? ==> r.value.Keys == all.Keys
                        && forall c :: c in all ==> r.value[c] == all[c] + (if c in chunk then chunk[c] else [])
  {
    if chunk.Keys <= all.Keys then Some(map c | c in all :: all[c] + (if c in chunk then chunk[c] else [])) else None
  }

  /** The counts chunk `k` asks for. */
  function ChunkRequest(counts: seq<(string, int)>, k: nat): seq<(string, int)>
    requires RubricSystem.Total(counts) > 0
  {
    var total := RubricSystem.Total(counts);
    ChunkCountsOf(counts, ChunkLength(total, k), total)
  }

  /**
   * One chunk: `reply` gives the outcome of the single request for the
   * chunk's counts; a failed chunk adds nothing, a generated one is merged.
   */
  function ChunkStep(counts: seq<(string, int)>, reply: seq<(string, int)> -> Generation, k: nat,
                     all: map<string, seq<Question>>): Option<map<string, seq<Question>>>
    requires RubricSystem.Total(counts) > 0
  {
    match reply(ChunkRequest(counts, k))
    case GenerationFailed(_) => Some(all)
    case Generated(chunk) => MergeChunk(all, chunk)
  }

  /** `all_results` after the first `n` chunks. */
  function ChunkedAfter(counts: seq<(string, int)>, reply: seq<(string, int)> -> Generation, n: nat): Option<map<string, seq<Question>>>
    requires n == 0 || RubricSystem.Total(counts) > 0
  {
    if n == 0 then Some(EmptyLists(Codes(counts)))
    else match ChunkedAfter(counts, reply, n - 1)
      case None => None
      case Some(all) => ChunkStep(counts, reply, n - 1, all)
  }

  /** The collected lists after one more chunk. */
  lemma ChunkedAfterNext(counts: seq<(string, int)>, reply: seq<(string, int)> -> Generation, k: nat,
                         all: map<string, seq<Question>>)
    requires RubricSystem.Total(counts) > 0 && ChunkedAfter(counts, reply, k) == Some(all)
    ensures ChunkedAfter(counts, reply, k + 1) == ChunkStep(counts, reply, k, all)
  {
  }

  lemma ChunkedAfterUnfold(counts: seq<(string, int)>, reply: seq<(string, int)> -> Generation, k: nat)
    requires RubricSystem.Total(counts) > 0
    ensures ChunkedAfter(counts, reply, k + 1) ==
            if ChunkedAfter(counts, reply, k).None? then None
            else ChunkStep(counts, reply, k, ChunkedAfter(counts, reply, k).value)
  {
  }

  lemma {:induction false} ChunkedAfterStaysFailed(counts: seq<(string, int)>, reply: seq<(string, int)> -> Generation, k: nat, n: nat)
    requires k <= n && RubricSystem.Total(counts) > 0
    requires ChunkedAfter(counts, reply, k).None?
    ensures ChunkedAfter(counts, reply, n).None?
    decreases n - k
  {
    if k < n {
      ChunkedAfterStaysFailed(counts, reply, k + 1, n);
    }
  }

  /** The number of chunks, as `range(chunks_needed)` runs them. */
  function ChunkCount(counts: seq<(string, int)>): nat
  {
    var n := ChunksNeeded(RubricSystem.Total(counts));
    if n > 0 then n else 0
  }

  lemma ChunksNeededPositive(total: int)
    ensures ChunksNeeded(total) > 0 <==> total > 0
  {
  }

  /** One pass of the chunk loop: the chunk's counts, the request, and the merge of its questions. */
  method RunChunk(counts: seq<(string, int)>, reply: seq<(string, int)> -> Generation, chunkNum: nat,
                  allResults: map<string, seq<Question>>) returns (next: Option<map<string, seq<Question>>>)
    requires RubricSystem.Total(counts) > 0
    ensures next == ChunkStep(counts, reply, chunkNum, allResults)
  {
    var totalQuestions := RubricSystem.Total(counts);
    var startIdx := chunkNum * ChunkSize;
    var remaining := totalQuestions - startIdx;
    var currentChunkSize := Min(ChunkSize, remaining);
    var chunkCounts := ChunkCounts(counts, currentChunkSize, totalQuestions);
    var chunkResult := reply(chunkCounts);
    if chunkResult.Generated? {
      next := MergeChunk(allResults, chunkResult.questions);
    } else {
      next := Some(allResults);
    }
  }

  /**
   * `generate_questions_chunked`: the chunk loop, with the single request as
   * `reply`; a `KeyError` in a merge ends it with a failure.
   */
  method GenerateQuestionsChunked(counts: seq<(string, int)>, reply: seq<(string, int)> -> Generation) returns (r: Option<map<string, seq<Question>>>)
    ensures ChunkCount(counts) > 0 ==> RubricSystem.Total(counts) > 0
    ensures r == ChunkedAfter(counts, reply, ChunkCount(counts))
  {
    var totalQuestions := RubricSystem.Total(counts);
    ChunksNeededPositive(totalQuestions);
    // `range(chunks_needed)` is empty when `chunks_needed` is not positive.
    var n := ChunkCount(counts);
    var allResults := EmptyLists(Codes(counts));
    var chunkNum := 0;
    while chunkNum < n
      invariant 0 <= chunkNum <= n
      invariant n > 0 ==> RubricSystem.Total(counts) > 0
      invariant ChunkedAfter(counts, reply, chunkNum) == Some(allResults)
    {
      var next := RunChunk(counts, reply, chunkNum, allResults);
      ChunkedAfterNext(counts, reply, chunkNum, allResults);
      if next.None? {
        ChunkedAfterStaysFailed(counts, reply, chunkNum + 1, n);
        return None;
      }
      allResults := next.value;
      chunkNum := chunkNum + 1;
    }
    r := Some(allResults);
  }

  /** A chunk's counts name the requested categories, in order. */
  lemma ChunkCountsKeepCodes(counts: seq<(string, int)>, current: int, total: int)
    requires total > 0
    ensures Codes(ChunkCountsOf(counts, current, total)) == Codes(counts)
  {
  }

  /** The single request as the chunk loop calls it, with `respond` giving the reply text for a chunk's counts. */
  function SingleReply(decode: string -> Option<Json>, respond: seq<(string, int)> -> string): seq<(string, int)> -> Generation
  {
    request => SingleRequest(decode, respond(request), request)
  }

  /** The single request as written, as the chunk loop calls it. */
  function SingleReplyAsWritten(decode: string -> Option<Json>, respond: seq<(string, int)> -> string,
                                active: seq<QuestionCategories.CategoryEntry>): seq<(string, int)> -> Generation
  {
    request => SingleRequestAsWritten(decode, respond(request), request, active)
  }

  /** A reply that names only categories it was asked for. */
  predicate ReplyWithin(g: Generation, request: seq<(string, int)>)
  {
    g.Generated? ==> forall c :: c in g.questions ==> c in Codes(request)
  }

  /** Every reply names only categories it was asked for. */
  ghost predicate RepliesWithin(reply: seq<(string, int)> -> Generation)
  {
    forall request :: ReplyWithin(reply(request), request)
  }

  /** The single request only ever names the categories it was asked for. */
  lemma SingleReplyWithin(decode: string -> Option<Json>, respond: seq<(string, int)> -> string)
    ensures RepliesWithin(SingleReply(decode, respond))
  {
    forall request ensures ReplyWithin(SingleReply(decode, respond)(request), request) {
      assert SingleReply(decode, respond)(request) == SingleRequest(decode, respond(request), request);
    }
  }

  /** A chunk whose reply names only requested categories keeps the keys of the collected lists. */
  lemma ChunkStepKeepsKeys(counts: seq<(string, int)>, reply: seq<(string, int)> -> Generation, k: nat,
                           all: map<string, seq<Question>>)
    requires RubricSystem.Total(counts) > 0 && all.Keys == KeySet(Codes(counts))
    requires RepliesWithin(reply)
    ensures var r := ChunkStep(counts, reply, k, all);
            r.Some? && r.value.Keys == all.Keys
  {
    var total := RubricSystem.Total(counts);
    var request := ChunkRequest(counts, k);
    var g := reply(request);
    assert ChunkStep(counts, reply, k, all) == if g.Generated? then MergeChunk(all, g.questions) else Some(all);
    assert ReplyWithin(g, request) && Codes(request) == Codes(counts) by {
      ChunkCountsKeepCodes(counts, ChunkLength(total, k), total);
    }
    MergeWithinKeepsKeys(all, g, request);
  }

  lemma MergeWithinKeepsKeys(all: map<string, seq<Question>>, g: Generation, request: seq<(string, int)>)
    requires ReplyWithin(g, request) && all.Keys == KeySet(Codes(request))
    ensures var r := if g.Generated? then MergeChunk(all, g.questions) else Some(all);
            r.Some? && r.value.Keys == all.Keys
  {
  }

  /**
   * When every reply names only requested categories, the chunked generator
   * never fails: every category of `counts` has an entry after every chunk.
   */
  lemma {:induction false} ChunkedKeepsKeys(counts: seq<(string, int)>, reply: seq<(string, int)> -> Generation, n: nat)
    requires n == 0 || RubricSystem.Total(counts) > 0
    requires RepliesWithin(reply)
    ensures var r := ChunkedAfter(counts, reply, n);
            r.Some? && r.value.Keys == KeySet(Codes(counts))
  {
    if n > 0 {
      ChunkedKeepsKeys(counts, reply, n - 1);
      ChunkedKeepsKeysStep(counts, reply, n - 1);
    }
  }

  lemma ChunkedKeepsKeysStep(counts: seq<(string, int)>, reply: seq<(string, int)> -> Generation, k: nat)
    requires RubricSystem.Total(counts) > 0
    requires RepliesWithin(reply)
    requires var r := ChunkedAfter(counts, reply, k);
             r.Some? && r.value.Keys == KeySet(Codes(counts))
    ensures var r := ChunkedAfter(counts, reply, k + 1);
            r.Some? && r.value.Keys == KeySet(Codes(counts))
  {
    var all := ChunkedAfter(counts, reply, k).value;
    ChunkStepKeepsKeys(counts, reply, k, all);
  }

  /**
   * With the single request unpacking triples, the chunked generator never
   * fails: every category of `counts` has an entry after every chunk.
   */
  lemma ChunkedKeepsEveryCategory(decode: string -> Option<Json>, respond: seq<(string, int)> -> string,
                                  counts: seq<(string, int)>, n: nat)
    requires n == 0 || RubricSystem.Total(counts) > 0
    ensures var r := ChunkedAfter(counts, SingleReply(decode, respond), n);
            r.Some? && r.value.Keys == KeySet(Codes(counts))
  {
    SingleReplyWithin(decode, respond);
    ChunkedKeepsKeys(counts, SingleReply(decode, respond), n);
  }

  /**
   * As written, every chunk's single request fails on the pair unpacking,
   * and failed chunks are only logged: the chunked generator reports success
   * with an empty list for every category.
   */
  lemma {:induction false} ChunkedAsWrittenCollectsNothing(decode: string -> Option<Json>, respond: seq<(string, int)> -> string,
                                                           counts: seq<(string, int)>, active: seq<QuestionCategories.CategoryEntry>, n: nat)
    requires |active| > 0
    requires n == 0 || RubricSystem.Total(counts) > 0
    ensures ChunkedAfter(counts, SingleReplyAsWritten(decode, respond, active), n) == Some(EmptyLists(Codes(counts)))
  {
    if n > 0 {
      var reply, empty := SingleReplyAsWritten(decode, respond, active), EmptyLists(Codes(counts));
      ChunkedAsWrittenCollectsNothing(decode, respond, counts, active, n - 1);
      assert ChunkedAfter(counts, reply, n - 1) == Some(empty);
      ChunkAsWrittenSkipped(decode, respond, counts, active, n - 1, empty);
      assert ChunkStep(counts, reply, n - 1, empty) == Some(empty);
      ChunkedAfterUnfold(counts, reply, n - 1);
      assert ChunkedAfter(counts, reply, n) == ChunkStep(counts, reply, n - 1, empty);
    }
  }

  /** As written, a chunk's request fails, so the chunk adds nothing. */
  lemma ChunkAsWrittenSkipped(decode: string -> Option<Json>, respond: seq<(string, int)> -> string,
                              counts: seq<(string, int)>, active: seq<QuestionCategories.CategoryEntry>, k: nat,
                              all: map<string, seq<Question>>)
    requires |active| > 0 && RubricSystem.Total(counts) > 0
    ensures ChunkStep(counts, SingleReplyAsWritten(decode, respond, active), k, all) == Some(all)
  {
    var request := ChunkRequest(counts, k);
    QuestionCategories.CategoryTuplesAreTriples(active[0]);
    assert SingleReplyAsWritten(decode, respond, active)(request).GenerationFailed?;
  }

  // ---------------------------------------------------------------------------
  // `generate_questions_category_based` and `generate_questions_for_role`.

  /** `question_counts.get(code, 0)`. */
  function CountOf(counts: seq<(string, int)>, code: string): (r: int)
    ensures code !in Codes(counts) ==> r == 0
    ensures code in Codes(counts) ==> (code, r) in counts
  {
    match Lookup(counts, code)
    case Some(c) => c
    case None => 0
  }

  /** The batch call the category-based generator makes for a category. */
  function CategoryRequest(e: QuestionCategories.CategoryEntry, role: string, coefficient: int, count: int): BatchRequest
  {
    BatchRequest(role, coefficient, e.code, e.name, e.description, count)
  }

  /**
   * A category's list: empty when it is asked for no questions, otherwise the
   * questions of its batch; `respond` gives the model's reply to a batch.
   */
  function CategoryBatch(decode: string -> Option<Json>, respond: BatchRequest -> string, role: string, coefficient: int,
                         counts: seq<(string, int)>, e: QuestionCategories.CategoryEntry): seq<Question>
  {
    var count := CountOf(counts, e.code);
    if count <= 0 then []
    else
      var req := CategoryRequest(e, role, coefficient, count);
      BatchQuestions(decode, respond(req), req)
  }

  /** A dict filled by `d[code] = f(entry)` over the first `n` entries: later entries override earlier ones. */
  function CollectByCode<T>(f: QuestionCategories.CategoryEntry -> T, active: seq<QuestionCategories.CategoryEntry>, n: nat): map<string, T>
    requires n <= |active|
  {
    if n == 0 then map[] else CollectByCode(f, active, n - 1)[active[n - 1].code := f(active[n - 1])]
  }

  /** Codes that no two entries share. */
  predicate DistinctCodes(active: seq<QuestionCategories.CategoryEntry>)
  {
    forall i, j :: 0 <= i < j < |active| ==> active[i].code != active[j].code
  }

  /** With distinct codes, each of the first `n` codes maps to `f` of its own entry, and nothing else is mapped. */
  lemma CollectByCodeHolds<T>(f: QuestionCategories.CategoryEntry -> T, active: seq<QuestionCategories.CategoryEntry>, n: nat)
    requires n <= |active| && DistinctCodes(active)
    ensures var r := CollectByCode(f, active, n);
            r.Keys == (set k | 0 <= k < n :: active[k].code)
            && forall k :: 0 <= k < n ==> r[active[k].code] == f(active[k])
  {
    CollectByCodeKeys(f, active, n);
    CollectByCodeAt(f, active, n);
  }

  lemma {:induction false} CollectByCodeKeys<T>(f: QuestionCategories.CategoryEntry -> T, active: seq<QuestionCategories.CategoryEntry>, n: nat)
    requires n <= |active|
    ensures CollectByCode(f, active, n).Keys == (set k | 0 <= k < n :: active[k].code)
  {
    if n > 0 {
      CollectByCodeKeys(f, active, n - 1);
      assert (set k | 0 <= k < n :: active[k].code) == (set k | 0 <= k < n - 1 :: active[k].code) + {active[n - 1].code};
    }
  }

  lemma {:induction false} CollectByCodeAt<T>(f: QuestionCategories.CategoryEntry -> T, active: seq<QuestionCategories.CategoryEntry>, n: nat)
    requires n <= |active| && DistinctCodes(active)
    ensures forall k :: 0 <= k < n ==> active[k].code in CollectByCode(f, active, n)
                                       && CollectByCode(f, active, n)[active[k].code] == f(active[k])
  {
    if n > 0 {
      CollectByCodeAt(f, active, n - 1);
      var prev := CollectByCode(f, active, n - 1);
      var e := active[n - 1];
      forall k | 0 <= k < n - 1 ensures prev[e.code := f(e)][active[k].code] == f(active[k]) {
        assert active[k].code != e.code;
      }
    }
  }

  /** Every value collected is `f` of one of the first `n` entries. */
  lemma {:induction false} CollectByCodeValues<T>(f: QuestionCategories.CategoryEntry -> T, active: seq<QuestionCategories.CategoryEntry>, n: nat, c: string)
    requires n <= |active|
    requires c in CollectByCode(f, active, n)
    ensures exists k :: 0 <= k < n && CollectByCode(f, active, n)[c] == f(active[k])
  {
    if active[n - 1].code == c {
      assert CollectByCode(f, active, n)[c] == f(active[n - 1]);
    } else {
      CollectByCodeValues(f, active, n - 1, c);
      var k :| 0 <= k < n - 1 && CollectByCode(f, active, n - 1)[c] == f(active[k]);
      assert CollectByCode(f, active, n)[c] == f(active[k]);
    }
  }

  /** `all_questions` after the first `n` active categories. */
  function CategoryBasedAfter(decode: string -> Option<Json>, respond: BatchRequest -> string, role: string, coefficient: int,
                              counts: seq<(string, int)>, active: seq<QuestionCategories.CategoryEntry>, n: nat): map<string, seq<Question>>
    requires n <= |active|
  {
    CollectByCode(e => CategoryBatch(decode, respond, role, coefficient, counts, e), active, n)
  }

  lemma CategoryBasedStep(decode: string -> Option<Json>, respond: BatchRequest -> string, role: string, coefficient: int,
                          counts: seq<(string, int)>, active: seq<QuestionCategories.CategoryEntry>, n: nat)
    requires n < |active|
    ensures CategoryBasedAfter(decode, respond, role, coefficient, counts, active, n + 1)
            == CategoryBasedAfter(decode, respond, role, coefficient, counts, active, n)
                 [active[n].code := CategoryBatch(decode, respond, role, coefficient, counts, active[n])]
  {
  }

  /**
   * `generate_questions_category_based` as written: the loop unpacks each
   * active triple as a pair, the `ValueError` is caught, and the generator
   * reports a failure; with no active category the result is empty.
   */
  function CategoryBasedAsWritten(active: seq<QuestionCategories.CategoryEntry>): (g: Generation)
    ensures g.GenerationFailed? ==> |active| > 0
  {
    if |active| == 0 then Generated(map[])
    else if QuestionCategories.UnpackPair(QuestionCategories.AsTuple(active[0])).None? then
      GenerationFailed(QuestionCategories.PairUnpackError)
    else
      // dead: every category entry is a triple, which never unpacks as a pair (CategoryTuplesAreTriples)
      assert false;
      GenerationFailed(QuestionCategories.PairUnpackError)
  }

  /** As written, the category-based generator fails whenever a category is active, which is always. */
  lemma CategoryBasedAsWrittenFails()
    ensures CategoryBasedAsWritten(QuestionCategories.GetActiveQuestionCategories())
            == GenerationFailed(QuestionCategories.PairUnpackError)
  {
    QuestionCategories.ActiveCategoriesInTableOrder();
    QuestionCategories.CategoryTuplesAreTriples(QuestionCategories.GetActiveQuestionCategories()[0]);
  }

  /** One pass of the category loop: the triple unpacked, the count looked up, and the batch run when it is positive. */
  method RunCategory(decode: string -> Option<Json>, respond: BatchRequest -> string, role: string, coefficient: int,
                     counts: seq<(string, int)>, e: QuestionCategories.CategoryEntry) returns (questions: seq<Question>)
    ensures questions == CategoryBatch(decode, respond, role, coefficient, counts, e)
  {
    QuestionCategories.CategoryTuplesAreTriples(e);
    var (categoryCode, categoryName, categoryDescription) :=
      QuestionCategories.UnpackTriple(QuestionCategories.AsTuple(e)).value;
    var questionCount := CountOf(counts, categoryCode);
    if questionCount <= 0 {
      questions := [];
    } else {
      var req := BatchRequest(role, coefficient, categoryCode, categoryName, categoryDescription, questionCount);
      var batchResult := GenerateQuestionsBatch(decode, respond(req), req);
      questions := if batchResult.BatchSucceeded? then batchResult.questions else [];
    }
  }

  /**
   * `generate_questions_category_based` with each active category unpacked as
   * a triple and its description passed to the batch call: the loop over the
   * active categories (`GetActiveQuestionCategories()`, passed in).
   */
  method GenerateQuestionsCategoryBased(decode: string -> Option<Json>, respond: BatchRequest -> string, role: string,
                                        coefficient: int, counts: seq<(string, int)>,
                                        activeCategories: seq<QuestionCategories.CategoryEntry>) returns (g: Generation)
    ensures g == Generated(CategoryBasedAfter(decode, respond, role, coefficient, counts, activeCategories, |activeCategories|))
  {
    var allQuestions: map<string, seq<Question>> := map[];
    var i := 0;
    while i < |activeCategories|
      invariant 0 <= i <= |activeCategories|
      invariant allQuestions == CategoryBasedAfter(decode, respond, role, coefficient, counts, activeCategories, i)
    {
      CategoryBasedStep(decode, respond, role, coefficient, counts, activeCategories, i);
      var questions := RunCategory(decode, respond, role, coefficient, counts, activeCategories[i]);
      allQuestions := allQuestions[activeCategories[i].code := questions];
      i := i + 1;
    }
    g := Generated(allQuestions);
  }

  /**
   * The category-based result has an entry for exactly the active categories
   * seen so far, each holding that category's batch.
   */
  lemma CategoryBasedCollects(decode: string -> Option<Json>, respond: BatchRequest -> string, role: string,
                              coefficient: int, counts: seq<(string, int)>,
                              active: seq<QuestionCategories.CategoryEntry>, n: nat)
    requires n <= |active| && DistinctCodes(active)
    ensures var r := CategoryBasedAfter(decode, respond, role, coefficient, counts, active, n);
            r.Keys == (set k | 0 <= k < n :: active[k].code)
            && forall k :: 0 <= k < n ==> r[active[k].code] == CategoryBatch(decode, respond, role, coefficient, counts, active[k])
  {
    CollectByCodeHolds(e => CategoryBatch(decode, respond, role, coefficient, counts, e), active, n);
  }

  /**
   * A category asked for no questions gets an empty list; one asked for some
   * gets at least one question, tagged with its code, the role and the
   * coefficient, when `{`-texts decode to objects.
   */
  lemma CategoryBatchShape(decode: string -> Option<Json>, respond: BatchRequest -> string, role: string, coefficient: int,
                           counts: seq<(string, int)>, e: QuestionCategories.CategoryEntry)
    ensures CountOf(counts, e.code) <= 0 ==> CategoryBatch(decode, respond, role, coefficient, counts, e) == []
    ensures var qs := CategoryBatch(decode, respond, role, coefficient, counts, e);
            forall q :: q in qs ==> q.questionType == e.code && q.typeName == e.name && q.role == role
                                    && q.salaryCoefficient == coefficient
    ensures ObjectShaped(decode) && CountOf(counts, e.code) > 0 ==>
              CategoryBatch(decode, respond, role, coefficient, counts, e) != []
  {
    var count := CountOf(counts, e.code);
    if count > 0 {
      var req := CategoryRequest(e, role, coefficient, count);
      if ObjectShaped(decode) {
        BatchNeverEmpty(decode, respond(req), req);
      }
    }
  }

  /** The role's metadata written into every question, as `question.update` at the end of `generate_questions_for_role` does. */
  function WithRoleMeta(qs: map<string, seq<Question>>, role: string, coefficient: int): (r: map<string, seq<Question>>)
    ensures r.Keys == qs.Keys
  {
    map c | c in qs ::
      seq(|qs[c]|, i requires 0 <= i < |qs[c]| =>
        qs[c][i].(role := role, salaryCoefficient := coefficient,
                  distribution := RubricSystem.DistributionByMultiplier(coefficient)))
  }

  /** The outcome of `generate_questions_for_role`, which has no handler of its own. */
  datatype RoleOutcome = RoleRaised(error: string) | RoleGenerated(questions: map<string, seq<Question>>)

  /**
   * `generate_questions_for_role` as written: the category-based call fails,
   * and its fallback loop unpacks the first active triple as a pair, with no
   * handler around it: the `ValueError` propagates to the caller.
   */
  function ForRoleAsWritten(active: seq<QuestionCategories.CategoryEntry>, role: string, coefficient: int): RoleOutcome
  {
    match CategoryBasedAsWritten(active)
    case Generated(qs) => RoleGenerated(WithRoleMeta(qs, role, coefficient))
    case GenerationFailed(_) =>
      if QuestionCategories.UnpackPair(QuestionCategories.AsTuple(active[0])).None? then
        RoleRaised(QuestionCategories.PairUnpackError)
      else
        // dead: every category entry is a triple, which never unpacks as a pair (CategoryTuplesAreTriples)
        assert false;
        RoleRaised(QuestionCategories.PairUnpackError)
  }

  /** As written, generating for a role always raises. */
  lemma ForRoleAsWrittenRaises(role: string, coefficient: int)
    ensures ForRoleAsWritten(QuestionCategories.GetActiveQuestionCategories(), role, coefficient)
            == RoleRaised(QuestionCategories.PairUnpackError)
  {
    CategoryBasedAsWrittenFails();
  }

  /**
   * `generate_questions_for_role` over the corrected category-based
   * generator: its result with the role's metadata written in. That
   * generator never fails, so the fallback loop is not reached.
   */
  function ForRole(decode: string -> Option<Json>, respond: BatchRequest -> string, role: string, coefficient: int,
                   counts: seq<(string, int)>): RoleOutcome
  {
    var active := QuestionCategories.GetActiveQuestionCategories();
    RoleGenerated(WithRoleMeta(CategoryBasedAfter(decode, respond, role, coefficient, counts, active, |active|), role, coefficient))
  }

  /** Questions that already carry the role's metadata. */
  predicate CarriesRoleMeta(qs: map<string, seq<Question>>, role: string, coefficient: int)
  {
    forall c, i :: c in qs && 0 <= i < |qs[c]| ==>
      qs[c][i].role == role && qs[c][i].salaryCoefficient == coefficient
      && qs[c][i].distribution == RubricSystem.DistributionByMultiplier(coefficient)
  }

  /** Writing the role's metadata into questions that carry it changes nothing. */
  lemma RoleMetaIdempotent(qs: map<string, seq<Question>>, role: string, coefficient: int)
    requires CarriesRoleMeta(qs, role, coefficient)
    ensures WithRoleMeta(qs, role, coefficient) == qs
  {
    var r := WithRoleMeta(qs, role, coefficient);
    forall c | c in qs ensures r[c] == qs[c] {
      assert |r[c]| == |qs[c]|;
      forall i | 0 <= i < |qs[c]| ensures r[c][i] == qs[c][i] {
      }
    }
  }

  /** The batches already carry the role's metadata. */
  lemma CategoryBasedCarriesRoleMeta(decode: string -> Option<Json>, respond: BatchRequest -> string,
                                     role: string, coefficient: int, counts: seq<(string, int)>,
                                     active: seq<QuestionCategories.CategoryEntry>, n: nat)
    requires n <= |active|
    ensures CarriesRoleMeta(CategoryBasedAfter(decode, respond, role, coefficient, counts, active, n), role, coefficient)
  {
    var f: QuestionCategories.CategoryEntry -> seq<Question> := e => CategoryBatch(decode, respond, role, coefficient, counts, e);
    var r: map<string, seq<Question>> := CategoryBasedAfter(decode, respond, role, coefficient, counts, active, n);
    assert r == CollectByCode(f, active, n);
    forall c, i | c in r && 0 <= i < |r[c]|
      ensures r[c][i].role == role && r[c][i].salaryCoefficient == coefficient
              && r[c][i].distribution == RubricSystem.DistributionByMultiplier(coefficient)
    {
      CollectByCodeValues(f, active, n, c);
      var k :| 0 <= k < n && r[c] == f(active[k]);
      CategoryBatchShape(decode, respond, role, coefficient, counts, active[k]);
      assert r[c][i] in r[c];
    }
  }

  /** Generating for a role gives exactly the category-based result: the metadata pass rewrites what the batches wrote. */
  lemma ForRoleIsCategoryBased(decode: string -> Option<Json>, respond: BatchRequest -> string, role: string, coefficient: int,
                               counts: seq<(string, int)>)
    ensures var active := QuestionCategories.GetActiveQuestionCategories();
            ForRole(decode, respond, role, coefficient, counts)
            == RoleGenerated(CategoryBasedAfter(decode, respond, role, coefficient, counts, active, |active|))
  {
    var active := QuestionCategories.GetActiveQuestionCategories();
    CategoryBasedCarriesRoleMeta(decode, respond, role, coefficient, counts, active, |active|);
    RoleMetaIdempotent(CategoryBasedAfter(decode, respond, role, coefficient, counts, active, |active|), role, coefficient);
  }
}
