/**
 * `_fix_common_json_errors` (core/question_generator.py): four `re.sub`
 * passes over the text of a bracket span, each written as a left-to-right
 * character rewrite. A lookbehind or lookahead in the regex reads the input
 * of that pass, which the flag and the `s[1]` tests below stand for.
 */
module JsonRepair {
  import opened Text
  import opened Json

  /** The first character after the leading whitespace of `t` is `}` or `]`. */
  predicate ClosesNext(t: string) {
    var k := LeadingRun(t, IsSpace);
    k < |t| && (t[k] == '}' || t[k] == ']')
  }

  /** The text with every comma erased. */
  function WithoutCommas(s: string): string
  {
    if |s| == 0 then [] else (if s[0] == ',' then [] else [s[0]]) + WithoutCommas(s[1..])
  }

  /** The text with every backslash erased. */
  function WithoutBackslashes(s: string): string
  {
    if |s| == 0 then [] else (if s[0] == '\\' then [] else [s[0]]) + WithoutBackslashes(s[1..])
  }

  lemma {:induction false} WithoutCommasAppend(a: string, b: string)
    ensures WithoutCommas(a + b) == WithoutCommas(a) + WithoutCommas(b)
    decreases |a|
  {
    if |a| == 0 {
      assert a + b == b;
    } else {
      assert (a + b)[1..] == a[1..] + b;
      WithoutCommasAppend(a[1..], b);
    }
  }

  lemma {:induction false} WithoutBackslashesAppend(a: string, b: string)
    ensures WithoutBackslashes(a + b) == WithoutBackslashes(a) + WithoutBackslashes(b)
    decreases |a|
  {
    if |a| == 0 {
      assert a + b == b;
    } else {
      assert (a + b)[1..] == a[1..] + b;
      WithoutBackslashesAppend(a[1..], b);
    }
  }

  /** Pass 1, `,(\s*[}\]])` → `\1`: every comma that only whitespace separates from `}` or `]` is dropped. */
  function RemoveDanglingCommas(s: string): string
  {
    if |s| == 0 then []
    else if s[0] == ',' && ClosesNext(s[1..]) then RemoveDanglingCommas(s[1..])
    else [s[0]] + RemoveDanglingCommas(s[1..])
  }

  /** Pass 2, `,,+` → `,`: in every run of commas all but the first are dropped. */
  function CollapseCommaRuns(s: string, afterComma: bool): string
  {
    if |s| == 0 then []
    else if s[0] == ',' && afterComma then CollapseCommaRuns(s[1..], true)
    else [s[0]] + CollapseCommaRuns(s[1..], s[0] == ',')
  }

  /**
   * Pass 3, `(?<!\\)\n` → `repl`: every newline not preceded by a backslash is
   * replaced by `repl`, the replacement after `re.sub` has processed its escapes.
   */
  function SubUnescapedNewlines(s: string, repl: string, afterBackslash: bool): string
  {
    if |s| == 0 then []
    else (if s[0] == '\n' && !afterBackslash then repl else [s[0]]) + SubUnescapedNewlines(s[1..], repl, s[0] == '\\')
  }

  /**
   * The replacement of pass 3 is the two characters backslash and `n`; `re.sub`
   * expands that escape in its template, so what it inserts is one newline.
   */
  const NewlineReplacement: string := "\n"

  /**
   * Pass 4, `(?<!\\)"(?=\w)` → `\"`: a backslash is inserted before every quote
   * that follows a non-backslash and precedes a word character.
   */
  function EscapeWordQuotes(s: string, afterBackslash: bool): string
  {
    if |s| == 0 then [] else EscapedHead(s, afterBackslash) + EscapeWordQuotes(s[1..], s[0] == '\\')
  }

  /** What pass 4 writes for the first character of `s`. */
  function EscapedHead(s: string, afterBackslash: bool): string
    requires |s| > 0
  {
    if s[0] == '"' && !afterBackslash && |s| > 1 && IsWordChar(s[1]) then "\\\"" else [s[0]]
  }

  /** `_fix_common_json_errors`: the four passes in source order. */
  function FixCommonJsonErrors(s: string): string
  {
    EscapeWordQuotes(SubUnescapedNewlines(CollapseCommaRuns(RemoveDanglingCommas(s), false), NewlineReplacement, false), false)
  }

  // ---------------------------------------------------------------------------
  // What each pass does.

  /** Pass 1 only removes commas. */
  lemma {:induction false} DanglingPassOnlyDropsCommas(s: string)
    ensures WithoutCommas(RemoveDanglingCommas(s)) == WithoutCommas(s)
    ensures |RemoveDanglingCommas(s)| <= |s|
    decreases |s|
  {
    if |s| > 0 {
      DanglingPassOnlyDropsCommas(s[1..]);
      WithoutCommasAppend([s[0]], s[1..]);
      WithoutCommasAppend([s[0]], RemoveDanglingCommas(s[1..]));
      assert s == [s[0]] + s[1..];
    }
  }

  /** Pass 2 only removes commas and leaves no two commas adjacent. */
  lemma {:induction false} CollapsePassOnlyDropsCommas(s: string, afterComma: bool)
    ensures var r := CollapseCommaRuns(s, afterComma);
            WithoutCommas(r) == WithoutCommas(s) && |r| <= |s|
            && (afterComma && |r| > 0 ==> r[0] != ',')
            && forall i :: 0 <= i < |r| - 1 ==> !(r[i] == ',' && r[i + 1] == ',')
    decreases |s|
  {
    if |s| > 0 {
      CollapsePassOnlyDropsCommas(s[1..], s[0] == ',');
      WithoutCommasAppend([s[0]], s[1..]);
      var t := CollapseCommaRuns(s[1..], s[0] == ',');
      WithoutCommasAppend([s[0]], t);
      assert s == [s[0]] + s[1..];
      if !(s[0] == ',' && afterComma) {
        var r := [s[0]] + t;
        forall i | 0 <= i < |r| - 1 ensures !(r[i] == ',' && r[i + 1] == ',') {
          if i > 0 {
            assert r[i] == t[i - 1] && r[i + 1] == t[i];
          }
        }
      }
    }
  }

  /** Pass 3 as written replaces each newline with a newline: it changes nothing. */
  lemma {:induction false} NewlinePassIsIdentity(s: string, afterBackslash: bool)
    ensures SubUnescapedNewlines(s, NewlineReplacement, afterBackslash) == s
    decreases |s|
  {
    if |s| > 0 {
      NewlinePassIsIdentity(s[1..], s[0] == '\\');
      assert s == [s[0]] + s[1..];
    }
  }

  lemma EscapeWordQuotesHead(s: string, afterBackslash: bool)
    requires |s| > 0
    ensures var r := EscapeWordQuotes(s, afterBackslash);
            |r| > 0 && (r[0] == s[0] || (r[0] == '\\' && s[0] == '"'))
  {
  }

  /** Every quote of `r` followed by a word character is preceded by a backslash (at index 0: `atStart` holds). */
  predicate WordQuotesEscaped(r: string, atStart: bool) {
    forall i {:trigger r[i]} :: 0 <= i < |r| - 1 && r[i] == '"' && IsWordChar(r[i + 1])
      ==> (i == 0 && atStart) || (i > 0 && r[i - 1] == '\\')
  }

  /** After pass 4, a quote followed by a word character is preceded by a backslash. */
  lemma {:induction false} QuotePassEscapesWordQuotes(s: string, afterBackslash: bool)
    ensures WordQuotesEscaped(EscapeWordQuotes(s, afterBackslash), afterBackslash)
    decreases |s|
  {
    if |s| > 0 {
      var r := EscapeWordQuotes(s, afterBackslash);
      var h := EscapedHead(s, afterBackslash);
      var t := EscapeWordQuotes(s[1..], s[0] == '\\');
      QuotePassEscapesWordQuotes(s[1..], s[0] == '\\');
      assert WordQuotesEscaped(t, s[0] == '\\');
      assert r == h + t;
      forall i | 0 <= i < |r| - 1 && r[i] == '"' && IsWordChar(r[i + 1])
        ensures (i == 0 && afterBackslash) || (i > 0 && r[i - 1] == '\\')
      {
        if i >= |h| {
          var k := i - |h|;
          assert r[i] == t[k] && r[i + 1] == t[k + 1];
          if k == 0 {
            assert 0 < |t| - 1 && t[0] == '"' && IsWordChar(t[1]);
            assert s[0] == '\\';
            assert h == [s[0]];
            assert r[i - 1] == h[0];
          } else {
            assert 0 <= k < |t| - 1 && t[k] == '"' && IsWordChar(t[k + 1]);
            assert r[i - 1] == t[k - 1];
          }
        } else if |h| == 2 {
          assert r[0] == h[0] == '\\';
          assert i == 1;
        } else {
          assert i == 0 && h == [s[0]] && s[0] == '"';
          assert r[1] == t[0];
          EscapeWordQuotesHead(s[1..], s[0] == '\\');
          assert s[1..][0] == s[1];
          assert IsWordChar(s[1]);
          assert afterBackslash;
        }
      }
    }
  }

  /** Pass 4 only inserts backslashes. */
  lemma {:induction false} QuotePassOnlyAddsBackslashes(s: string, afterBackslash: bool)
    ensures WithoutBackslashes(EscapeWordQuotes(s, afterBackslash)) == WithoutBackslashes(s)
    ensures |EscapeWordQuotes(s, afterBackslash)| >= |s|
    decreases |s|
  {
    if |s| > 0 {
      var h := EscapedHead(s, afterBackslash);
      var t := EscapeWordQuotes(s[1..], s[0] == '\\');
      QuotePassOnlyAddsBackslashes(s[1..], s[0] == '\\');
      WithoutBackslashesAppend(h, t);
      WithoutBackslashesAppend([s[0]], s[1..]);
      assert s == [s[0]] + s[1..];
      if |h| == 2 {
        assert WithoutBackslashes(h) == WithoutBackslashes(h[1..]);
        assert h[1..] == [s[0]];
      }
    }
  }

  /**
   * After the repair, every quote followed by a word character is preceded by a
   * backslash; the comma passes only remove commas, the newline pass changes
   * nothing and the quote pass only inserts backslashes.
   */
  lemma FixCommonJsonErrorsProperties(s: string)
    ensures WordQuotesEscaped(FixCommonJsonErrors(s), false)
    ensures var t := CollapseCommaRuns(RemoveDanglingCommas(s), false);
            WithoutCommas(t) == WithoutCommas(s) && |t| <= |s|
            && FixCommonJsonErrors(s) == EscapeWordQuotes(t, false)
            && WithoutBackslashes(FixCommonJsonErrors(s)) == WithoutBackslashes(t)
  {
    var t1 := RemoveDanglingCommas(s);
    var t := CollapseCommaRuns(t1, false);
    DanglingPassOnlyDropsCommas(s);
    CollapsePassOnlyDropsCommas(t1, false);
    NewlinePassIsIdentity(t, false);
    QuotePassEscapesWordQuotes(t, false);
    QuotePassOnlyAddsBackslashes(t, false);
  }

  /** A newline that no backslash precedes survives the repair: the newline pass does not escape it. */
  lemma UnescapedNewlineSurvives()
    ensures FixCommonJsonErrors("\n") == "\n"
  {
    NewlinePassIsIdentity("\n", false);
  }

  /** Pass 1 can leave a comma before a closing bracket: in `,,]` only the second comma is dangling. */
  lemma DanglingCommaCanSurvive()
    ensures FixCommonJsonErrors(",,]") == ",]"
  {
    var s := ",,]";
    assert LeadingRun("]", IsSpace) == 0;
    assert LeadingRun(",]", IsSpace) == 0;
    assert s[1..] == ",]" && s[1..][1..] == "]";
    assert RemoveDanglingCommas("]") == "]";
    assert RemoveDanglingCommas(",]") == "]";
    assert RemoveDanglingCommas(s) == ",]";
    assert CollapseCommaRuns(",]", false) == ",]";
    NewlinePassIsIdentity(",]", false);
    assert EscapeWordQuotes(",]", false) == ",]";
  }

  // ---------------------------------------------------------------------------
  // The quote pass breaks ordinary arrays.

  /** No quote and no backslash occurs before index `i`. */
  predicate PlainBefore(s: string, i: nat)
    requires i <= |s|
  {
    forall j :: 0 <= j < i ==> s[j] != '"' && s[j] != '\\'
  }

  /** The quote at `i` is the first quote of `s`, no backslash precedes it, and a word character follows it. */
  predicate WordQuoteAt(s: string, i: nat) {
    i < |s| - 1 && PlainBefore(s, i) && s[i] == '"' && IsWordChar(s[i + 1])
  }

  /** The first string of `s` begins with a word character, as every key such as `"question"` does. */
  ghost predicate OpensWithWordQuote(s: string) {
    exists i: nat :: WordQuoteAt(s, i)
  }

  lemma {:induction false} DanglingPassKeepsWordQuote(s: string, i: nat) returns (j: nat)
    requires WordQuoteAt(s, i)
    ensures WordQuoteAt(RemoveDanglingCommas(s), j)
    decreases i
  {
    var r := RemoveDanglingCommas(s);
    var t := RemoveDanglingCommas(s[1..]);
    if i == 0 {
      assert r == ['"'] + t;
      assert s[1..][0] == s[1] && s[1] != ',';
      assert t == [s[1]] + RemoveDanglingCommas(s[1..][1..]);
      j := 0;
    } else {
      var j1 := DanglingPassKeepsWordQuote(s[1..], i - 1);
      if s[0] == ',' && ClosesNext(s[1..]) {
        j := j1;
      } else {
        assert r == [s[0]] + t;
        j := j1 + 1;
        assert r[j] == t[j1] && r[j + 1] == t[j1 + 1];
        forall k | 0 <= k < j ensures r[k] != '"' && r[k] != '\\' {
          if k > 0 {
            assert r[k] == t[k - 1];
          }
        }
      }
    }
  }

  lemma {:induction false} CollapsePassKeepsWordQuote(s: string, f: bool, i: nat) returns (j: nat)
    requires WordQuoteAt(s, i)
    ensures WordQuoteAt(CollapseCommaRuns(s, f), j)
    decreases i
  {
    var r := CollapseCommaRuns(s, f);
    var t := CollapseCommaRuns(s[1..], s[0] == ',');
    if i == 0 {
      assert r == ['"'] + t;
      assert s[1..][0] == s[1] && s[1] != ',';
      assert t == [s[1]] + CollapseCommaRuns(s[1..][1..], false);
      j := 0;
    } else {
      var j1 := CollapsePassKeepsWordQuote(s[1..], s[0] == ',', i - 1);
      if s[0] == ',' && f {
        assert r == CollapseCommaRuns(s[1..], true);
        j := j1;
      } else {
        assert r == [s[0]] + t;
        j := j1 + 1;
        assert r[j] == t[j1] && r[j + 1] == t[j1 + 1];
        forall k | 0 <= k < j ensures r[k] != '"' && r[k] != '\\' {
          if k > 0 {
            assert r[k] == t[k - 1];
          }
        }
      }
    }
  }

  /** Pass 4 puts a backslash before the first quote of such a text. */
  lemma {:induction false} QuotePassStraysBackslash(s: string, f: bool, i: nat) returns (j: nat)
    requires WordQuoteAt(s, i) && (i > 0 || !f)
    ensures var r := EscapeWordQuotes(s, f);
            j < |r| && r[j] == '\\' && forall k :: 0 <= k < j ==> r[k] != '"'
    decreases i
  {
    var r := EscapeWordQuotes(s, f);
    var t := EscapeWordQuotes(s[1..], s[0] == '\\');
    assert r == EscapedHead(s, f) + t;
    if i == 0 {
      assert EscapedHead(s, f) == "\\\"";
      j := 0;
    } else {
      var j1 := QuotePassStraysBackslash(s[1..], false, i - 1);
      assert EscapedHead(s, f) == [s[0]];
      j := j1 + 1;
      assert r[j] == t[j1];
      forall k | 0 <= k < j ensures r[k] != '"' {
        if k > 0 {
          assert r[k] == t[k - 1];
        }
      }
    }
  }

  /** A text whose first string starts with a word character is never valid JSON after the repair. */
  lemma FixBreaksWordQuote(s: string, i: nat)
    requires WordQuoteAt(s, i)
    ensures !LexicallyValid(FixCommonJsonErrors(s))
  {
    var s1 := RemoveDanglingCommas(s);
    var i1 := DanglingPassKeepsWordQuote(s, i);
    var s2 := CollapseCommaRuns(s1, false);
    var i2 := CollapsePassKeepsWordQuote(s1, false, i1);
    NewlinePassIsIdentity(s2, false);
    var j := QuotePassStraysBackslash(s2, false, i2);
    StrayBackslashRejected(FixCommonJsonErrors(s), j);
  }

  // ---------------------------------------------------------------------------
  // A comma-only repair.

  /** No comma is followed, after whitespace, by a closing bracket. */
  predicate NoDanglingComma(s: string) {
    forall i :: 0 <= i < |s| && s[i] == ',' ==> !ClosesNext(s[i + 1..])
  }

  /** No two commas are adjacent. */
  predicate NoDoubleComma(s: string) {
    forall i :: 0 <= i < |s| - 1 ==> !(s[i] == ',' && s[i + 1] == ',')
  }

  /** Passes 1 and 2 of the repair, without the newline and quote passes. */
  function RepairCommas(s: string): (r: string)
  {
    CollapseCommaRuns(RemoveDanglingCommas(s), false)
  }

  /** The comma repair only removes commas and leaves no two commas adjacent. */
  lemma RepairCommasOnlyDropsCommas(s: string)
    ensures WithoutCommas(RepairCommas(s)) == WithoutCommas(s)
    ensures NoDoubleComma(RepairCommas(s))
  {
    DanglingPassOnlyDropsCommas(s);
    CollapsePassOnlyDropsCommas(RemoveDanglingCommas(s), false);
  }

  lemma {:induction false} NoDanglingTail(s: string)
    requires |s| > 0 && NoDanglingComma(s)
    ensures NoDanglingComma(s[1..])
  {
    forall i | 0 <= i < |s[1..]| && s[1..][i] == ',' ensures !ClosesNext(s[1..][i + 1..]) {
      assert s[1..][i + 1..] == s[i + 2..];
    }
  }

  lemma {:induction false} DanglingPassKeepsClean(s: string)
    requires NoDanglingComma(s)
    ensures RemoveDanglingCommas(s) == s
    decreases |s|
  {
    if |s| > 0 {
      NoDanglingTail(s);
      DanglingPassKeepsClean(s[1..]);
      assert s == [s[0]] + s[1..];
    }
  }

  lemma {:induction false} CollapsePassKeepsClean(s: string, f: bool)
    requires NoDoubleComma(s) && (f ==> |s| == 0 || s[0] != ',')
    ensures CollapseCommaRuns(s, f) == s
    decreases |s|
  {
    if |s| > 0 {
      assert NoDoubleComma(s[1..]) by {
        forall i | 0 <= i < |s[1..]| - 1 ensures !(s[1..][i] == ',' && s[1..][i + 1] == ',') {
          assert s[1..][i] == s[i + 1] && s[1..][i + 1] == s[i + 2];
        }
      }
      if |s| > 1 {
        assert !(s[0] == ',' && s[1] == ',');
      }
      CollapsePassKeepsClean(s[1..], s[0] == ',');
      assert s == [s[0]] + s[1..];
    }
  }

  /** On text with no dangling and no doubled comma the comma repair changes nothing. */
  lemma RepairCommasKeepsCleanText(s: string)
    requires NoDanglingComma(s) && NoDoubleComma(s)
    ensures RepairCommas(s) == s
  {
    DanglingPassKeepsClean(s);
    CollapsePassKeepsClean(s, false);
  }

  // ---------------------------------------------------------------------------
  // The repair as evidently intended.

  /** The two characters backslash and `n`, which pass 3 was meant to insert. */
  const EscapedNewline: string := "\\n"

  /**
   * The comma passes, then every raw newline escaped; the quote pass, which
   * cannot tell a key's quote from a quote inside a string, is dropped.
   */
  function FixedJsonRepair(s: string): string
  {
    SubUnescapedNewlines(RepairCommas(s), EscapedNewline, false)
  }

  /** Every newline of `r` is preceded by a backslash (at index 0: `atStart` holds). */
  predicate NewlinesEscaped(r: string, atStart: bool) {
    forall i {:trigger r[i]} :: 0 <= i < |r| && r[i] == '\n' ==> (i == 0 && atStart) || (i > 0 && r[i - 1] == '\\')
  }

  /** The escaping pass leaves no newline without a backslash before it. */
  lemma {:induction false} EscapingPassLeavesNoRawNewline(s: string, afterBackslash: bool)
    ensures NewlinesEscaped(SubUnescapedNewlines(s, EscapedNewline, afterBackslash), afterBackslash)
    decreases |s|
  {
    if |s| > 0 {
      var r := SubUnescapedNewlines(s, EscapedNewline, afterBackslash);
      var h := if s[0] == '\n' && !afterBackslash then EscapedNewline else [s[0]];
      var t := SubUnescapedNewlines(s[1..], EscapedNewline, s[0] == '\\');
      EscapingPassLeavesNoRawNewline(s[1..], s[0] == '\\');
      assert NewlinesEscaped(t, s[0] == '\\');
      assert r == h + t;
      forall i | 0 <= i < |r| && r[i] == '\n'
        ensures (i == 0 && afterBackslash) || (i > 0 && r[i - 1] == '\\')
      {
        if i >= |h| {
          var k := i - |h|;
          assert r[i] == t[k];
          assert 0 <= k < |t| && t[k] == '\n';
          if k == 0 {
            assert s[0] == '\\' && h == [s[0]];
            assert r[i - 1] == h[0];
          } else {
            assert r[i - 1] == t[k - 1];
          }
        } else {
          assert EscapedNewline == ['\\', 'n'];
          assert r[i] == h[i];
        }
      }
    }
  }

  /** A text without a newline passes the newline pass unchanged, whatever the replacement. */
  lemma {:induction false} NewlinePassKeepsOneLine(s: string, repl: string, afterBackslash: bool)
    requires forall i :: 0 <= i < |s| ==> s[i] != '\n'
    ensures SubUnescapedNewlines(s, repl, afterBackslash) == s
    decreases |s|
  {
    if |s| > 0 {
      NewlinePassKeepsOneLine(s[1..], repl, s[0] == '\\');
      assert s == [s[0]] + s[1..];
    }
  }

  /**
   * The corrected repair leaves no raw newline, and a one-line text with no
   * dangling and no doubled comma, such as a well-formed keyed object, is kept
   * as it is (where the source's repair breaks it, `FixBreaksWordQuote`).
   */
  lemma FixedRepairProperties(s: string)
    ensures NewlinesEscaped(FixedJsonRepair(s), false)
    ensures NoDanglingComma(s) && NoDoubleComma(s) && (forall i :: 0 <= i < |s| ==> s[i] != '\n')
            ==> FixedJsonRepair(s) == s
  {
    EscapingPassLeavesNoRawNewline(RepairCommas(s), false);
    if NoDanglingComma(s) && NoDoubleComma(s) && (forall i :: 0 <= i < |s| ==> s[i] != '\n') {
      RepairCommasKeepsCleanText(s);
      NewlinePassKeepsOneLine(s, EscapedNewline, false);
    }
  }

  lemma LeadingRunIs(s: string, p: char -> bool, k: nat)
    requires k <= |s| && (forall i :: 0 <= i < k ==> p(s[i])) && (k == |s| || !p(s[k]))
    ensures LeadingRun(s, p) == k
  {
  }

  lemma ClosesNextWithoutInsertedComma(x: string, y: string)
    requires ClosesNext(x + [','] + y)
    ensures ClosesNext(x + y)
  {
    var s := x + [','] + y;
    var k := LeadingRun(s, IsSpace);
    assert s[|x|] == ',' && !IsSpace(s[|x|]);
    assert k <= |x|;
    assert k < |x|;
    forall i | 0 <= i < k ensures IsSpace((x + y)[i]) {
      assert (x + y)[i] == s[i];
    }
    assert (x + y)[k] == s[k];
    LeadingRunIs(x + y, IsSpace, k);
  }

  lemma {:induction false} DanglingPassDropsOneTrailingComma(u: string, v: string)
    requires NoDanglingComma(u + v) && ClosesNext(v)
    ensures RemoveDanglingCommas(u + [','] + v) == u + v
    decreases |u|
  {
    var s := u + [','] + v;
    if |u| == 0 {
      assert s == [','] + v && s[1..] == v;
      assert u + v == v;
      DanglingPassKeepsClean(v);
    } else {
      assert s[1..] == u[1..] + [','] + v;
      assert (u + v)[1..] == u[1..] + v;
      NoDanglingTail(u + v);
      DanglingPassDropsOneTrailingComma(u[1..], v);
      if u[0] == ',' {
        assert (u + v)[0] == ',';
        assert !ClosesNext((u + v)[1..]);
        if ClosesNext(s[1..]) {
          ClosesNextWithoutInsertedComma(u[1..], v);
        }
      }
      assert u + v == [u[0]] + (u[1..] + v);
    }
  }

  /** A single comma before the closing bracket is removed by the comma repair and nothing else changes. */
  lemma RepairCommasDropsTrailingComma(u: string, v: string)
    requires NoDanglingComma(u + v) && NoDoubleComma(u + v) && ClosesNext(v)
    ensures RepairCommas(u + [','] + v) == u + v
  {
    DanglingPassDropsOneTrailingComma(u, v);
    CollapsePassKeepsClean(u + v, false);
  }
}
