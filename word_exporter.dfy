/**
 * The text logic of the Word exporter (exporters/word_exporter.py): telling a
 * code block apart from question prose, splitting a question into its text
 * and code, normalising a code block for display, and naming the output file.
 *
 * The regular expressions are written out as explicit conditions on a line.
 * Case-insensitive matching folds ASCII letters only.
 */
module WordExporter {
  import opened Text
  import opened Wrappers
  import FileHelpers

  /** `s[a:b]` consists of whitespace (`\s*` there). */
  predicate AllSpace(s: string, a: int, b: int) {
    forall m :: a <= m < b && 0 <= m < |s| ==> IsSpace(s[m])
  }

  /** `s[a:b]` consists of word characters (`\w*` there). */
  predicate AllWord(s: string, a: int, b: int) {
    forall m :: a <= m < b && 0 <= m < |s| ==> IsWordChar(s[m])
  }

  /** `s[a:b]` consists of ASCII letters (`[A-Za-z]*` there). */
  predicate AllLetters(s: string, a: int, b: int) {
    forall m :: a <= m < b && 0 <= m < |s| ==> IsAsciiLetter(s[m])
  }

  /** The lower-case word `w` occurs at `i`, letters compared case-insensitively. */
  predicate OccursCI(s: string, w: string, i: int) {
    0 <= i && i + |w| <= |s| && forall k :: 0 <= k < |w| ==> AsciiLower(s[i + k]) == w[k]
  }

  /** `\b` before a word character at `i`: nothing or a non-word character precedes it. */
  predicate StartsWord(s: string, i: int) { 0 <= i <= |s| && (i == 0 || !IsWordChar(s[i - 1])) }

  /** `\b` after a word character ending at `i`: nothing or a non-word character follows it. */
  predicate EndsWord(s: string, i: int) { 0 <= i <= |s| && (i == |s| || !IsWordChar(s[i])) }

  const Keywords: seq<string> := ["for", "if", "while", "def", "class", "try", "catch", "public",
                                  "private", "protected", "static", "using", "import", "from"]

  /** `^\s*(for|if|...|from)\b`. */
  predicate KeywordLine(ln: string) {
    var p := LeadingRun(ln, IsSpace);
    exists k :: 0 <= k < |Keywords| && OccursCI(ln, Keywords[k], p) && EndsWord(ln, p + |Keywords[k]|)
  }

  /** `\bConsole\.`, `\bprint\(` and `\bSystem\.`: a word starting at a boundary. */
  predicate WordAt(ln: string, w: string) {
    exists i :: 0 <= i <= |ln| && StartsWord(ln, i) && OccursCI(ln, w, i)
  }

  /** `\b<w>\s+\w+\s*=`, for `var`, `let` and `const`. */
  predicate Declaration(ln: string, w: string) {
    exists i, j, k, m :: 0 <= i < j < k <= m < |ln| && StartsWord(ln, i) && OccursCI(ln, w, i) && i + |w| < j
                         && AllSpace(ln, i + |w|, j) && AllWord(ln, j, k) && AllSpace(ln, k, m) && ln[m] == '='
  }

  /** `\b<w>[A-Za-z]+\b`, for the PowerShell verbs `New-`, `Get-` and `Set-`. */
  predicate Cmdlet(ln: string, w: string) {
    exists i, k :: 0 <= i < k <= |ln| && StartsWord(ln, i) && OccursCI(ln, w, i) && i + |w| < k
                   && AllLetters(ln, i + |w|, k) && EndsWord(ln, k)
  }

  /** `SELECT\s+.+\s+FROM`: at least one character between the two whitespace runs. */
  predicate SelectFrom(ln: string) {
    exists i, k :: 0 <= i && i + 9 <= k <= |ln| && OccursCI(ln, "select", i) && OccursCI(ln, "from", k)
                   && IsSpace(ln[i + 6]) && IsSpace(ln[k - 1])
                   && forall m :: i + 7 <= m < k - 1 ==> ln[m] != '\n'
  }

  /** `<a>\s+<b>`, for `CREATE TABLE`, `INSERT INTO` and `DELETE FROM`. */
  predicate TwoWords(ln: string, a: string, b: string) {
    exists i, k :: 0 <= i && i + |a| < k <= |ln| && OccursCI(ln, a, i) && OccursCI(ln, b, k) && AllSpace(ln, i + |a|, k)
  }

  /** `UPDATE\s+\w+\s+SET`. */
  predicate UpdateSet(ln: string) {
    exists i, j, k, m :: 0 <= i && i + 6 < j < k < m <= |ln| && OccursCI(ln, "update", i) && OccursCI(ln, "set", m)
                         && AllSpace(ln, i + 6, j) && AllWord(ln, j, k) && AllSpace(ln, k, m)
  }

  predicate IsSymbol(c: char) {
    c == '{' || c == '}' || c == ';' || c == '=' || c == '(' || c == ')' || c == '<' || c == '>' || c == '[' || c == ']'
  }

  /** `[{};=()<>\[\]]`. */
  predicate HasSymbol(ln: string) { exists i :: 0 <= i < |ln| && IsSymbol(ln[i]) }

  /** `:\s*$`: a colon followed only by whitespace. */
  predicate ColonEnd(ln: string) { exists i :: 0 <= i < |ln| && ln[i] == ':' && AllSpace(ln, i + 1, |ln|) }

  /** Some entry of `code_indicators` is found in the line. */
  predicate Indicator(ln: string) {
    KeywordLine(ln)
    || WordAt(ln, "console.") || WordAt(ln, "print(") || WordAt(ln, "system.")
    || Declaration(ln, "var") || Declaration(ln, "let") || Declaration(ln, "const")
    || Cmdlet(ln, "new-") || Cmdlet(ln, "get-") || Cmdlet(ln, "set-")
    || SelectFrom(ln) || TwoWords(ln, "create", "table") || TwoWords(ln, "insert", "into")
    || UpdateSet(ln) || TwoWords(ln, "delete", "from")
    || HasSymbol(ln) || ColonEnd(ln)
  }

  /** A declaration ends in `=`, which is a symbol. */
  lemma DeclarationHasSymbol(ln: string, w: string)
    requires Declaration(ln, w)
    ensures HasSymbol(ln)
  {
    var i, j, k, m :| 0 <= i < j < k <= m < |ln| && StartsWord(ln, i) && OccursCI(ln, w, i) && i + |w| < j
                      && AllSpace(ln, i + |w|, j) && AllWord(ln, j, k) && AllSpace(ln, k, m) && ln[m] == '=';
    assert IsSymbol(ln[m]);
  }

  /** `print(` contains `(`, which is a symbol. */
  lemma PrintHasSymbol(ln: string)
    requires WordAt(ln, "print(")
    ensures HasSymbol(ln)
  {
    var i :| 0 <= i <= |ln| && StartsWord(ln, i) && OccursCI(ln, "print(", i);
    assert "print("[5] == '(';
    assert AsciiLower(ln[i + 5]) == '(';
    assert IsSymbol(ln[i + 5]);
  }

  /** The declarations and `print(` always contain a symbol, so those indicators add nothing. */
  lemma SymbolsSubsumeDeclarations(ln: string)
    ensures Declaration(ln, "var") || Declaration(ln, "let") || Declaration(ln, "const") || WordAt(ln, "print(")
            ==> HasSymbol(ln)
  {
    if Declaration(ln, "var") {
      DeclarationHasSymbol(ln, "var");
    } else if Declaration(ln, "let") {
      DeclarationHasSymbol(ln, "let");
    } else if Declaration(ln, "const") {
      DeclarationHasSymbol(ln, "const");
    } else if WordAt(ln, "print(") {
      PrintHasSymbol(ln);
    }
  }

  /** `not ln.strip()`: the line holds only whitespace. */
  predicate Blank(ln: string) { forall i :: 0 <= i < |ln| ==> IsSpace(ln[i]) }

  /** The non-blank lines, in order. */
  function NonBlank(lines: seq<string>): (r: seq<string>)
    ensures |r| <= |lines|
    ensures forall i :: 0 <= i < |r| ==> !Blank(r[i]) && r[i] in lines
    ensures forall l :: l in lines && !Blank(l) ==> l in r
  {
    if |lines| == 0 then []
    else
      var rest := NonBlank(lines[1..]);
      if Blank(lines[0]) then rest else [lines[0]] + rest
  }

  /** The number of lines satisfying `p`. */
  function Hits(p: string -> bool, lines: seq<string>): (n: nat)
    ensures n <= |lines|
  {
    if |lines| == 0 then 0
    else
      Hits(p, lines[..|lines| - 1]) + (if p(lines[|lines| - 1]) then 1 else 0)
  }

  /** The count is positive exactly when some line satisfies `p`. */
  lemma {:induction false} HitsPositive(p: string -> bool, lines: seq<string>)
    ensures Hits(p, lines) > 0 <==> exists i :: 0 <= i < |lines| && p(lines[i])
    decreases |lines|
  {
    if |lines| > 0 {
      var init := lines[..|lines| - 1];
      HitsPositive(p, init);
      if exists i :: 0 <= i < |init| && p(init[i]) {
        var i :| 0 <= i < |init| && p(init[i]);
        assert lines[i] == init[i];
      }
      if exists i :: 0 <= i < |lines| && p(lines[i]) {
        var i :| 0 <= i < |lines| && p(lines[i]);
        if i < |init| {
          assert init[i] == lines[i];
        }
      }
    }
  }

  /** Some non-blank line of the text satisfies `p`. */
  predicate SomeLineMatches(p: string -> bool, text: string) {
    exists l :: l in SplitLines(text) && !Blank(l) && p(l)
  }

  /**
   * `_looks_like_code_block` as a condition: some non-blank line of the text
   * carries an indicator.
   */
  predicate LooksLikeCode(text: string) {
    SomeLineMatches(Indicator, text)
  }

  /** The loop of `_looks_like_code_block`: count the lines satisfying `p`. */
  method CountHits(p: string -> bool, lines: seq<string>) returns (hits: nat)
    ensures hits == Hits(p, lines)
  {
    hits := 0;
    var i := 0;
    while i < |lines|
      invariant 0 <= i <= |lines|
      invariant hits == Hits(p, lines[..i])
    {
      assert lines[..i + 1][..i] == lines[..i];
      if p(lines[i]) {
        hits := hits + 1;
      }
      i := i + 1;
    }
    assert lines[..i] == lines;
  }

  /**
   * `_looks_like_code_block`: empty text is not code; otherwise the non-blank
   * lines are counted when they carry an indicator, and one hit is enough.
   */
  method LooksLikeCodeBlock(text: string) returns (r: bool)
    ensures r <==> LooksLikeCode(text)
    ensures text == [] ==> !r
  {
    if text == [] {
      return false;
    }
    var lines := NonBlank(SplitLines(text));
    HitsMeanCode(Indicator, text);
    if |lines| == 0 {
      return false;
    }
    var hits := CountHits(Indicator, lines);
    r := hits >= 1;
  }

  /** Some non-blank line satisfies `p` exactly when the count of such lines is positive. */
  lemma HitsMeanCode(p: string -> bool, text: string)
    ensures Hits(p, NonBlank(SplitLines(text))) > 0 <==> SomeLineMatches(p, text)
  {
    var all := SplitLines(text);
    var lines := NonBlank(all);
    HitsPositive(p, lines);
    if Hits(p, lines) > 0 {
      var k :| 0 <= k < |lines| && p(lines[k]);
      assert lines[k] in all && !Blank(lines[k]);
    }
    if SomeLineMatches(p, text) {
      var l :| l in all && !Blank(l) && p(l);
      assert l in lines;
      var k :| 0 <= k < |lines| && lines[k] == l;
      assert p(lines[k]);
    }
  }

  /** Blank text never looks like code. */
  lemma BlankTextIsNotCode(text: string)
    requires forall l :: l in SplitLines(text) ==> Blank(l)
    ensures !LooksLikeCode(text)
  {
  }

  /**
   * `_split_question_and_code`: `("Soru metni eksik", None)` for an empty
   * text; a one-line text stripped; otherwise the first line and the rest,
   * when the rest looks like code, and the whole text stripped when it does not.
   */
  function SplitQuestionAndCode(q: string): (r: (string, Option<string>))
    ensures q == [] ==> r == ("Soru metni eksik", None)
    ensures q != [] && |SplitLines(q)| <= 1 ==> r == (Strip(q), None)
    ensures r.1.Some? ==> |SplitLines(q)| >= 2 && r.0 == Strip(SplitLines(q)[0])
                          && r.1.value == Strip(Join(SplitLines(q)[1..], "\n")) && LooksLikeCode(r.1.value)
    ensures q != [] && r.1.None? ==> r.0 == Strip(q)
    ensures q != [] && |SplitLines(q)| >= 2
            ==> (r.1.Some? <==> LooksLikeCode(Strip(Join(SplitLines(q)[1..], "\n"))))
  {
    if q == [] then ("Soru metni eksik", None)
    else
      var lines := SplitLines(q);
      if |lines| <= 1 then (Strip(q), None)
      else
        var first := Strip(lines[0]);
        var candidate := Strip(Join(lines[1..], "\n"));
        if LooksLikeCode(candidate) then (first, Some(candidate)) else (Strip(q), None)
  }

  /** `balance`: append as many closers as there are unmatched openers. */
  function Balance(block: string, open: char, close: char): (r: string)
    requires open != close
    ensures Count(r, open) == Count(block, open)
    ensures Count(r, close) >= Count(r, open)
    ensures Count(block, close) >= Count(block, open) ==> r == block
    ensures Count(block, close) < Count(block, open) ==> r == block + Repeat(close, Count(block, open) - Count(block, close))
  {
    var count := Count(block, open) - Count(block, close);
    if count > 0 then
      var r := block + Repeat(close, count);
      CountAppend(block, Repeat(close, count), open);
      CountAppend(block, Repeat(close, count), close);
      CountRepeat(close, count, open);
      CountRepeat(close, count, close);
      r
    else block
  }

  /** Balancing only ever appends closers. */
  lemma BalanceKeepsOthers(block: string, open: char, close: char, c: char)
    requires open != close && c != close
    ensures Count(Balance(block, open, close), c) == Count(block, c)
  {
    var count := Count(block, open) - Count(block, close);
    if count > 0 {
      CountAppend(block, Repeat(close, count), c);
      CountRepeat(close, count, c);
    }
  }

  /** `Console\.Write(Line|)\s*\(.*$`: a `Console.Write` call opened on the line. */
  predicate ConsoleCall(ln: string) {
    exists i, q :: 0 <= i && i + 13 <= q < |ln| && OccursAt(ln, "Console.Write", i) && ln[q] == '('
                   && (AllSpace(ln, i + 13, q) || (OccursAt(ln, "Line", i + 13) && AllSpace(ln, i + 17, q)))
                   && forall m :: q < m < |ln| ==> ln[m] != '\n'
  }

  /** `\)\s*;\s*$`: the line ends with a closed statement. */
  predicate ClosedStatement(ln: string) {
    exists q, s :: 0 <= q < s < |ln| && ln[q] == ')' && ln[s] == ';' && AllSpace(ln, q + 1, s) && AllSpace(ln, s + 1, |ln|)
  }

  function Max(a: int, b: int): int { if a >= b then a else b }

  /** Closing step one: an empty argument list `(` or `( ` gets its `)`. */
  function CloseEmptyCall(ln: string): (r: string)
    ensures |r| >= |ln| && r[..|ln|] == ln
    ensures Count(r, '"') == Count(ln, '"')
  {
    if EndsWith(ln, "(") || EndsWith(ln, "( ") then
      CountAppend(ln, ")", '"');
      ln + ")"
    else ln
  }

  /** Closing step two: a line not ending in `)` gets one `)` per unmatched `(`, and at least one. */
  function CloseParens(ln: string): (r: string)
    ensures |r| >= |ln| && r[..|ln|] == ln
    ensures Count(r, '"') == Count(ln, '"')
  {
    if !EndsWith(ln, ")") then
      var n := Max(Count(ln, '(') - Count(ln, ')'), 1) as nat;
      CountAppend(ln, Repeat(')', n), '"');
      CountRepeat(')', n, '"');
      ln + Repeat(')', n)
    else ln
  }

  /** Closing step three: a line whose stripped form does not end in `;` gets one. */
  function AddSemicolon(ln: string): (r: string)
    ensures |r| >= |ln| && r[..|ln|] == ln
    ensures Count(r, '"') == Count(ln, '"')
  {
    if !EndsWith(Strip(ln), ";") then
      CountAppend(ln, ";", '"');
      ln + ";"
    else ln
  }

  /** A prefix of a prefix is a prefix. */
  lemma PrefixOfPrefix(a: string, b: string, c: string)
    requires |b| >= |a| && b[..|a|] == a
    requires |c| >= |b| && c[..|b|] == b
    ensures c[..|a|] == a
  {
    assert c[..|a|] == c[..|b|][..|a|];
  }

  /** The closing of an unterminated `Console.Write(` call: parentheses, then a semicolon. */
  function CloseConsoleCall(ln: string): (r: string)
    ensures |r| >= |ln| && r[..|ln|] == ln
    ensures Count(r, '"') == Count(ln, '"')
  {
    var a := CloseEmptyCall(ln);
    var b := CloseParens(a);
    var c := AddSemicolon(b);
    PrefixOfPrefix(ln, a, b);
    PrefixOfPrefix(ln, b, c);
    c
  }

  /** The console fix of one line: an open `Console.Write(` call without a closed statement gets closed. */
  function FixConsole(ln: string): (r: string)
    ensures |r| >= |ln| && r[..|ln|] == ln
    ensures Count(r, '"') == Count(ln, '"')
  {
    if ConsoleCall(ln) && !ClosedStatement(ln) then CloseConsoleCall(ln) else ln
  }

  /** The quote fix of one line: an odd number of `"` gets one more at the end. */
  function FixQuotes(ln: string): (r: string)
    ensures Count(r, '"') % 2 == 0
    ensures |r| >= |ln| && r[..|ln|] == ln
  {
    if Count(ln, '"') % 2 == 1 then
      CountAppend(ln, "\"", '"');
      assert Count("\"", '"') == 1;
      ln + "\""
    else ln
  }

  /** One line of the display fix: close an open console call, then an odd quote. */
  function FixLine(ln: string): (r: string)
    ensures Count(r, '"') % 2 == 0
    ensures |r| >= |ln| && r[..|ln|] == ln
  {
    var closed := FixConsole(ln);
    var r := FixQuotes(closed);
    PrefixOfPrefix(ln, closed, r);
    r
  }

  /** The three closing steps applied in place to an open console call. */
  method CloseConsoleLine(line: string) returns (ln: string)
    ensures ln == CloseConsoleCall(line)
  {
    ln := line;
    if EndsWith(ln, "(") || EndsWith(ln, "( ") {
      ln := ln + ")";
    }
    assert ln == CloseEmptyCall(line);
    ghost var a := ln;
    if !EndsWith(ln, ")") {
      var openParen := Count(ln, '(') - Count(ln, ')');
      ln := ln + Repeat(')', Max(openParen, 1) as nat);
    }
    assert ln == CloseParens(a);
    ghost var b := ln;
    if !EndsWith(Strip(ln), ";") {
      ln := ln + ";";
    }
    assert ln == AddSemicolon(b);
  }

  /** The body of the line loop: the console fix step by step, then the quote fix. */
  method FixDisplayLine(line: string) returns (ln: string)
    ensures ln == FixLine(line)
  {
    ln := line;
    if ConsoleCall(ln) && !ClosedStatement(ln) {
      ln := CloseConsoleLine(ln);
    }
    assert ln == FixConsole(line);
    if Count(ln, '"') % 2 == 1 {
      ln := ln + "\"";
    }
  }

  /** One display line: right-stripped, then fixed. */
  function DisplayLine(line: string): string
  {
    FixLine(RStrip(line))
  }

  /** `f` applied to every line. */
  function MapLines(f: string -> string, lines: seq<string>): (r: seq<string>)
    ensures |r| == |lines|
  {
    if |lines| == 0 then [] else MapLines(f, lines[..|lines| - 1]) + [f(lines[|lines| - 1])]
  }

  /** The i-th mapped line is `f` of the i-th line. */
  lemma {:induction false} MapLinesAt(f: string -> string, lines: seq<string>, i: nat)
    requires i < |lines|
    ensures MapLines(f, lines)[i] == f(lines[i])
    decreases |lines|
  {
    if i < |lines| - 1 {
      MapLinesAt(f, lines[..|lines| - 1], i);
    }
  }

  /** `_normalize_code_block_for_display`'s result, given its fixed lines. */
  function Balanced(joined: string): string
  {
    Balance(Balance(Balance(joined, '(', ')'), '{', '}'), '[', ']')
  }

  /**
   * `_normalize_code_block_for_display`: empty text is returned as it is;
   * otherwise escapes are resolved first (`\"`, `\'`, then a literal `\n`),
   * every right-stripped line is fixed, the lines are joined and the three
   * bracket pairs are balanced.
   */
  method NormalizeCodeBlock(text: string) returns (r: string, ghost fixed: seq<string>)
    ensures text == [] ==> r == text
    ensures text != [] ==>
              var n := ReplaceAll(ReplaceAll(ReplaceAll(text, "\\\"", "\""), "\\'", "'"), "\\n", "\n");
              var lines := SplitLines(n);
              fixed == MapLines(DisplayLine, lines) && r == Balanced(Join(fixed, "\n"))
  {
    if text == [] {
      return text, [];
    }
    var n := ReplaceAll(ReplaceAll(text, "\\\"", "\""), "\\'", "'");
    n := ReplaceAll(n, "\\n", "\n");
    var lines := SplitLines(n);
    var fixedLines: seq<string> := [];
    var i := 0;
    while i < |lines|
      invariant 0 <= i <= |lines|
      invariant fixedLines == MapLines(DisplayLine, lines[..i])
    {
      var ln := FixDisplayLine(RStrip(lines[i]));
      assert ln == DisplayLine(lines[i]);
      assert lines[..i + 1][..i] == lines[..i];
      fixedLines := fixedLines + [ln];
      i := i + 1;
    }
    assert lines[..i] == lines;
    fixed := fixedLines;
    var joined := Join(fixedLines, "\n");
    r := Balance(joined, '(', ')');
    r := Balance(r, '{', '}');
    r := Balance(r, '[', ']');
  }

  /** After balancing, no bracket pair has more openers than closers. */
  lemma BalancedBrackets(joined: string)
    ensures var r := Balanced(joined);
            Count(r, ')') >= Count(r, '(') && Count(r, '}') >= Count(r, '{') && Count(r, ']') >= Count(r, '[')
  {
    var a := Balance(joined, '(', ')');
    var b := Balance(a, '{', '}');
    BalanceKeepsOthers(a, '{', '}', '(');
    BalanceKeepsOthers(a, '{', '}', ')');
    BalanceKeepsOthers(b, '[', ']', '(');
    BalanceKeepsOthers(b, '[', ']', ')');
    BalanceKeepsOthers(b, '[', ']', '{');
    BalanceKeepsOthers(b, '[', ']', '}');
  }

  /** Joining lines with even quote counts by newlines gives an even quote count. */
  lemma {:induction false} EvenQuotesJoin(lines: seq<string>)
    requires forall i :: 0 <= i < |lines| ==> Count(lines[i], '"') % 2 == 0
    ensures Count(Join(lines, "\n"), '"') % 2 == 0
  {
    if |lines| > 1 {
      EvenQuotesJoin(lines[1..]);
      var rest := Join(lines[1..], "\n");
      assert Join(lines, "\n") == (lines[0] + "\n") + rest;
      CountAppend(lines[0] + "\n", rest, '"');
      CountAppend(lines[0], "\n", '"');
      assert Count("\n", '"') == 0;
      var x, y := Count(lines[0], '"'), Count(rest, '"');
      assert x % 2 == 0 && y % 2 == 0;
      EvenSum(x, y);
    } else if |lines| == 0 {
      assert Join(lines, "\n") == [];
    }
  }

  lemma EvenSum(x: int, y: int)
    requires x % 2 == 0 && y % 2 == 0
    ensures (x + 0 + y) % 2 == 0
  {
  }

  /** Balancing adds no quote. */
  lemma BalancedKeepsQuotes(joined: string)
    ensures Count(Balanced(joined), '"') == Count(joined, '"')
  {
    var a := Balance(joined, '(', ')');
    var b := Balance(a, '{', '}');
    BalanceKeepsOthers(joined, '(', ')', '"');
    BalanceKeepsOthers(a, '{', '}', '"');
    BalanceKeepsOthers(b, '[', ']', '"');
  }

  /** The normalized code block has an even number of quotes: no string literal is left open. */
  lemma NormalizedQuotesEven(lines: seq<string>)
    ensures Count(Balanced(Join(MapLines(DisplayLine, lines), "\n")), '"') % 2 == 0
  {
    var fixed := MapLines(DisplayLine, lines);
    forall i | 0 <= i < |fixed| ensures Count(fixed[i], '"') % 2 == 0 {
      MapLinesAt(DisplayLine, lines, i);
    }
    EvenQuotesJoin(fixed);
    BalancedKeepsQuotes(Join(fixed, "\n"));
  }

  /** The file name of `generate_filename`: the safe role name, the coefficient and `x.docx`. */
  function ExportFileName(roleName: string, coefficient: int): string
  {
    FileHelpers.SafeFilename(roleName) + "_" + IntToString(coefficient) + "x.docx"
  }

  /** `Path(base) / name` for a relative name: the empty base is the current directory. */
  function JoinPath(base: string, name: string): string
  {
    if base == [] then name else if EndsWith(base, "/") then base + name else base + "/" + name
  }

  /** `generate_filename`. */
  function GenerateFilename(roleName: string, coefficient: int, baseDir: string): (r: string)
    ensures EndsWith(r, ExportFileName(roleName, coefficient))
  {
    var name := ExportFileName(roleName, coefficient);
    var r := JoinPath(baseDir, name);
    assert r[|r| - |name|..] == name;
    r
  }

  /** The exported file name is a single path component: it contains no `/`. */
  lemma ExportFileNameHasNoSeparator(roleName: string, coefficient: int)
    ensures '/' !in ExportFileName(roleName, coefficient)
  {
    FileHelpers.SafeFilenameShape(roleName);
    var safe := FileHelpers.SafeFilename(roleName);
    var digits := IntToString(coefficient);
    assert '/' !in safe by {
      forall i | 0 <= i < |safe| ensures safe[i] != '/' {
        assert FileHelpers.IsSafeChar(safe[i]);
      }
    }
    assert '/' !in digits by {
      IntToStringChars(coefficient);
    }
    var name := safe + "_" + digits + "x.docx";
    forall i | 0 <= i < |name| ensures name[i] != '/' {
      if i < |safe| { assert name[i] == safe[i]; }
      else if i == |safe| { }
      else if i < |safe| + 1 + |digits| { assert name[i] == digits[i - |safe| - 1]; }
    }
  }

  /** `str()` of an integer uses digits and an optional minus sign only. */
  lemma IntToStringChars(n: int)
    ensures forall i :: 0 <= i < |IntToString(n)| ==> IsDigit(IntToString(n)[i]) || IntToString(n)[i] == '-'
  {
    if n < 0 {
      assert IntToString(n) == "-" + NatToString(-n);
      assert forall i :: 1 <= i < |IntToString(n)| ==> IntToString(n)[i] == NatToString(-n)[i - 1];
    }
  }
}
