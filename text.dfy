/**
 * Python string semantics used throughout the generator: the whitespace set of
 * `str.isspace` (which is also what `\s` matches in `re` on `str`), `strip`,
 * `find`/`rfind` with their -1 sentinel, clamping slices, non-overlapping
 * `replace`, `splitlines`, `join`, `count` and `str()` of integers.
 */
module Text {

  /** The characters for which Python's `str.isspace` holds; `\s` in `re` matches the same set. */
  predicate IsSpace(c: char) {
    ('\t' <= c <= '\r') || ('\U{1C}' <= c <= '\U{1F}') || c == ' ' || c == '\U{85}' || c == '\U{A0}'
    || c == '\U{1680}' || ('\U{2000}' <= c <= '\U{200A}') || c == '\U{2028}' || c == '\U{2029}'
    || c == '\U{202F}' || c == '\U{205F}' || c == '\U{3000}'
  }

  predicate IsAsciiLetter(c: char) { ('a' <= c <= 'z') || ('A' <= c <= 'Z') }

  predicate IsDigit(c: char) { '0' <= c <= '9' }

  /** The Turkish letters outside ASCII. */
  predicate IsTurkishLetter(c: char) {
    c == '\U{E7}' || c == '\U{C7}' || c == '\U{11F}' || c == '\U{11E}' || c == '\U{131}' || c == '\U{130}'
    || c == '\U{F6}' || c == '\U{D6}' || c == '\U{15F}' || c == '\U{15E}' || c == '\U{FC}' || c == '\U{DC}'
  }

  /** `\w`: letters, digits and underscore (non-ASCII letters limited to the Turkish ones). */
  predicate IsWordChar(c: char) { IsAsciiLetter(c) || IsDigit(c) || c == '_' || IsTurkishLetter(c) }

  /** The boundaries at which Python's `str.splitlines` breaks a string. */
  predicate IsLineBreak(c: char) {
    c == '\n' || c == '\r' || c == '\U{0B}' || c == '\U{0C}' || ('\U{1C}' <= c <= '\U{1E}')
    || c == '\U{85}' || c == '\U{2028}' || c == '\U{2029}'
  }

  function AsciiLower(c: char): (r: char)
    ensures 'A' <= c <= 'Z' ==> 'a' <= r <= 'z'
    ensures !('A' <= c <= 'Z') ==> r == c
  {
    if 'A' <= c <= 'Z' then (c as int + 32) as char else c
  }

  /** Length of the longest prefix of `s` all of whose characters satisfy `p`. */
  function LeadingRun(s: string, p: char -> bool): (k: nat)
    ensures k <= |s|
    ensures forall i :: 0 <= i < k ==> p(s[i])
    ensures k == |s| || !p(s[k])
  {
    if |s| == 0 || !p(s[0]) then 0 else 1 + LeadingRun(s[1..], p)
  }

  /** Start of the longest suffix of `s` all of whose characters satisfy `p`. */
  function TrailingRun(s: string, p: char -> bool): (k: nat)
    ensures k <= |s|
    ensures forall i :: k <= i < |s| ==> p(s[i])
    ensures k == 0 || !p(s[k - 1])
  {
    if |s| == 0 || !p(s[|s| - 1]) then |s| else TrailingRun(s[..|s| - 1], p)
  }

  function LStrip(s: string): string { s[LeadingRun(s, IsSpace)..] }

  function RStrip(s: string): string { s[..TrailingRun(s, IsSpace)] }

  /** Python `s.strip()`. */
  function Strip(s: string): (r: string)
    ensures r == [] || (!IsSpace(r[0]) && !IsSpace(r[|r| - 1]))
    ensures |r| <= |s|
  {
    RStrip(LStrip(s))
  }

  /** Python `s.strip(ch)` for a single character. */
  function StripChar(s: string, ch: char): (r: string)
    ensures r == [] || (r[0] != ch && r[|r| - 1] != ch)
    ensures |r| <= |s|
    ensures forall c :: c in r ==> c in s
  {
    var t := s[LeadingRun(s, c => c == ch)..];
    t[..TrailingRun(t, c => c == ch)]
  }

  predicate StartsWith(s: string, p: string) { |p| <= |s| && s[..|p|] == p }

  predicate EndsWith(s: string, p: string) { |p| <= |s| && s[|s| - |p|..] == p }

  predicate OccursAt(s: string, p: string, i: int) { 0 <= i && i + |p| <= |s| && s[i..i + |p|] == p }

  /** Python `s.find(p, i)`: the first occurrence at or after `i`, or -1. */
  function FindFrom(s: string, p: string, i: nat): (r: int)
    requires i <= |s|
    ensures r == -1 || (i <= r && OccursAt(s, p, r))
    ensures forall j :: i <= j && (r == -1 || j < r) ==> !OccursAt(s, p, j)
    decreases |s| - i
  {
    if OccursAt(s, p, i) then i else if i == |s| then -1 else FindFrom(s, p, i + 1)
  }

  /** Python `s.find(p)`. */
  function Find(s: string, p: string): (r: int)
    ensures r == -1 || OccursAt(s, p, r)
    ensures forall j :: 0 <= j && (r == -1 || j < r) ==> !OccursAt(s, p, j)
  {
    FindFrom(s, p, 0)
  }

  /** The last occurrence of `p` starting at or before `i`, or -1. */
  function RFindFrom(s: string, p: string, i: nat): (r: int)
    ensures r == -1 || (r <= i && OccursAt(s, p, r))
    ensures forall j :: r < j <= i ==> !OccursAt(s, p, j)
  {
    if OccursAt(s, p, i) then i else if i == 0 then -1 else RFindFrom(s, p, i - 1)
  }

  /** Python `s.rfind(p)`. */
  function RFind(s: string, p: string): (r: int)
    ensures r == -1 || OccursAt(s, p, r)
    ensures forall j :: r < j ==> !OccursAt(s, p, j)
  {
    RFindFrom(s, p, |s|)
  }

  /** Python `p in s` for strings. */
  predicate Contains(s: string, p: string) { Find(s, p) != -1 }

  lemma ContainsIff(s: string, p: string, i: int)
    requires OccursAt(s, p, i)
    ensures Contains(s, p)
  {
  }

  lemma CharContains(s: string, c: char)
    ensures Contains(s, [c]) <==> c in s
  {
    if c in s {
      var i :| 0 <= i < |s| && s[i] == c;
      assert OccursAt(s, [c], i);
    }
    if Contains(s, [c]) {
      var i := Find(s, [c]);
      assert s[i..i + 1] == [c];
      assert s[i] == c;
    }
  }

  /** Python slice `s[a:b]` for non-negative bounds: both ends clamp, and `a >= b` gives "". */
  function Slice(s: string, a: nat, b: nat): (r: string)
    ensures |r| <= |s|
    ensures a < b <= |s| ==> r == s[a..b]
  {
    if a >= b || a >= |s| then [] else s[a..if b <= |s| then b else |s|]
  }

  /** Python `s.replace(pat, rep)`: left to right, without overlaps. */
  function ReplaceAll(s: string, pat: string, rep: string): (r: string)
    requires |pat| > 0
    ensures (forall j :: 0 <= j ==> !OccursAt(s, pat, j)) ==> r == s
    decreases |s|
  {
    if |s| < |pat| then s
    else if s[..|pat|] == pat then
      assert OccursAt(s, pat, 0);
      rep + ReplaceAll(s[|pat|..], pat, rep)
    else
      NoOccurrenceInTail(s, pat);
      [s[0]] + ReplaceAll(s[1..], pat, rep)
  }

  /** `replace` copies a character at which the pattern does not start. */
  lemma ReplaceAllSkips(c: char, s: string, pat: string, rep: string)
    requires |pat| > 0 && (c != pat[0] || (|pat| > 1 && |s| > 0 && s[0] != pat[1]))
    ensures ReplaceAll([c] + s, pat, rep) == [c] + ReplaceAll(s, pat, rep)
  {
    var t := [c] + s;
    assert t[1..] == s;
    if |t| >= |pat| {
      assert t[..|pat|][0] == c;
      if |pat| > 1 && |s| > 0 {
        assert t[..|pat|][1] == s[0];
      }
    }
    if |t| < |pat| {
      assert forall j :: 0 <= j ==> !OccursAt(s, pat, j);
    }
  }

  /** `replace` rewrites an occurrence at the front and resumes after it. */
  lemma ReplaceAllHits(s: string, pat: string, rep: string)
    requires |pat| > 0
    ensures ReplaceAll(pat + s, pat, rep) == rep + ReplaceAll(s, pat, rep)
  {
    var t := pat + s;
    assert t[..|pat|] == pat && t[|pat|..] == s;
  }

  /** `replace` copies a character at which the pattern does not occur. */
  lemma ReplaceAllMisses(s: string, pat: string, rep: string)
    requires |pat| > 0 && |s| > 0 && !OccursAt(s, pat, 0)
    ensures ReplaceAll(s, pat, rep) == [s[0]] + ReplaceAll(s[1..], pat, rep)
  {
    if |s| < |pat| {
      NoOccurrenceInTail(s, pat);
      assert s == [s[0]] + s[1..];
    }
  }

  /** `replace` copies a prefix at none of whose positions the pattern starts. */
  lemma {:induction false} ReplaceAllKeepsPrefix(pre: string, y: string, pat: string, rep: string)
    requires |pat| > 0
    requires forall i :: 0 <= i < |pre| ==> !OccursAt(pre + y, pat, i)
    ensures ReplaceAll(pre + y, pat, rep) == pre + ReplaceAll(y, pat, rep)
    decreases |pre|
  {
    if |pre| > 0 {
      var t, u := pre + y, pre[1..] + y;
      assert t[1..] == u;
      forall i | 0 <= i < |pre| - 1 ensures !OccursAt(u, pat, i) {
        if OccursAt(u, pat, i) {
          assert t[i + 1..i + 1 + |pat|] == u[i..i + |pat|];
          assert OccursAt(t, pat, i + 1);
        }
      }
      ReplaceAllMisses(t, pat, rep);
      ReplaceAllKeepsPrefix(pre[1..], y, pat, rep);
      var r := ReplaceAll(y, pat, rep);
      calc {
        ReplaceAll(t, pat, rep);
        [pre[0]] + (pre[1..] + r);
        ([pre[0]] + pre[1..]) + r;
        { assert [pre[0]] + pre[1..] == pre; }
        pre + r;
      }
    } else {
      assert pre + y == y;
    }
  }

  lemma NoOccurrenceInTail(s: string, pat: string)
    requires |s| > 0
    ensures (forall j :: 0 <= j ==> !OccursAt(s, pat, j)) ==> (forall j :: 0 <= j ==> !OccursAt(s[1..], pat, j))
  {
    if forall j :: 0 <= j ==> !OccursAt(s, pat, j) {
      forall j | 0 <= j ensures !OccursAt(s[1..], pat, j) {
        if OccursAt(s[1..], pat, j) {
          assert s[j + 1..j + 1 + |pat|] == s[1..][j..j + |pat|];
          assert OccursAt(s, pat, j + 1);
        }
      }
    }
  }

  /** Python `s.replace(pat, rep, 1)`. */
  function ReplaceFirst(s: string, pat: string, rep: string): (r: string)
    ensures Find(s, pat) == -1 ==> r == s
    ensures Find(s, pat) != -1 ==> r == s[..Find(s, pat)] + rep + s[Find(s, pat) + |pat|..]
  {
    var i := Find(s, pat);
    if i == -1 then s else s[..i] + rep + s[i + |pat|..]
  }

  /** Python `s.count(c)` for one character. */
  function Count(s: string, c: char): (n: nat)
    ensures n <= |s|
    ensures n == 0 <==> c !in s
  {
    if |s| == 0 then 0 else (if s[0] == c then 1 else 0) + Count(s[1..], c)
  }

  lemma {:induction false} CountAppend(a: string, b: string, c: char)
    ensures Count(a + b, c) == Count(a, c) + Count(b, c)
    decreases |a|
  {
    if |a| == 0 {
      assert a + b == b;
    } else {
      assert (a + b)[1..] == a[1..] + b;
      CountAppend(a[1..], b, c);
    }
  }

  function Repeat(c: char, n: nat): (r: string)
    ensures |r| == n
    ensures forall i :: 0 <= i < n ==> r[i] == c
  {
    if n == 0 then [] else [c] + Repeat(c, n - 1)
  }

  lemma {:induction false} CountRepeat(c: char, n: nat, d: char)
    ensures Count(Repeat(c, n), d) == (if c == d then n else 0)
  {
    if n > 0 {
      assert Repeat(c, n)[1..] == Repeat(c, n - 1);
      CountRepeat(c, n - 1, d);
    }
  }

  /** Python `s.splitlines()`: "\r\n" is one boundary and a final boundary adds no empty line. */
  function SplitLines(s: string): (lines: seq<string>)
    ensures forall i, j :: 0 <= i < |lines| && 0 <= j < |lines[i]| ==> !IsLineBreak(lines[i][j])
    ensures |s| > 0 ==> |lines| > 0
    ensures (forall i :: 0 <= i < |s| ==> !IsLineBreak(s[i])) && |s| > 0 ==> lines == [s]
    decreases |s|
  {
    if |s| == 0 then []
    else
      var k := LeadingRun(s, c => !IsLineBreak(c));
      if k == |s| then [s]
      else
        var w := if s[k] == '\r' && k + 1 < |s| && s[k + 1] == '\n' then 2 else 1;
        [s[..k]] + SplitLines(s[k + w..])
  }

  /** Python `sep.join(parts)`. */
  function Join(parts: seq<string>, sep: string): (r: string)
    ensures |parts| == 1 ==> r == parts[0]
  {
    if |parts| == 0 then [] else if |parts| == 1 then parts[0] else parts[0] + sep + Join(parts[1..], sep)
  }

  function DigitChar(d: nat): (c: char)
    requires d < 10
    ensures IsDigit(c)
  {
    ('0' as int + d) as char
  }

  function NatToString(n: nat): (r: string)
    ensures |r| > 0
    ensures forall i :: 0 <= i < |r| ==> IsDigit(r[i])
  {
    if n < 10 then [DigitChar(n)] else NatToString(n / 10) + [DigitChar(n % 10)]
  }

  /** Python `str(n)` for an integer. */
  function IntToString(n: int): (r: string)
    ensures |r| > 0
    ensures n >= 0 ==> forall i :: 0 <= i < |r| ==> IsDigit(r[i])
    ensures n < 0 ==> r[0] == '-'
  {
    if n < 0 then "-" + NatToString(-n) else NatToString(n)
  }
}
