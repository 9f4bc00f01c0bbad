/**
 * The regular-expression searches that pull a bracketed block out of a model
 * response, written as explicit index searches with `re.search` semantics
 * (leftmost start, lazy group, DOTALL):
 *   ```json\s*(\[.*?\])\s*```    ```\s*(\[.*?\])\s*```    json\s*(\[.*?\])
 *   ```json\s*(\{.*?\})\s*```
 * `\s*` before the bracket never backtracks usefully (a bracket is not
 * whitespace), so the bracket position is fixed by the start; the lazy group
 * then ends at the earliest closing bracket that lets the rest match.
 */
module Fences {
  import opened Text
  import opened Json
  import opened Wrappers

  /** A pattern `lead\s*(open.*?close)` optionally followed by `\s*```` `. */
  datatype FencePattern = FencePattern(lead: string, open: char, close: char, fenced: bool)

  const JsonArrayFence := FencePattern("```json", '[', ']', true)
  const BareArrayFence := FencePattern("```", '[', ']', true)
  const JsonArrayLabel := FencePattern("json", '[', ']', false)
  const JsonObjectFence := FencePattern("```json", '{', '}', true)

  /** The index just past the whitespace run that starts at `i`. */
  function SkipSpace(s: string, i: nat): (j: nat)
    requires i <= |s|
    ensures i <= j <= |s|
    ensures forall k :: i <= k < j ==> IsSpace(s[k])
    ensures j == |s| || !IsSpace(s[j])
    decreases |s| - i
  {
    if i == |s| || !IsSpace(s[i]) then i else SkipSpace(s, i + 1)
  }

  /** The group may end with the character at `e`: it is the closing bracket and, for a fenced pattern, whitespace and a fence follow. */
  predicate ClosesAt(s: string, pat: FencePattern, e: nat)
    requires e < |s|
  {
    s[e] == pat.close && (!pat.fenced || OccursAt(s, "```", SkipSpace(s, e + 1)))
  }

  /** The earliest `e >= i` at which the group may end. */
  function CloseFrom(s: string, pat: FencePattern, i: nat): (r: Option<nat>)
    requires i <= |s|
    ensures r.Some? ==> i <= r.value < |s| && ClosesAt(s, pat, r.value)
    ensures forall e :: i <= e < |s| && (r.None? || e < r.value) ==> !ClosesAt(s, pat, e)
    decreases |s| - i
  {
    if i == |s| then None else if ClosesAt(s, pat, i) then Some(i) else CloseFrom(s, pat, i + 1)
  }

  /** A match starting at `start` whose group is `s[groupStart..groupEnd]`. */
  datatype Match = Match(start: nat, groupStart: nat, groupEnd: nat)

  /** The match of `pat` that starts exactly at `p`, if any. */
  function MatchAt(s: string, pat: FencePattern, p: nat): (r: Option<Match>)
    requires p <= |s|
    ensures r.Some? ==> r.value.start == p && OccursAt(s, pat.lead, p)
    ensures r.Some? ==> r.value.groupStart == SkipSpace(s, p + |pat.lead|)
    ensures r.Some? ==> r.value.groupStart + 2 <= r.value.groupEnd <= |s|
    ensures r.Some? ==> s[r.value.groupStart] == pat.open && ClosesAt(s, pat, r.value.groupEnd - 1)
    ensures r.Some? ==> forall e :: r.value.groupStart < e < r.value.groupEnd - 1 ==> !ClosesAt(s, pat, e)
    ensures r.None? && OccursAt(s, pat.lead, p) && SkipSpace(s, p + |pat.lead|) < |s| && s[SkipSpace(s, p + |pat.lead|)] == pat.open
            ==> forall e :: SkipSpace(s, p + |pat.lead|) < e < |s| ==> !ClosesAt(s, pat, e)
  {
    if !OccursAt(s, pat.lead, p) then None
    else
      var q := SkipSpace(s, p + |pat.lead|);
      if q == |s| || s[q] != pat.open then None
      else match CloseFrom(s, pat, q + 1)
        case None => None
        case Some(e) => Some(Match(p, q, e + 1))
  }

  /** `re.search`: the match with the leftmost start at or after `p`. */
  function SearchFrom(s: string, pat: FencePattern, p: nat): (r: Option<Match>)
    requires p <= |s|
    ensures r.Some? ==> p <= r.value.start <= |s| && MatchAt(s, pat, r.value.start) == r
    ensures forall p' :: p <= p' <= |s| && (r.None? || p' < r.value.start) ==> MatchAt(s, pat, p').None?
    decreases |s| - p
  {
    var m := MatchAt(s, pat, p);
    if m.Some? then m else if p == |s| then None else SearchFrom(s, pat, p + 1)
  }

  /** `match.group(1)` of `re.search(pat, s, re.DOTALL)`, or None when nothing matches. */
  function Search(s: string, pat: FencePattern): (r: Option<string>)
    ensures r.Some? ==> |r.value| >= 2 && r.value[0] == pat.open && r.value[|r.value| - 1] == pat.close
  {
    match SearchFrom(s, pat, 0)
    case None => None
    case Some(m) => Some(s[m.groupStart..m.groupEnd])
  }

  /** The search finds nothing exactly when the pattern matches at no position. */
  lemma SearchNoneIff(s: string, pat: FencePattern)
    ensures Search(s, pat).None? <==> forall p :: 0 <= p <= |s| ==> MatchAt(s, pat, p).None?
  {
    if SearchFrom(s, pat, 0).Some? {
      var m := SearchFrom(s, pat, 0).value;
      assert MatchAt(s, pat, m.start).Some?;
    }
  }

  /** The unfenced label pattern ends its group at the first closing bracket after the opening one. */
  lemma LabelGroupEndsAtFirstClose(s: string, p: nat)
    requires p <= |s|
    requires MatchAt(s, JsonArrayLabel, p).Some?
    ensures var m := MatchAt(s, JsonArrayLabel, p).value;
            s[m.groupEnd - 1] == ']' && forall e :: m.groupStart < e < m.groupEnd - 1 ==> s[e] != ']'
  {
    var m := MatchAt(s, JsonArrayLabel, p).value;
    forall e | m.groupStart < e < m.groupEnd - 1 ensures s[e] != ']' {
      assert !ClosesAt(s, JsonArrayLabel, e);
    }
  }

  /** A fenced group ends at a bracket followed by optional whitespace and a closing fence. */
  lemma FencedGroupEndsBeforeFence(s: string, pat: FencePattern, p: nat)
    requires p <= |s| && pat.fenced
    requires MatchAt(s, pat, p).Some?
    ensures var m := MatchAt(s, pat, p).value;
            OccursAt(s, "```", SkipSpace(s, m.groupEnd))
  {
  }
}
