/**
 * The file-name sanitiser of utils/file_helpers.py (`get_safe_filename`):
 * Turkish letters are transliterated, every other character outside
 * `[A-Za-z0-9_-]` becomes `_`, runs of `_` collapse to one, and `_` is
 * stripped from both ends.
 */
module FileHelpers {
  import opened Text

  /** The transliteration table, in the dictionary's order. */
  const TurkishPairs: seq<(char, char)> := [
    ('ç', 'c'), ('ğ', 'g'), ('ı', 'i'), ('ö', 'o'), ('ş', 's'), ('ü', 'u'),
    ('Ç', 'C'), ('Ğ', 'G'), ('İ', 'I'), ('Ö', 'O'), ('Ş', 'S'), ('Ü', 'U')
  ]

  /** The characters a safe name may contain: `[A-Za-z0-9_-]`. */
  predicate IsSafeChar(c: char) { IsAsciiLetter(c) || IsDigit(c) || c == '-' || c == '_' }

  /** A character after the first `n` replacements of the transliteration loop. */
  function TransThrough(c: char, n: nat): char
    requires n <= |TurkishPairs|
  {
    if n == 0 then c
    else
      var d := TransThrough(c, n - 1);
      if d == TurkishPairs[n - 1].0 then TurkishPairs[n - 1].1 else d
  }

  /** The transliteration of one character: all twelve replacements applied. */
  function Transliterate(c: char): char { TransThrough(c, |TurkishPairs|) }

  /** Replacing a one-character pattern by one character maps the string character by character. */
  lemma {:induction false} ReplaceChar(s: string, a: char, b: char)
    ensures ReplaceAll(s, [a], [b]) == seq(|s|, i requires 0 <= i < |s| => if s[i] == a then b else s[i])
    decreases |s|
  {
    var m := seq(|s|, i requires 0 <= i < |s| => if s[i] == a then b else s[i]);
    if |s| > 0 {
      ReplaceChar(s[1..], a, b);
      assert m == [m[0]] + m[1..];
    }
  }

  /** A character no earlier replacement targets goes through them unchanged. */
  lemma {:induction false} UntouchedChar(c: char, n: nat)
    requires n <= |TurkishPairs|
    requires forall k :: 0 <= k < n ==> TurkishPairs[k].0 != c
    ensures TransThrough(c, n) == c
  {
    if n > 0 {
      UntouchedChar(c, n - 1);
    }
  }

  /** Once a character is plain ASCII, the remaining replacements keep it. */
  lemma {:induction false} AsciiStays(c: char, i: nat, n: nat)
    requires i <= n <= |TurkishPairs|
    requires TransThrough(c, i) < 128 as char
    ensures TransThrough(c, n) == TransThrough(c, i)
    decreases n - i
  {
    if i < n {
      AsciiStays(c, i, n - 1);
      assert TurkishPairs[n - 1].0 >= 128 as char;
    }
  }

  /** Each Turkish letter becomes its ASCII letter, whatever the order of the table. */
  lemma TransliterationTable(k: nat)
    requires k < |TurkishPairs|
    ensures Transliterate(TurkishPairs[k].0) == TurkishPairs[k].1
  {
    var c := TurkishPairs[k].0;
    UntouchedChar(c, k);
    AsciiStays(c, k + 1, |TurkishPairs|);
  }

  /** Any other character is left as it is. */
  lemma TransliterationKeepsOthers(c: char)
    requires forall k :: 0 <= k < |TurkishPairs| ==> TurkishPairs[k].0 != c
    ensures Transliterate(c) == c
  {
    UntouchedChar(c, |TurkishPairs|);
  }

  /** The twelve letters go to twelve different ASCII letters. */
  lemma TransliterationOneToOne(k: nat, l: nat)
    requires k < l < |TurkishPairs|
    ensures Transliterate(TurkishPairs[k].0) != Transliterate(TurkishPairs[l].0)
    ensures IsAsciiLetter(Transliterate(TurkishPairs[k].0))
  {
    TransliterationTable(k);
    TransliterationTable(l);
  }

  /** The character filter: the generator expression joined back into a string. */
  function FilterUnsafe(s: string): (r: string)
    ensures |r| == |s|
    ensures forall i :: 0 <= i < |s| ==> IsSafeChar(r[i])
    ensures forall i :: 0 <= i < |s| ==> r[i] == (if IsSafeChar(s[i]) then s[i] else '_')
  {
    seq(|s|, i requires 0 <= i < |s| => if IsSafeChar(s[i]) then s[i] else '_')
  }

  /** No two underscores in a row. */
  predicate NoDouble(s: string) {
    forall i :: 0 <= i < |s| - 1 ==> !(s[i] == '_' && s[i + 1] == '_')
  }

  /** Every run of underscores shortened to one: what the `while '__' in name` loop computes. */
  function Squeeze(s: string): (r: string)
    ensures |r| <= |s|
    ensures |s| > 0 ==> |r| > 0 && r[0] == s[0]
    ensures NoDouble(r)
    ensures forall c :: c in r ==> c in s
  {
    if |s| <= 1 then s
    else if s[0] == '_' && s[1] == '_' then Squeeze(s[1..])
    else [s[0]] + Squeeze(s[1..])
  }

  /** A string without double underscores is already squeezed. */
  lemma {:induction false} SqueezeKeeps(s: string)
    requires NoDouble(s)
    ensures Squeeze(s) == s
    decreases |s|
  {
    if |s| > 1 {
      SqueezeKeeps(s[1..]);
    }
  }

  /** `replace` keeps the first character when the pattern and replacement start alike. */
  lemma ReplaceKeepsFirst(s: string)
    requires |s| > 0
    ensures |ReplaceAll(s, "__", "_")| > 0 && ReplaceAll(s, "__", "_")[0] == s[0]
  {
  }

  /** Squeezing `[c] + x` depends only on `c` and the squeezed `x`. */
  lemma SqueezeCons(c: char, x: string)
    ensures Squeeze([c] + x) ==
      (if |x| > 0 && c == '_' && Squeeze(x)[0] == '_' then Squeeze(x) else [c] + Squeeze(x))
  {
    assert ([c] + x)[1..] == x;
  }

  /** One pass of `replace('__', '_')` changes nothing the squeeze can see. */
  lemma {:induction false} SqueezeReplace(s: string)
    ensures Squeeze(ReplaceAll(s, "__", "_")) == Squeeze(s)
    decreases |s|
  {
    if |s| >= 2 {
      if s[0] == '_' && s[1] == '_' {
        SqueezeReplace(s[2..]);
        SqueezeReplacePair(s);
      } else {
        SqueezeReplace(s[1..]);
        SqueezeReplaceOther(s);
      }
    }
  }

  /** The step of `SqueezeReplace` where the text opens with `__`. */
  lemma SqueezeReplacePair(s: string)
    requires |s| >= 2 && s[0] == '_' && s[1] == '_'
    requires Squeeze(ReplaceAll(s[2..], "__", "_")) == Squeeze(s[2..])
    ensures Squeeze(ReplaceAll(s, "__", "_")) == Squeeze(s)
  {
    var t := s[2..];
    var rt := ReplaceAll(t, "__", "_");
    if |t| > 0 {
      ReplaceKeepsFirst(t);
    }
    ReplacePairHead(s);
    SqueezePairHead(s);
    SqueezeCons('_', t);
    SqueezeCons('_', rt);
  }

  lemma ReplacePairHead(s: string)
    requires |s| >= 2 && s[0] == '_' && s[1] == '_'
    ensures ReplaceAll(s, "__", "_") == ['_'] + ReplaceAll(s[2..], "__", "_")
  {
    assert s[..2] == "__";
  }

  lemma SqueezePairHead(s: string)
    requires |s| >= 2 && s[0] == '_' && s[1] == '_'
    ensures Squeeze(s) == Squeeze(['_'] + s[2..])
  {
    assert s[1..] == ['_'] + s[2..];
  }

  /** The step of `SqueezeReplace` where the text does not open with `__`. */
  lemma SqueezeReplaceOther(s: string)
    requires |s| >= 2 && !(s[0] == '_' && s[1] == '_')
    requires Squeeze(ReplaceAll(s[1..], "__", "_")) == Squeeze(s[1..])
    ensures Squeeze(ReplaceAll(s, "__", "_")) == Squeeze(s)
  {
    var t := s[1..];
    var rt := ReplaceAll(t, "__", "_");
    ReplaceKeepsFirst(t);
    ReplaceOtherHead(s);
    SqueezeOtherHead(s);
    SqueezeKeepsHead(s[0], rt);
  }

  lemma ReplaceOtherHead(s: string)
    requires |s| >= 2 && !(s[0] == '_' && s[1] == '_')
    ensures ReplaceAll(s, "__", "_") == [s[0]] + ReplaceAll(s[1..], "__", "_")
  {
    assert s[..2] != "__" by {
      assert s[..2][0] == s[0] && s[..2][1] == s[1];
    }
  }

  lemma SqueezeOtherHead(s: string)
    requires |s| >= 2 && !(s[0] == '_' && s[1] == '_')
    ensures Squeeze(s) == [s[0]] + Squeeze(s[1..])
  {
  }

  /** A character that does not start a `__` stays in front of the squeezed rest. */
  lemma SqueezeKeepsHead(c: char, x: string)
    requires |x| > 0 && !(c == '_' && x[0] == '_')
    ensures Squeeze([c] + x) == [c] + Squeeze(x)
  {
    assert ([c] + x)[1..] == x;
  }

  /** A pass of `replace('__', '_')` never lengthens the text. */
  lemma {:induction false} ReplaceNoLonger(s: string)
    ensures |ReplaceAll(s, "__", "_")| <= |s|
    decreases |s|
  {
    if |s| >= 2 {
      if s[..2] == "__" {
        ReplaceNoLonger(s[2..]);
      } else {
        ReplaceNoLonger(s[1..]);
      }
    }
  }

  /** A pass of `replace('__', '_')` over a text holding `__` shortens it. */
  lemma {:induction false} ReplaceShrinks(s: string, j: nat)
    requires OccursAt(s, "__", j)
    ensures |ReplaceAll(s, "__", "_")| < |s|
    decreases j
  {
    if s[..2] == "__" {
      ReplaceNoLonger(s[2..]);
    } else {
      assert j > 0;
      assert s[1..][j - 1..j + 1] == s[j..j + 2];
      ReplaceShrinks(s[1..], j - 1);
    }
  }

  /** `'__' in s` is the absence of the squeezed form. */
  lemma NoDoubleIffNoPair(s: string)
    ensures NoDouble(s) <==> !Contains(s, "__")
  {
    if Contains(s, "__") {
      var j := Find(s, "__");
      assert s[j..j + 2] == "__";
      assert s[j] == '_' && s[j + 1] == '_';
    }
    if !NoDouble(s) {
      var j :| 0 <= j < |s| - 1 && s[j] == '_' && s[j + 1] == '_';
      assert s[j..j + 2] == "__";
      ContainsIff(s, "__", j);
    }
  }

  /** Slicing keeps a string free of double underscores. */
  lemma NoDoubleSlice(s: string, a: nat, b: nat)
    requires NoDouble(s) && a <= b <= |s|
    ensures NoDouble(s[a..b])
  {
    forall i | 0 <= i < b - a - 1 ensures !(s[a..b][i] == '_' && s[a..b][i + 1] == '_') {
      assert s[a..b][i] == s[a + i] && s[a..b][i + 1] == s[a + i + 1];
    }
  }

  /** `name.strip('_')` of a string without double underscores has none either. */
  lemma StripKeepsNoDouble(s: string)
    requires NoDouble(s)
    ensures NoDouble(StripChar(s, '_'))
  {
    var t := s[LeadingRun(s, c => c == '_')..];
    NoDoubleSlice(s, LeadingRun(s, c => c == '_'), |s|);
    NoDoubleSlice(t, 0, TrailingRun(t, c => c == '_'));
  }

  /** `get_safe_filename`, as the composition of its four steps. */
  function SafeFilename(name: string): string
  {
    var transliterated := seq(|name|, i requires 0 <= i < |name| => Transliterate(name[i]));
    StripChar(Squeeze(FilterUnsafe(transliterated)), '_')
  }

  /** `get_safe_filename` step by step: the replacement loop, the filter, the collapsing loop, the strip. */
  method GetSafeFilename(name: string) returns (safe: string)
    ensures safe == SafeFilename(name)
  {
    safe := name;
    var i := 0;
    while i < |TurkishPairs|
      invariant 0 <= i <= |TurkishPairs|
      invariant |safe| == |name|
      invariant forall j :: 0 <= j < |safe| ==> safe[j] == TransThrough(name[j], i)
    {
      ReplaceChar(safe, TurkishPairs[i].0, TurkishPairs[i].1);
      safe := ReplaceAll(safe, [TurkishPairs[i].0], [TurkishPairs[i].1]);
      i := i + 1;
    }
    assert safe == seq(|name|, j requires 0 <= j < |name| => Transliterate(name[j]));
    safe := FilterUnsafe(safe);
    ghost var filtered := safe;
    while Contains(safe, "__")
      invariant Squeeze(safe) == Squeeze(filtered)
      decreases |safe|
    {
      ReplaceShrinks(safe, Find(safe, "__"));
      SqueezeReplace(safe);
      safe := ReplaceAll(safe, "__", "_");
    }
    NoDoubleIffNoPair(safe);
    SqueezeKeeps(safe);
    safe := StripChar(safe, '_');
  }

  /**
   * A safe name uses only `[A-Za-z0-9_-]`, has no `__`, neither starts nor
   * ends with `_`, and is never longer than the original.
   */
  lemma SafeFilenameShape(name: string)
    ensures var r := SafeFilename(name);
            (forall i :: 0 <= i < |r| ==> IsSafeChar(r[i]))
            && NoDouble(r) && !Contains(r, "__")
            && (r == [] || (r[0] != '_' && r[|r| - 1] != '_'))
            && |r| <= |name|
  {
    var transliterated := seq(|name|, i requires 0 <= i < |name| => Transliterate(name[i]));
    var squeezed := Squeeze(FilterUnsafe(transliterated));
    var r := SafeFilename(name);
    forall i | 0 <= i < |r| ensures IsSafeChar(r[i]) {
      assert r[i] in r;
    }
    StripKeepsNoDouble(squeezed);
    NoDoubleIffNoPair(r);
  }

  /** A safe character is not a Turkish letter. */
  lemma SafeCharsAreNotTurkish(c: char)
    requires IsSafeChar(c)
    ensures Transliterate(c) == c
  {
    forall k | 0 <= k < |TurkishPairs| ensures TurkishPairs[k].0 != c {
      assert TurkishPairs[k].0 >= 128 as char;
    }
    TransliterationKeepsOthers(c);
  }

  /** Sanitising a safe name changes nothing. */
  lemma SafeFilenameIdempotent(name: string)
    ensures SafeFilename(SafeFilename(name)) == SafeFilename(name)
  {
    var r := SafeFilename(name);
    SafeFilenameShape(name);
    var transliterated := seq(|r|, i requires 0 <= i < |r| => Transliterate(r[i]));
    forall i | 0 <= i < |r| ensures transliterated[i] == r[i] {
      SafeCharsAreNotTurkish(r[i]);
    }
    assert transliterated == r;
    assert FilterUnsafe(r) == r;
    SqueezeKeeps(r);
    assert LeadingRun(r, c => c == '_') == 0;
    assert r[0..] == r;
    assert TrailingRun(r, c => c == '_') == |r|;
  }
}
