/** The few Python string operations the dataset loader relies on:
    `str.lower()`, `str.strip()`, `str.replace(old, new)` and the ordering of
    `str` values (`<`), each stated with the property that pins it down. */
module Strings {

  /** The characters for which Python's `str.isspace()` holds; these are the
      characters `str.strip()` removes when called without an argument. */
  predicate IsSpace(c: char) {
    || ('\t' <= c <= '\r')
    || ('\U{1C}' <= c <= ' ')
    || c == '\U{85}' || c == '\U{A0}' || c == '\U{1680}'
    || ('\U{2000}' <= c <= '\U{200A}')
    || c == '\U{2028}' || c == '\U{2029}' || c == '\U{202F}' || c == '\U{205F}'
    || c == '\U{3000}'
  }

  predicate IsUpper(c: char) {
    'A' <= c <= 'Z'
  }

  /** Every position from `lo` up to `hi` is inside `s` and holds whitespace. */
  predicate SpaceBetween(s: string, lo: int, hi: int) {
    forall k :: lo <= k < hi ==> 0 <= k < |s| && IsSpace(s[k])
  }

  predicate AllSpace(s: string) {
    SpaceBetween(s, 0, |s|)
  }

  /** `str.lower()` on one character (ASCII letters only): an upper-case
      letter becomes the same letter in lower case. */
  function LowerChar(c: char): (d: char)
    ensures !IsUpper(d)
    ensures IsSpace(d) <==> IsSpace(c)
    ensures !IsUpper(c) ==> d == c
    ensures IsUpper(c) ==> 'a' <= d <= 'z' && d as int - 'a' as int == c as int - 'A' as int
  {
    if IsUpper(c) then (c as int + 32) as char else c
  }

  /** `str.lower()`: every character lowered, nothing else changed. The
      result has the input's length and no upper-case letter, whitespace
      stays where it was, each upper-case letter becomes its lower-case
      letter, and every other character is kept. */
  function Lower(s: string): (r: string)
    ensures |r| == |s|
    ensures forall k :: 0 <= k < |s| ==> !IsUpper(r[k]) && (IsSpace(r[k]) <==> IsSpace(s[k]))
    ensures forall k :: 0 <= k < |s| && !IsUpper(s[k]) ==> r[k] == s[k]
    ensures forall k :: 0 <= k < |s| && IsUpper(s[k]) ==>
              'a' <= r[k] <= 'z' && r[k] as int - 'a' as int == s[k] as int - 'A' as int
  {
    seq(|s|, k requires 0 <= k < |s| => LowerChar(s[k]))
  }

  /** The end of the run of whitespace that starts at `i`. */
  function SkipSpace(s: string, i: nat): (n: nat)
    requires i <= |s|
    ensures i <= n <= |s|
    ensures SpaceBetween(s, i, n)
    ensures n == |s| || !IsSpace(s[n])
    decreases |s| - i
  {
    if i < |s| && IsSpace(s[i]) then SkipSpace(s, i + 1) else i
  }

  /** The start of the run of whitespace that ends at `j`, not going below `lo`. */
  function SkipSpaceBack(s: string, lo: nat, j: nat): (n: nat)
    requires lo <= j <= |s|
    ensures lo <= n <= j
    ensures SpaceBetween(s, n, j)
    ensures n == lo || !IsSpace(s[n - 1])
    decreases j
  {
    if lo < j && IsSpace(s[j - 1]) then SkipSpaceBack(s, lo, j - 1) else j
  }

  /** `str.strip()` without an argument: skip the whitespace at the front, then
      the whitespace at the back of what is left. */
  function Strip(s: string): (r: string)
    ensures |r| <= |s|
    ensures r == [] || (!IsSpace(r[0]) && !IsSpace(r[|r| - 1]))
  {
    var i := SkipSpace(s, 0);
    s[i..SkipSpaceBack(s, i, |s|)]
  }

  /** The meaning of stripping, independent of how it is computed: `r` is a
      slice of `s`, everything of `s` around the slice is whitespace, and `r`
      neither starts nor ends with whitespace. */
  ghost predicate StrippedFrom(r: string, s: string) {
    && (r == [] || (!IsSpace(r[0]) && !IsSpace(r[|r| - 1])))
    && exists i :: 0 <= i <= |s| - |r| && s[i..i + |r|] == r && SpaceBetween(s, 0, i) && SpaceBetween(s, i + |r|, |s|)
  }

  lemma StripIsStripped(s: string)
    ensures StrippedFrom(Strip(s), s)
  {
    var i := SkipSpace(s, 0);
    var j := SkipSpaceBack(s, i, |s|);
    assert s[i..i + (j - i)] == Strip(s);
  }

  /** Stripping is determined by its meaning: any `r` that is a whitespace-free
      slice of `s` with only whitespace around it is `Strip(s)`. */
  lemma StrippedIsStrip(r: string, s: string)
    requires StrippedFrom(r, s)
    ensures r == Strip(s)
  {
    var i :| 0 <= i <= |s| - |r| && s[i..i + |r|] == r && SpaceBetween(s, 0, i) && SpaceBetween(s, i + |r|, |s|);
    if r == [] {
      assert SpaceBetween(s, 0, |s|);
      StripAllSpace(s);
    } else {
      StripSlice(r, s, i);
    }
  }

  /** A string made only of whitespace strips to the empty string. */
  lemma StripAllSpace(s: string)
    requires AllSpace(s)
    ensures Strip(s) == []
  {
    var n := SkipSpace(s, 0);
  }

  lemma StripSlice(r: string, s: string, i: nat)
    requires r != [] && !IsSpace(r[0]) && !IsSpace(r[|r| - 1])
    requires i + |r| <= |s| && s[i..i + |r|] == r && SpaceBetween(s, 0, i) && SpaceBetween(s, i + |r|, |s|)
    ensures Strip(s) == r
  {
    var j := i + |r|;
    assert s[i] == r[0] && s[j - 1] == r[|r| - 1];
    var n := SkipSpace(s, 0);
    var m := SkipSpaceBack(s, i, |s|);
  }

  /** Stripping twice is stripping once. */
  lemma StripIdempotent(s: string)
    ensures Strip(Strip(s)) == Strip(s)
  {
    var r := Strip(s);
    assert r[0..0 + |r|] == r && SpaceBetween(r, 0, 0) && SpaceBetween(r, 0 + |r|, |r|);
    assert StrippedFrom(r, r);
    StrippedIsStrip(r, r);
  }

  /** Lower-casing leaves a string without upper-case letters unchanged. */
  lemma LowerUnchanged(s: string)
    requires forall k :: 0 <= k < |s| ==> !IsUpper(s[k])
    ensures Lower(s) == s
  {
  }

  /** Stripping only removes characters: every character of the result is one of `s`. */
  lemma StripKeepsCharacters(s: string)
    ensures forall k :: 0 <= k < |Strip(s)| ==> Strip(s)[k] in s
  {
    var i := SkipSpace(s, 0);
    var r := Strip(s);
    forall k | 0 <= k < |r| ensures r[k] in s {
      assert r[k] == s[i + k];
    }
  }

  /** Stripping a string without upper-case letters leaves none. */
  lemma StripKeepsLowerCase(s: string)
    requires forall k :: 0 <= k < |s| ==> !IsUpper(s[k])
    ensures forall k :: 0 <= k < |Strip(s)| ==> !IsUpper(Strip(s)[k])
  {
    var i := SkipSpace(s, 0);
    forall k | 0 <= k < |Strip(s)| ensures !IsUpper(Strip(s)[k]) {
      assert Strip(s)[k] == s[i + k];
    }
  }

  /** Two characters equal up to ASCII letter case. */
  predicate SameIgnoringCase(c: char, d: char) {
    || c == d
    || (IsUpper(c) && d as int == c as int + 32)
    || (IsUpper(d) && c as int == d as int + 32)
  }

  /** Lower-casing folds case: strings equal up to the case of their ASCII
      letters lower-case to the same string. */
  lemma LowerIgnoresCase(s: string, t: string)
    requires |s| == |t| && forall k :: 0 <= k < |s| ==> SameIgnoringCase(s[k], t[k])
    ensures Lower(s) == Lower(t)
  {
    forall k | 0 <= k < |s| ensures Lower(s)[k] == Lower(t)[k] {
      assert Lower(s)[k] == LowerChar(s[k]) && Lower(t)[k] == LowerChar(t[k]);
    }
  }

  /** Whether `pat` occurs in `s` starting at position `i`. */
  predicate OccursAt(s: string, pat: string, i: nat) {
    i + |pat| <= |s| && s[i..i + |pat|] == pat
  }

  /** Python's `str.replace(pat, rep)`: every non-overlapping occurrence of
      `pat`, found scanning from the left, is replaced by `rep`; an empty `pat`
      matches before every character and once more at the end. Replacing a
      pattern by itself changes nothing, and replacing it by a string of the
      same length keeps the length. */
  function Replace(s: string, pat: string, rep: string): (r: string)
    ensures pat != [] && rep == pat ==> r == s
    ensures pat != [] && |rep| == |pat| ==> |r| == |s|
    decreases |s|
  {
    if pat == [] then
      if s == [] then rep else rep + [s[0]] + Replace(s[1..], pat, rep)
    else if s == [] then []
    else if OccursAt(s, pat, 0) then rep + Replace(s[|pat|..], pat, rep)
    else [s[0]] + Replace(s[1..], pat, rep)
  }

  /** A prefix of `s` in which `pat` does not start is copied unchanged. */
  lemma {:induction false} ReplaceSkips(s: string, pat: string, rep: string, j: nat)
    requires pat != [] && j <= |s|
    requires forall i :: 0 <= i < j ==> !OccursAt(s, pat, i)
    ensures Replace(s, pat, rep) == s[..j] + Replace(s[j..], pat, rep)
    decreases j
  {
    if j > 0 {
      var t := s[1..];
      ReplaceCopiesFirst(s, pat, rep);
      NoOccurrenceInTail(s, pat, j);
      ReplaceSkips(t, pat, rep, j - 1);
      SplitAfterFirst(s, j);
      ConcatAssociative([s[0]], t[..j - 1], Replace(t[j - 1..], pat, rep));
    }
  }

  lemma ConcatAssociative<T>(a: seq<T>, b: seq<T>, c: seq<T>)
    ensures a + (b + c) == (a + b) + c
  {
  }

  /** Where `pat` does not start at the front, the first character is copied. */
  lemma ReplaceCopiesFirst(s: string, pat: string, rep: string)
    requires pat != [] && s != [] && !OccursAt(s, pat, 0)
    ensures Replace(s, pat, rep) == [s[0]] + Replace(s[1..], pat, rep)
  {
  }

  lemma SplitAfterFirst<T>(s: seq<T>, j: nat)
    requires 0 < j <= |s|
    ensures s[..j] == [s[0]] + s[1..][..j - 1]
    ensures s[j..] == s[1..][j - 1..]
  {
  }

  lemma NoOccurrenceInTail(s: string, pat: string, j: nat)
    requires 0 < j <= |s|
    requires forall i :: 0 <= i < j ==> !OccursAt(s, pat, i)
    ensures forall i :: 0 <= i < j - 1 ==> !OccursAt(s[1..], pat, i)
  {
    forall i | 0 <= i < j - 1 ensures !OccursAt(s[1..], pat, i) {
      if OccursAt(s[1..], pat, i) {
        OccursInSuffix(s, pat, 1, i);
        assert false;
      }
    }
  }

  /** The first occurrence of `pat`, at `j`, is replaced and the scan resumes
      after it: applied repeatedly, every non-overlapping occurrence is
      replaced, from the left. */
  lemma {:induction false} ReplaceFirstOccurrence(s: string, pat: string, rep: string, j: nat)
    requires pat != [] && OccursAt(s, pat, j)
    requires forall i :: 0 <= i < j ==> !OccursAt(s, pat, i)
    ensures Replace(s, pat, rep) == s[..j] + rep + Replace(s[j + |pat|..], pat, rep)
  {
    var q := s[j + |pat|..];
    assert s[j..] == pat + q by {
      assert s[j..j + |pat|] == pat;
    }
    assert Replace(s, pat, rep) == s[..j] + Replace(s[j..], pat, rep) by {
      ReplaceSkips(s, pat, rep, j);
    }
    assert Replace(s[j..], pat, rep) == rep + Replace(q, pat, rep) by {
      ReplaceAtFront(pat, q, rep);
    }
    ConcatAssociative(s[..j], rep, Replace(q, pat, rep));
  }

  /** A string in which `pat` never occurs is left unchanged. */
  lemma ReplaceAbsent(s: string, pat: string, rep: string)
    requires pat != []
    requires forall i :: 0 <= i <= |s| ==> !OccursAt(s, pat, i)
    ensures Replace(s, pat, rep) == s
  {
    ReplaceSkips(s, pat, rep, |s|);
    assert s[..|s|] == s && s[|s|..] == [];
  }

  /** Occurrences in a suffix of `s` are occurrences in `s`, shifted. */
  lemma OccursInSuffix(s: string, pat: string, d: nat, i: nat)
    requires d <= |s| && OccursAt(s[d..], pat, i)
    ensures OccursAt(s, pat, d + i)
  {
    assert s[d..][i..i + |pat|] == s[d + i..d + i + |pat|];
  }

  /** A string in which `pat` occurs exactly once, as `p + pat + q`, becomes
      `p + rep + q`. */
  lemma ReplaceSingle(p: string, pat: string, q: string, rep: string)
    requires pat != []
    requires forall i :: 0 <= i <= |p + pat + q| && i != |p| ==> !OccursAt(p + pat + q, pat, i)
    ensures Replace(p + pat + q, pat, rep) == p + rep + q
  {
    var s := p + pat + q;
    NoOccurrenceBefore(p, pat, q);
    ReplaceSkips(s, pat, rep, |p|);
    SplitAround(p, pat, q);
    ReplaceAtFront(pat, q, rep);
    NoOccurrenceAfter(p, pat, q);
    ReplaceAbsent(q, pat, rep);
    ConcatAssociative(p, rep, q);
  }

  /** An occurrence at the front is replaced and the scan resumes after it. */
  lemma ReplaceAtFront(pat: string, q: string, rep: string)
    requires pat != []
    ensures Replace(pat + q, pat, rep) == rep + Replace(q, pat, rep)
  {
    var u := pat + q;
    assert u[0..|pat|] == pat;
    assert u[|pat|..] == q;
  }

  lemma NoOccurrenceBefore(p: string, pat: string, q: string)
    requires forall i :: 0 <= i <= |p + pat + q| && i != |p| ==> !OccursAt(p + pat + q, pat, i)
    ensures forall i :: 0 <= i < |p| ==> !OccursAt(p + pat + q, pat, i)
  {
  }

  lemma SplitAround<T>(p: seq<T>, pat: seq<T>, q: seq<T>)
    ensures (p + pat + q)[..|p|] == p && (p + pat + q)[|p|..] == pat + q
  {
  }

  lemma NoOccurrenceAfter(p: string, pat: string, q: string)
    requires pat != []
    requires forall i :: 0 <= i <= |p + pat + q| && i != |p| ==> !OccursAt(p + pat + q, pat, i)
    ensures forall i :: 0 <= i <= |q| ==> !OccursAt(q, pat, i)
  {
    var s := p + pat + q;
    assert s[|p| + |pat|..] == q;
    forall i | 0 <= i <= |q| ensures !OccursAt(q, pat, i) {
      if OccursAt(q, pat, i) {
        OccursInSuffix(s, pat, |p| + |pat|, i);
        assert false;
      }
    }
  }

  /** Python's `<` on `str`: lexicographic by code point, a proper prefix
      coming first. */
  predicate Less(a: string, b: string) {
    if b == [] then false
    else if a == [] then true
    else if a[0] != b[0] then a[0] < b[0]
    else Less(a[1..], b[1..])
  }

  lemma {:induction false} LessIrreflexive(a: string)
    ensures !Less(a, a)
  {
    if a != [] {
      LessIrreflexive(a[1..]);
    }
  }

  lemma {:induction false} LessTransitive(a: string, b: string, c: string)
    requires Less(a, b) && Less(b, c)
    ensures Less(a, c)
  {
    if a != [] && a[0] == b[0] && b[0] == c[0] {
      LessTransitive(a[1..], b[1..], c[1..]);
    }
  }

  lemma {:induction false} LessTotal(a: string, b: string)
    requires a != b
    ensures Less(a, b) || Less(b, a)
  {
    if a != [] && b != [] && a[0] == b[0] {
      assert a == [a[0]] + a[1..] && b == [b[0]] + b[1..];
      LessTotal(a[1..], b[1..]);
    }
  }
}
