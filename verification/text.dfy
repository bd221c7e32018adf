/** The two string operations the CSV import applies to cells: `str.strip()` and `replace(',', '.')`. */
module Text {

  /** Python's `str.isspace()` for a single character. */
  predicate IsSpace(c: char)
  {
    || c == ' '
    || '\t' <= c <= '\r'
    || '\U{1C}' <= c <= '\U{1F}'
    || c == '\U{85}' || c == '\U{A0}' || c == '\U{1680}'
    || '\U{2000}' <= c <= '\U{200A}'
    || c == '\U{2028}' || c == '\U{2029}' || c == '\U{202F}' || c == '\U{205F}'
    || c == '\U{3000}'
  }

  /** Every character of `s` is whitespace (vacuously so for ""). */
  predicate AllSpace(s: string)
  {
    forall k :: 0 <= k < |s| ==> IsSpace(s[k])
  }

  /** The first position at or after `i` that does not hold whitespace, or `|s|`. */
  function SkipSpaces(s: string, i: nat): (j: nat)
    requires i <= |s|
    ensures i <= j <= |s|
    ensures forall k :: i <= k < j ==> IsSpace(s[k])
    ensures j < |s| ==> !IsSpace(s[j])
    decreases |s| - i
  {
    if i == |s| || !IsSpace(s[i]) then i else SkipSpaces(s, i + 1)
  }

  /** The end of `s[lo..hi]` once its trailing whitespace is dropped. */
  function SkipSpacesBack(s: string, lo: nat, hi: nat): (j: nat)
    requires lo <= hi <= |s|
    ensures lo <= j <= hi
    ensures forall k :: j <= k < hi ==> IsSpace(s[k])
    ensures lo < j ==> !IsSpace(s[j - 1])
    decreases hi
  {
    if hi == lo || !IsSpace(s[hi - 1]) then hi else SkipSpacesBack(s, lo, hi - 1)
  }

  /** Where the stripped text starts. */
  function StripStart(s: string): nat
  {
    SkipSpaces(s, 0)
  }

  /** Where the stripped text ends. */
  function StripEnd(s: string): nat
  {
    SkipSpacesBack(s, StripStart(s), |s|)
  }

  /**
   * `s.strip()`: `s` is the result with whitespace, and only whitespace, on
   * either side, and the result neither starts nor ends with whitespace. It
   * is empty exactly when `s` is blank.
   */
  function Strip(s: string): (r: string)
    ensures |r| <= |s|
    ensures |r| > 0 ==> !IsSpace(r[0]) && !IsSpace(r[|r| - 1])
    ensures StripStart(s) <= StripEnd(s) <= |s|
    ensures s == s[..StripStart(s)] + r + s[StripEnd(s)..]
    ensures AllSpace(s[..StripStart(s)]) && AllSpace(s[StripEnd(s)..])
    ensures r == [] <==> AllSpace(s)
  {
    var a, e := StripStart(s), StripEnd(s);
    SliceSplit(s, a, e);
    LeadingSpace(s);
    TrailingSpace(s);
    SpanEmptyIffBlank(s);
    s[a..e]
  }

  /** The span `strip()` keeps is empty exactly when the string is blank. */
  lemma {:induction false} SpanEmptyIffBlank(s: string)
    ensures StripStart(s) == StripEnd(s) <==> AllSpace(s)
  {
    var a := StripStart(s);
    if a < |s| {
      assert !IsSpace(s[a]);
    }
  }

  /** A string is its three consecutive slices put back together. */
  lemma {:induction false} SliceSplit(s: string, a: nat, e: nat)
    requires a <= e <= |s|
    ensures s == s[..a] + s[a..e] + s[e..]
  {
    assert s[..a] + s[a..e] == s[..e];
  }

  /** Whitespace over an index range is whitespace of the corresponding slice. */
  lemma {:induction false} SpaceSlice(s: string, lo: nat, hi: nat)
    requires lo <= hi <= |s|
    requires forall k :: lo <= k < hi ==> IsSpace(s[k])
    ensures AllSpace(s[lo..hi])
  {
    forall k | 0 <= k < hi - lo ensures IsSpace(s[lo..hi][k]) {
      assert s[lo..hi][k] == s[lo + k];
    }
  }

  /** What `strip()` drops at the front is whitespace. */
  lemma {:induction false} LeadingSpace(s: string)
    ensures AllSpace(s[..StripStart(s)])
  {
    var a := StripStart(s);
    SpaceSlice(s, 0, a);
    assert s[0..a] == s[..a];
  }

  /** What `strip()` drops at the back is whitespace. */
  lemma {:induction false} TrailingSpace(s: string)
    ensures AllSpace(s[StripEnd(s)..])
  {
    var e := StripEnd(s);
    SpaceSlice(s, e, |s|);
    assert s[e..|s|] == s[e..];
  }

  /** `s.replace(',', '.')`: every comma becomes a period, nothing else moves. */
  function CommaToPeriod(s: string): (r: string)
    ensures |r| == |s|
    ensures forall k :: 0 <= k < |s| ==> r[k] == (if s[k] == ',' then '.' else s[k])
  {
    if |s| == 0 then []
    else [if s[0] == ',' then '.' else s[0]] + CommaToPeriod(s[1..])
  }

  /** No comma survives the substitution, and a comma-free string is left as it is. */
  lemma {:induction false} CommaToPeriodSpec(s: string)
    ensures ',' !in CommaToPeriod(s)
    ensures ',' !in s ==> CommaToPeriod(s) == s
    ensures CommaToPeriod(CommaToPeriod(s)) == CommaToPeriod(s)
  {
  }

  /** Stripping is idempotent. */
  lemma {:induction false} StripIdempotent(s: string)
    ensures Strip(Strip(s)) == Strip(s)
  {
    var r := Strip(s);
    assert StripStart(r) == 0;
    assert StripEnd(r) == |r|;
    assert r[0..|r|] == r;
  }
}
