/**
  Loading the access token (`loadToken`): the raw text comes from the file
  `$KEYS/gh-PAT` or, when that file cannot be read, from the environment
  variable `GH_PAT`; surrounding white space is trimmed and an empty result
  is an error.
*/
module Credentials {
  import opened Wrappers

  datatype TokenError = TokenNotFound

  /** White space as Go's `unicode.IsSpace` defines it. */
  predicate IsSpace(c: char)
  {
    c == '\t' || c == '\n' || c == '\U{0B}' || c == '\U{0C}' || c == '\r' || c == ' '
    || c == '\U{85}' || c == '\U{A0}' || c == '\U{1680}'
    || ('\U{2000}' <= c <= '\U{200A}')
    || c == '\U{2028}' || c == '\U{2029}' || c == '\U{202F}' || c == '\U{205F}' || c == '\U{3000}'
  }

  /** The characters of `s` at positions `lo` up to `hi` are white space. */
  predicate SpaceBetween(s: string, lo: int, hi: int)
  {
    forall i :: lo <= i < hi && 0 <= i < |s| ==> IsSpace(s[i])
  }

  /** Every character of `s` is white space (so also the empty string). */
  predicate Blank(s: string)
  {
    SpaceBetween(s, 0, |s|)
  }

  /** The first position from `i` on that does not hold white space. */
  function SkipLeading(s: string, i: nat): (j: nat)
    requires i <= |s|
    ensures i <= j <= |s| && SpaceBetween(s, i, j)
    ensures j < |s| ==> !IsSpace(s[j])
    decreases |s| - i
  {
    if i < |s| && IsSpace(s[i]) then SkipLeading(s, i + 1) else i
  }

  /** The end of `s[lo..hi]` once the white space at its end is cut off. */
  function SkipTrailing(s: string, lo: nat, hi: nat): (j: nat)
    requires lo <= hi <= |s|
    ensures lo <= j <= hi && SpaceBetween(s, j, hi)
    ensures lo < j ==> !IsSpace(s[j - 1])
    decreases hi
  {
    if lo < hi && IsSpace(s[hi - 1]) then SkipTrailing(s, lo, hi - 1) else hi
  }

  /**
    `s[i..j]` is what is left of `s` once its white space is cut off at both
    ends: only white space lies outside it, and it neither starts nor ends
    with white space.
  */
  predicate IsTrim(s: string, i: int, j: int)
  {
    && 0 <= i <= j <= |s|
    && SpaceBetween(s, 0, i)
    && SpaceBetween(s, j, |s|)
    && (i < j ==> !IsSpace(s[i]) && !IsSpace(s[j - 1]))
  }

  /**
    `strings.TrimSpace`: the slice of `s` left once the white space at both
    ends is cut off; it is empty exactly when `s` is all white space.
  */
  function TrimSpace(s: string): (r: string)
    ensures exists i, j :: IsTrim(s, i, j) && r == s[i..j]
    ensures r == [] <==> Blank(s)
    ensures r != [] ==> !IsSpace(r[0]) && !IsSpace(r[|r| - 1])
  {
    var i := SkipLeading(s, 0);
    var j := SkipTrailing(s, i, |s|);
    assert IsTrim(s, i, j);
    TrimEmptyIffBlank(s, i, j);
    s[i..j]
  }

  lemma TrimEmptyIffBlank(s: string, i: int, j: int)
    requires IsTrim(s, i, j)
    ensures i == j <==> Blank(s)
  {
    if i < j {
      assert !IsSpace(s[i]);
    }
  }

  /**
    The contract of `TrimSpace` determines its result: any trim of `s` in the
    sense of `IsTrim` is `TrimSpace(s)`.
  */
  lemma TrimSpaceUnique(s: string, i: int, j: int)
    requires IsTrim(s, i, j)
    ensures s[i..j] == TrimSpace(s)
  {
    var m, n :| IsTrim(s, m, n) && TrimSpace(s) == s[m..n];
    TrimEmptyIffBlank(s, i, j);
    TrimEmptyIffBlank(s, m, n);
    if i < j && m < n {
      // neither s[i] nor s[m] is white space, yet everything before either
      // one is, so they are the same position; likewise at the other end
      assert !IsSpace(s[i]) && !IsSpace(s[m]);
      assert i == m;
      assert !IsSpace(s[j - 1]) && !IsSpace(s[n - 1]);
      assert j == n;
    }
  }

  lemma TrimSpaceIdempotent(s: string)
    ensures TrimSpace(TrimSpace(s)) == TrimSpace(s)
  {
    var t := TrimSpace(s);
    TrimmedIsTrim(t);
    TrimSpaceUnique(t, 0, |t|);
    assert t[0..|t|] == t;
  }

  /** A string with no white space at either end is its own trim. */
  lemma TrimmedIsTrim(t: string)
    requires t != [] ==> !IsSpace(t[0]) && !IsSpace(t[|t| - 1])
    ensures IsTrim(t, 0, |t|)
  {
  }

  /** The trim-and-check step of `loadToken`. */
  function CheckToken(raw: string): (r: Result<string, TokenError>)
    ensures r.Failure? <==> Blank(raw)
    ensures r.Success? ==> r.value == TrimSpace(raw)
    ensures r.Success? ==> !IsSpace(r.value[0]) && !IsSpace(r.value[|r.value| - 1])
  {
    var token := TrimSpace(raw);
    if token == [] then Failure(TokenNotFound) else Success(token)
  }

  /**
    `loadToken`, with the outcome of reading the key file (`None` when the
    read fails) and the value of `GH_PAT` given as parameters.
  */
  function LoadToken(keyFile: Option<string>, envToken: string): (r: Result<string, TokenError>)
    ensures keyFile.Some? ==> (r.Failure? <==> Blank(keyFile.value))
    ensures keyFile.Some? && r.Success? ==> r.value == TrimSpace(keyFile.value)
    ensures keyFile.None? ==> (r.Failure? <==> Blank(envToken))
    ensures keyFile.None? && r.Success? ==> r.value == TrimSpace(envToken)
  {
    var raw := match keyFile
      case Some(contents) => contents
      case None => envToken;
    CheckToken(raw)
  }
}
