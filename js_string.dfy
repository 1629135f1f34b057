/**
 * The two ECMAScript string built-ins the handler applies to an address:
 * `String.prototype.trim` and `String.prototype.toLowerCase` (restricted to ASCII),
 * and the character class `\s` that both `trim` and the validation pattern use.
 */
module JsString {

  /** ECMAScript WhiteSpace and LineTerminator code points: the regular-expression
      class `\s`, and exactly what `trim` strips from either end. */
  predicate IsWhitespace(c: char)
    ensures IsWhitespace(c) ==> c as int < 0x1_0000
  {
    c == '\t' || c == '\n' || c == '\U{000B}' || c == '\U{000C}' || c == '\r'
    || c == ' ' || c == '\U{00A0}' || c == '\U{1680}'
    || ('\U{2000}' <= c <= '\U{200A}')
    || c == '\U{2028}' || c == '\U{2029}' || c == '\U{202F}' || c == '\U{205F}'
    || c == '\U{3000}' || c == '\U{FEFF}'
  }

  predicate AllWhitespace(s: string) {
    forall i :: 0 <= i < |s| ==> IsWhitespace(s[i])
  }

  // ---------------------------------------------------------------------------
  // trim
  // ---------------------------------------------------------------------------

  /** The first index at or after `i` that does not hold whitespace (`|s|` if none). */
  function SkipWhitespaceForward(s: string, i: nat): (k: nat)
    requires i <= |s|
    ensures i <= k <= |s|
    ensures k < |s| ==> !IsWhitespace(s[k])
    decreases |s| - i
  {
    if i < |s| && IsWhitespace(s[i]) then SkipWhitespaceForward(s, i + 1) else i
  }

  /** Everything it skipped is whitespace. */
  lemma {:induction false} SkippedForwardIsWhitespace(s: string, i: nat, m: int)
    requires i <= |s|
    requires i <= m < SkipWhitespaceForward(s, i)
    ensures IsWhitespace(s[m])
    decreases |s| - i
  {
    if i < m {
      SkippedForwardIsWhitespace(s, i + 1, m);
    }
  }

  /** Going back from `j`, but not past `lo`: the end of the part of `s[lo..j]` that
      does not end in whitespace. */
  function SkipWhitespaceBackward(s: string, lo: nat, j: nat): (k: nat)
    requires lo <= j <= |s|
    ensures lo <= k <= j
    ensures lo < k ==> !IsWhitespace(s[k - 1])
    decreases j
  {
    if lo < j && IsWhitespace(s[j - 1]) then SkipWhitespaceBackward(s, lo, j - 1) else j
  }

  /** Everything it skipped is whitespace. */
  lemma {:induction false} SkippedBackwardIsWhitespace(s: string, lo: nat, j: nat, m: int)
    requires lo <= j <= |s|
    requires SkipWhitespaceBackward(s, lo, j) <= m < j
    ensures IsWhitespace(s[m])
    decreases j
  {
    if m < j - 1 {
      SkippedBackwardIsWhitespace(s, lo, j - 1, m);
    }
  }

  /** Where `s.trim()` starts and ends in `s`. */
  function TrimStart(s: string): (lo: nat)
    ensures lo <= |s|
  {
    SkipWhitespaceForward(s, 0)
  }

  function TrimEnd(s: string): (hi: nat)
    ensures TrimStart(s) <= hi <= |s|
  {
    SkipWhitespaceBackward(s, TrimStart(s), |s|)
  }

  /** `s.trim()`: the part of `s` left once whitespace is removed from both ends. It
      neither starts nor ends with whitespace. */
  function Trim(s: string): (r: string)
    ensures r == [] || (!IsWhitespace(r[0]) && !IsWhitespace(r[|r| - 1]))
  {
    s[TrimStart(s)..TrimEnd(s)]
  }

  /** What `trim` cuts off, on either side, is whitespace only, so `s` is the trimmed
      string with whitespace around it. */
  lemma TrimCutsOnlyWhitespace(s: string)
    ensures s == s[..TrimStart(s)] + Trim(s) + s[TrimEnd(s)..]
    ensures AllWhitespace(s[..TrimStart(s)])
    ensures AllWhitespace(s[TrimEnd(s)..])
  {
    var lo, hi := TrimStart(s), TrimEnd(s);
    forall m | 0 <= m < lo
      ensures s[..lo][m] == s[m] && IsWhitespace(s[m])
    {
      SkippedForwardIsWhitespace(s, 0, m);
    }
    forall m | hi <= m < |s|
      ensures s[hi..][m - hi] == s[m] && IsWhitespace(s[m])
    {
      SkippedBackwardIsWhitespace(s, lo, |s|, m);
    }
    assert s == s[..lo] + s[lo..hi] + s[hi..];
  }

  /** Trimming a string that neither starts nor ends with whitespace changes nothing. */
  lemma TrimIdentity(s: string)
    requires s == [] || (!IsWhitespace(s[0]) && !IsWhitespace(s[|s| - 1]))
    ensures Trim(s) == s
  {
    assert TrimStart(s) == 0;
    assert TrimEnd(s) == |s|;
  }

  /** `trim` is idempotent. */
  lemma TrimIdempotent(s: string)
    ensures Trim(Trim(s)) == Trim(s)
  {
    TrimIdentity(Trim(s));
  }

  // ---------------------------------------------------------------------------
  // toLowerCase
  // ---------------------------------------------------------------------------

  /** ASCII lower-casing of one character: `A`..`Z` become `a`..`z`, everything else
      is left alone. */
  function LowerChar(c: char): (d: char)
    ensures !('A' <= d <= 'Z')
    ensures d == c || ('A' <= c <= 'Z' && d as int == c as int + 32)
  {
    if 'A' <= c <= 'Z' then (c as int + 32) as char else c
  }

  /** Lower-casing a character neither enters nor leaves the classes the validation
      pattern distinguishes: whitespace, `@` and `.`. */
  lemma LowerCharKeepsClasses(c: char)
    ensures IsWhitespace(LowerChar(c)) == IsWhitespace(c)
    ensures (LowerChar(c) == '@') == (c == '@')
    ensures (LowerChar(c) == '.') == (c == '.')
  {
  }

  /** `s.toLowerCase()`, for ASCII letters: every character lower-cased in place. */
  function Lower(s: string): (r: string)
    ensures |r| == |s|
    ensures forall i :: 0 <= i < |s| ==> r[i] == LowerChar(s[i])
  {
    seq(|s|, i requires 0 <= i < |s| => LowerChar(s[i]))
  }

  /** `Lower` is the only string function that lower-cases each character in
      place: any string related to `s` character by character is `Lower(s)`. */
  lemma LowerPointwise(s: string, t: string)
    requires |s| == |t|
    requires forall i :: 0 <= i < |s| ==> LowerChar(s[i]) == t[i]
    ensures Lower(s) == t
  {
  }

  /** `toLowerCase` is idempotent. */
  lemma LowerIdempotent(s: string)
    ensures Lower(Lower(s)) == Lower(s)
  {
    assert forall i :: 0 <= i < |s| ==> Lower(Lower(s))[i] == Lower(s)[i];
  }

  /** Lower-casing a slice is slicing the lower-cased string. */
  lemma LowerSlice(s: string, lo: int, hi: int)
    requires 0 <= lo <= hi <= |s|
    ensures Lower(s[lo..hi]) == Lower(s)[lo..hi]
  {
    assert forall i :: 0 <= i < hi - lo ==> Lower(s[lo..hi])[i] == Lower(s)[lo..hi][i];
  }

  // ---------------------------------------------------------------------------
  // trim and toLowerCase together
  // ---------------------------------------------------------------------------

  lemma {:induction false} SkipForwardLower(s: string, i: nat)
    requires i <= |s|
    ensures SkipWhitespaceForward(Lower(s), i) == SkipWhitespaceForward(s, i)
    decreases |s| - i
  {
    if i < |s| {
      LowerCharKeepsClasses(s[i]);
      if IsWhitespace(s[i]) {
        SkipForwardLower(s, i + 1);
      }
    }
  }

  lemma {:induction false} SkipBackwardLower(s: string, lo: nat, j: nat)
    requires lo <= j <= |s|
    ensures SkipWhitespaceBackward(Lower(s), lo, j) == SkipWhitespaceBackward(s, lo, j)
    decreases j
  {
    if lo < j {
      LowerCharKeepsClasses(s[j - 1]);
      if IsWhitespace(s[j - 1]) {
        SkipBackwardLower(s, lo, j - 1);
      }
    }
  }

  /** Lower-casing and trimming commute, because lower-casing never turns a
      character into whitespace or whitespace into anything else. */
  lemma TrimLowerCommute(s: string)
    ensures Trim(Lower(s)) == Lower(Trim(s))
  {
    SkipForwardLower(s, 0);
    assert TrimStart(Lower(s)) == TrimStart(s);
    SkipBackwardLower(s, TrimStart(s), |s|);
    assert TrimEnd(Lower(s)) == TrimEnd(s);
    LowerSlice(s, TrimStart(s), TrimEnd(s));
  }
}
