/** The two functions of Go's `strings` package that the login path relies on:
    `strings.Contains` (to recognise a pending-verification error by its message)
    and `strings.TrimSpace` (to clean the one-time password read from the
    terminal). Go strings are UTF-8 byte strings; here a string is the sequence of
    its code points. */
module Strings {

  /** `sub` occurs in `s` starting at index `k`. */
  predicate OccursAt(s: string, sub: string, k: nat) {
    k + |sub| <= |s| && s[k..k + |sub|] == sub
  }

  /** `strings.Contains(s, sub)`: `sub` is a prefix of `s` or of one of its suffixes. */
  predicate Contains(s: string, sub: string)
    decreases |s|
  {
    sub <= s || (s != [] && Contains(s[1..], sub))
  }

  /** Contains agrees with the positional definition of a substring, in both directions. */
  lemma ContainsIffOccurs(s: string, sub: string)
    ensures Contains(s, sub) <==> exists k: nat :: OccursAt(s, sub, k)
  {
    if Contains(s, sub) {
      var k := ContainsAt(s, sub);
    }
    forall k: nat | OccursAt(s, sub, k) ensures Contains(s, sub) {
      OccursContains(s, sub, k);
    }
  }

  /** An index at which `sub` occurs in `s`, when Contains says there is one. */
  lemma {:induction false} ContainsAt(s: string, sub: string) returns (k: nat)
    requires Contains(s, sub)
    ensures OccursAt(s, sub, k)
    decreases |s|
  {
    if sub <= s {
      assert s[..|sub|] == sub;
      k := 0;
    } else {
      var j := ContainsAt(s[1..], sub);
      assert s[j + 1..j + 1 + |sub|] == s[1..][j..j + |sub|];
      k := j + 1;
    }
  }

  lemma {:induction false} OccursContains(s: string, sub: string, k: nat)
    requires OccursAt(s, sub, k)
    ensures Contains(s, sub)
    decreases k
  {
    if k == 0 {
      assert s[..|sub|] == sub;
    } else {
      assert s[1..][k - 1..k - 1 + |sub|] == s[k..k + |sub|];
      OccursContains(s[1..], sub, k - 1);
    }
  }

  /** Go's `unicode.IsSpace`: the ASCII white space characters, NEL, NO-BREAK SPACE
      and the other code points with the Unicode White_Space property. */
  predicate IsSpace(c: char) {
    c == '\t' || c == '\n' || c == '\U{000B}' || c == '\U{000C}' || c == '\r' || c == ' '
    || c == '\U{0085}' || c == '\U{00A0}' || c == '\U{1680}'
    || ('\U{2000}' <= c <= '\U{200A}')
    || c == '\U{2028}' || c == '\U{2029}' || c == '\U{202F}' || c == '\U{205F}' || c == '\U{3000}'
  }

  predicate AllSpace(s: string) {
    forall i :: 0 <= i < |s| ==> IsSpace(s[i])
  }

  /** The length of the longest all-space prefix of `s`. */
  function LeadingSpace(s: string): (n: nat)
    ensures n <= |s| && AllSpace(s[..n])
    ensures n < |s| ==> !IsSpace(s[n])
    decreases |s|
  {
    if s != [] && IsSpace(s[0]) then
      var m := LeadingSpace(s[1..]);
      assert s[..m + 1] == [s[0]] + s[1..][..m];
      m + 1
    else 0
  }

  /** The length of `s` without its longest all-space suffix. */
  function ContentEnd(s: string): (n: nat)
    ensures n <= |s| && AllSpace(s[n..])
    ensures n > 0 ==> !IsSpace(s[n - 1])
    decreases |s|
  {
    if s != [] && IsSpace(s[|s| - 1]) then
      var m := ContentEnd(s[..|s| - 1]);
      assert s[m..] == s[..|s| - 1][m..] + [s[|s| - 1]];
      m
    else |s|
  }

  /** `strings.TrimSpace`: drop leading, then trailing, white space. */
  function TrimSpace(s: string): string {
    var left := s[LeadingSpace(s)..];
    left[..ContentEnd(left)]
  }

  /** TrimSpace keeps a contiguous slice of its input that neither starts nor ends
      with white space, and removes only white space around it. */
  lemma TrimSpaceSlice(s: string)
    ensures var r := TrimSpace(s);
      && (r == [] || (!IsSpace(r[0]) && !IsSpace(r[|r| - 1])))
      && LeadingSpace(s) + |r| <= |s|
      && s == s[..LeadingSpace(s)] + r + s[LeadingSpace(s) + |r|..]
      && AllSpace(s[..LeadingSpace(s)])
      && AllSpace(s[LeadingSpace(s) + |r|..])
  {
    var i := LeadingSpace(s);
    var left := s[i..];
    var r := TrimSpace(s);
    var j := ContentEnd(left);
    assert r == left[..j];
    assert s[i + |r|..] == left[j..];
    if r != [] {
      assert r[0] == s[i];
    }
    assert s == s[..i] + left[..j] + left[j..];
  }
}
