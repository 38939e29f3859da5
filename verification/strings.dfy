/** The part of JavaScript's `String.prototype.trim` that account creation
    relies on: stripping white space and line terminators from both ends. */
module Strings {

  /** The code points `trim` removes: ECMAScript WhiteSpace (tab, vertical
      tab, form feed, the byte order mark and every Unicode space separator)
      and LineTerminator (line feed, carriage return, U+2028, U+2029). */
  const WhiteSpaceCodes: set<int> :=
    {0x0009, 0x000A, 0x000B, 0x000C, 0x000D, 0x0020, 0x00A0, 0x1680,
     0x2000, 0x2001, 0x2002, 0x2003, 0x2004, 0x2005, 0x2006, 0x2007, 0x2008, 0x2009, 0x200A,
     0x2028, 0x2029, 0x202F, 0x205F, 0x3000, 0xFEFF}

  predicate IsWhiteSpace(c: char) {
    c as int in WhiteSpaceCodes
  }

  /** True iff `s` contains a character that `trim` keeps. */
  predicate HasVisibleChar(s: string) {
    exists k :: 0 <= k < |s| && !IsWhiteSpace(s[k])
  }

  /** How many characters `trim` cuts from the front of `s`. */
  function LeadingWhiteSpace(s: string): (n: nat)
    ensures n <= |s|
    ensures forall k :: 0 <= k < n ==> IsWhiteSpace(s[k])
    ensures n < |s| ==> !IsWhiteSpace(s[n])
  {
    if |s| > 0 && IsWhiteSpace(s[0]) then 1 + LeadingWhiteSpace(s[1..]) else 0
  }

  /** How many characters `trim` cuts from the back of `s`. */
  function TrailingWhiteSpace(s: string): (n: nat)
    ensures n <= |s|
    ensures forall k :: |s| - n <= k < |s| ==> IsWhiteSpace(s[k])
    ensures n < |s| ==> !IsWhiteSpace(s[|s| - n - 1])
  {
    if |s| > 0 && IsWhiteSpace(s[|s| - 1]) then 1 + TrailingWhiteSpace(s[..|s| - 1]) else 0
  }

  /** `s` without white space at either end, as `s.trim()`: the infix of `s`
      that starts after the leading white space, neither starting nor ending
      with white space. `TrimIsInfix` adds that only white space lies
      outside it. */
  function Trim(s: string): (r: string)
    ensures LeadingWhiteSpace(s) + |r| <= |s|
    ensures forall k :: 0 <= k < |r| ==> r[k] == s[LeadingWhiteSpace(s) + k]
    ensures |r| > 0 ==> !IsWhiteSpace(r[0]) && !IsWhiteSpace(r[|r| - 1])
  {
    var t := s[LeadingWhiteSpace(s)..];
    var n := TrailingWhiteSpace(t);
    assert |t| - n < |t| ==> t[|t| - n - 1] == t[..|t| - n][|t| - n - 1];
    t[..|t| - n]
  }

  /** `Trim` cuts a run of white space off each end and nothing else: the
      result is the infix of `s` that starts at `p`, everything before `p` and
      after the infix is white space, and the result neither starts nor ends
      with white space. */
  lemma TrimIsInfix(s: string) returns (p: nat)
    ensures p + |Trim(s)| <= |s| && Trim(s) == s[p..p + |Trim(s)|]
    ensures forall k :: 0 <= k < p ==> IsWhiteSpace(s[k])
    ensures forall k :: p + |Trim(s)| <= k < |s| ==> IsWhiteSpace(s[k])
    ensures |Trim(s)| > 0 ==> !IsWhiteSpace(Trim(s)[0]) && !IsWhiteSpace(Trim(s)[|Trim(s)| - 1])
  {
    p := LeadingWhiteSpace(s);
    var t := s[p..];
    var n := TrailingWhiteSpace(t);
    var r := t[..|t| - n];
    assert r == Trim(s);
    assert r == s[p..p + |r|];
    forall k | p + |r| <= k < |s|
      ensures IsWhiteSpace(s[k])
    {
      assert s[k] == t[k - p];
    }
    if |r| > 0 {
      assert r[0] == t[0];
      assert r[|r| - 1] == t[|t| - n - 1];
    }
  }

  /** A name survives `trim` exactly when it has a visible character. */
  lemma TrimEmptyIffBlank(s: string)
    ensures |Trim(s)| > 0 <==> HasVisibleChar(s)
  {
    var p := TrimIsInfix(s);
    var r := Trim(s);
    if |r| > 0 {
      assert s[p] == r[0];
      assert !IsWhiteSpace(s[p]);
    } else {
      forall k | 0 <= k < |s|
        ensures IsWhiteSpace(s[k])
      {
        if k >= p {
          assert p + |r| <= k;
        }
      }
    }
  }

  /** Trimming twice changes nothing. */
  lemma TrimIdempotent(s: string)
    ensures Trim(Trim(s)) == Trim(s)
  {
    var r := Trim(s);
    var _ := TrimIsInfix(s);
    if |r| > 0 {
      assert LeadingWhiteSpace(r) == 0;
      assert TrailingWhiteSpace(r) == 0;
      assert r[0..][..|r|] == r;
    }
  }
}
