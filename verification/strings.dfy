/** `String.prototype.trim` of JavaScript, which every form field is passed
    through before it is validated or stored. */
module Strings {

  /** The code points ECMAScript (ECMA-262) counts as WhiteSpace or as a
      LineTerminator: TAB, VT, FF, SPACE, NO-BREAK SPACE, ZERO WIDTH NO-BREAK
      SPACE, the other members of the Unicode category Zs, LF, CR, LINE
      SEPARATOR and PARAGRAPH SEPARATOR. */
  predicate IsSpace(c: char) {
    || c == '\t' || c == '\U{000B}' || c == '\U{000C}' || c == ' '
    || c == '\U{00A0}' || c == '\U{FEFF}' || c == '\U{1680}'
    || ('\U{2000}' <= c <= '\U{200A}')
    || c == '\U{202F}' || c == '\U{205F}' || c == '\U{3000}'
    || c == '\n' || c == '\r' || c == '\U{2028}' || c == '\U{2029}'
  }

  /** True when `s` holds nothing but white space (JavaScript: `!s.trim()`). */
  predicate IsBlank(s: string) {
    forall i :: 0 <= i < |s| ==> IsSpace(s[i])
  }

  /** Drops the leading white space: the result is the longest suffix of `s`
      that does not start with white space. */
  function TrimStart(s: string): (r: string)
    ensures |r| <= |s| && r == s[|s| - |r|..]
    ensures forall i :: 0 <= i < |s| - |r| ==> IsSpace(s[i])
    ensures |r| > 0 ==> !IsSpace(r[0])
    decreases |s|
  {
    if |s| > 0 && IsSpace(s[0]) then TrimStart(s[1..]) else s
  }

  /** Drops the trailing white space: the result is the longest prefix of `s`
      that does not end with white space. */
  function TrimEnd(s: string): (r: string)
    ensures |r| <= |s| && r == s[..|r|]
    ensures forall i :: |r| <= i < |s| ==> IsSpace(s[i])
    ensures |r| > 0 ==> !IsSpace(r[|r| - 1])
    decreases |s|
  {
    if |s| > 0 && IsSpace(s[|s| - 1]) then TrimEnd(s[..|s| - 1]) else s
  }

  /** `s.trim()`: white space removed from both ends. The result is empty
      exactly when `s` is blank, and otherwise neither starts nor ends with
      white space; `TrimIsInfix` says where it sits inside `s`. */
  function Trim(s: string): (r: string)
    ensures |r| <= |s|
    ensures r == [] <==> IsBlank(s)
    ensures r != [] ==> !IsSpace(r[0]) && !IsSpace(r[|r| - 1])
  {
    TrimEnd(TrimStart(s))
  }

  /** `Trim(s)` is the infix `s[i..j]` of `s`, and everything of `s` before
      and after it is white space. */
  lemma TrimIsInfix(s: string) returns (i: nat, j: nat)
    ensures i <= j <= |s| && Trim(s) == s[i..j]
    ensures forall k :: 0 <= k < i ==> IsSpace(s[k])
    ensures forall k :: j <= k < |s| ==> IsSpace(s[k])
  {
    i := |s| - |TrimStart(s)|;
    j := TrimEndWithin(s, i);
    assert Trim(s) == TrimEnd(s[i..]);
  }

  /** Trimming the end of the suffix `s[i..]` leaves the infix `s[i..j]`,
      followed in `s` by nothing but white space. */
  lemma TrimEndWithin(s: string, i: nat) returns (j: nat)
    requires i <= |s|
    ensures i <= j <= |s| && TrimEnd(s[i..]) == s[i..j]
    ensures forall k :: j <= k < |s| ==> IsSpace(s[k])
  {
    var t := s[i..];
    var r := TrimEnd(t);
    j := i + |r|;
    assert r == t[..|r|];
    forall k | j <= k < |s|
      ensures IsSpace(s[k])
    {
      assert s[k] == t[k - i];
    }
  }

  /** Trimming twice is trimming once. */
  lemma {:induction false} TrimIdempotent(s: string)
    ensures Trim(Trim(s)) == Trim(s)
  {
    var t := Trim(s);
    if t != [] {
      assert TrimStart(t) == t;
      assert TrimEnd(t) == t;
    }
  }
}
