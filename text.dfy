/**
 * The two Foundation string operations the authentication flow relies on:
 * `trimmingCharacters(in: .whitespaces)` and `lowercased()`, over `seq<char>`.
 */
module Text {

  /** Membership in `CharacterSet.whitespaces`: Unicode general category Zs, plus the tab. */
  predicate IsWhitespace(c: char) {
    || c == '\t' || c == ' ' || c == '\U{00A0}' || c == '\U{1680}'
    || ('\U{2000}' <= c <= '\U{200A}')
    || c == '\U{202F}' || c == '\U{205F}' || c == '\U{3000}'
  }

  predicate IsAsciiUpper(c: char) {
    'A' <= c <= 'Z'
  }

  /** `lowercased()` on one character, for the ASCII letters (the only ones modelled). */
  function LowerChar(c: char): char {
    if IsAsciiUpper(c) then (c as int + 32) as char else c
  }

  /** `lowercased()`: every character lowered, one for one. */
  function Lower(s: string): (r: string)
    ensures |r| == |s|
    ensures forall i :: 0 <= i < |s| ==> r[i] == LowerChar(s[i])
  {
    seq(|s|, i requires 0 <= i < |s| => LowerChar(s[i]))
  }

  /** The end of the run of whitespace starting at `i`. */
  function WhitespaceRunEnd(s: string, i: nat): (e: nat)
    requires i <= |s|
    ensures i <= e <= |s|
    ensures forall j :: i <= j < e ==> IsWhitespace(s[j])
    ensures e == |s| || !IsWhitespace(s[e])
    decreases |s| - i
  {
    if i < |s| && IsWhitespace(s[i]) then WhitespaceRunEnd(s, i + 1) else i
  }

  /** The start of the run of whitespace ending just before `n`. */
  function WhitespaceRunStart(s: string, n: nat): (b: nat)
    requires n <= |s|
    ensures b <= n
    ensures forall j :: b <= j < n ==> IsWhitespace(s[j])
    ensures b == 0 || !IsWhitespace(s[b - 1])
  {
    if n > 0 && IsWhitespace(s[n - 1]) then WhitespaceRunStart(s, n - 1) else n
  }

  /** The leading whitespace removed: a suffix of `s` that is empty or starts with non-whitespace. */
  function TrimLeading(s: string): (r: string)
    ensures |r| <= |s| && r == s[|s| - |r|..]
    ensures forall i :: 0 <= i < |s| - |r| ==> IsWhitespace(s[i])
    ensures r == [] || !IsWhitespace(r[0])
  {
    s[WhitespaceRunEnd(s, 0)..]
  }

  /** The trailing whitespace removed: a prefix of `s` that is empty or ends with non-whitespace. */
  function TrimTrailing(s: string): (r: string)
    ensures |r| <= |s| && r == s[..|r|]
    ensures forall i :: |r| <= i < |s| ==> IsWhitespace(s[i])
    ensures r == [] || !IsWhitespace(r[|r| - 1])
  {
    s[..WhitespaceRunStart(s, |s|)]
  }

  /**
   * `trimmingCharacters(in: .whitespaces)`: what is left once the whitespace at both ends
   * is gone. It neither starts nor ends with whitespace, and it is empty exactly when `s`
   * is all whitespace; TrimIsInfix says where in `s` it sits.
   */
  function Trim(s: string): (r: string)
    ensures r == [] || (!IsWhitespace(r[0]) && !IsWhitespace(r[|r| - 1]))
    ensures r == [] <==> forall i :: 0 <= i < |s| ==> IsWhitespace(s[i])
  {
    var t := TrimLeading(s);
    var r := TrimTrailing(t);
    TrimmedInfix(s, t, r);
    r
  }

  /** The trim is the infix of `s` that starts where the leading whitespace ends ... */
  lemma {:induction false} TrimIsInfix(s: string)
    ensures var r, k := Trim(s), |s| - |TrimLeading(s)|;
      k + |r| <= |s| && r == s[k..k + |r|]
  {
    var t := TrimLeading(s);
    var r := TrimTrailing(t);
    assert r == s[|s| - |t|..][..|r|];
  }

  /** Each character of the trim is the character of `s` at the same place in the infix. */
  lemma {:induction false} TrimCharacters(s: string)
    ensures forall i :: 0 <= i < |Trim(s)| ==> Trim(s)[i] == s[|s| - |TrimLeading(s)| + i]
  {
    TrimIsInfix(s);
  }

  /** ... and everything before and after it is whitespace. */
  lemma {:induction false} TrimCutsOnlyWhitespace(s: string)
    ensures var r, k := Trim(s), |s| - |TrimLeading(s)|;
      && (forall i :: 0 <= i < k ==> IsWhitespace(s[i]))
      && (forall i :: k + |r| <= i < |s| ==> IsWhitespace(s[i]))
  {
    var t := TrimLeading(s);
    ShiftedWhitespace(s, t, TrimTrailing(t));
  }

  /** What lies past a prefix `r` of a suffix `t` of `s` is, shifted back, what lies past `r` in `t`. */
  lemma {:induction false} ShiftedWhitespace(s: string, t: string, r: string)
    requires |t| <= |s| && t == s[|s| - |t|..] && |r| <= |t|
    requires forall i :: |r| <= i < |t| ==> IsWhitespace(t[i])
    ensures forall i :: |s| - |t| + |r| <= i < |s| ==> IsWhitespace(s[i])
  {
    var k := |s| - |t|;
    assert forall i :: k <= i < |s| ==> s[i] == t[i - k];
  }

  /** A prefix `r` of a suffix `t` of `s`, both cut at whitespace, is an infix of `s` cut at whitespace. */
  lemma {:induction false} TrimmedInfix(s: string, t: string, r: string)
    requires |t| <= |s| && t == s[|s| - |t|..]
    requires forall i :: 0 <= i < |s| - |t| ==> IsWhitespace(s[i])
    requires t == [] || !IsWhitespace(t[0])
    requires |r| <= |t| && r == t[..|r|]
    requires forall i :: |r| <= i < |t| ==> IsWhitespace(t[i])
    requires r == [] || !IsWhitespace(r[|r| - 1])
    ensures r == [] || (!IsWhitespace(r[0]) && !IsWhitespace(r[|r| - 1]))
    ensures var k := |s| - |t|;
      && k + |r| <= |s| && r == s[k..k + |r|]
      && (forall i :: k + |r| <= i < |s| ==> IsWhitespace(s[i]))
    ensures r == [] <==> forall i :: 0 <= i < |s| ==> IsWhitespace(s[i])
  {
    var k := |s| - |t|;
    assert r != [] ==> r[0] == t[0];
    assert forall i :: k <= i < |s| ==> s[i] == t[i - k];
  }

  /** A string with no whitespace at either end is its own trim. */
  lemma {:induction false} TrimOfTrimmed(s: string)
    requires s == [] || (!IsWhitespace(s[0]) && !IsWhitespace(s[|s| - 1]))
    ensures Trim(s) == s
  {
  }

  /** Trimming twice is trimming once. */
  lemma {:induction false} TrimIdempotent(s: string)
    ensures Trim(Trim(s)) == Trim(s)
  {
    TrimOfTrimmed(Trim(s));
  }

  /** Lowering keeps whitespace as whitespace and anything else as non-whitespace. */
  lemma {:induction false} LowerCharKeepsWhitespace(c: char)
    ensures IsWhitespace(LowerChar(c)) == IsWhitespace(c)
  {
  }

  /** The lowercase of anything holds no ASCII capitals. */
  lemma {:induction false} LowerHasNoCapitals(s: string)
    ensures forall i :: 0 <= i < |Lower(s)| ==> !IsAsciiUpper(Lower(s)[i])
  {
    forall i | 0 <= i < |s|
      ensures !IsAsciiUpper(Lower(s)[i])
    {
      LowerCharIsNotUpper(s[i]);
    }
  }

  lemma {:induction false} LowerCharIsNotUpper(c: char)
    ensures !IsAsciiUpper(LowerChar(c))
  {
  }

  /** Lowering twice is lowering once. */
  lemma {:induction false} LowerIdempotent(s: string)
    ensures Lower(Lower(s)) == Lower(s)
  {
    var l := Lower(s);
    assert forall i :: 0 <= i < |l| ==> Lower(l)[i] == l[i];
  }

  /** A string without ASCII capitals is its own lowercase. */
  lemma {:induction false} LowerOfLowercase(s: string)
    requires forall i :: 0 <= i < |s| ==> !IsAsciiUpper(s[i])
    ensures Lower(s) == s
  {
    assert forall i :: 0 <= i < |s| ==> Lower(s)[i] == s[i];
  }

  /** Lowering takes slices to slices. */
  lemma {:induction false} LowerSlice(s: string, i: nat, j: nat)
    requires i <= j <= |s|
    ensures Lower(s[i..j]) == Lower(s)[i..j]
  {
    assert forall k :: 0 <= k < j - i ==> Lower(s[i..j])[k] == Lower(s)[i..j][k];
  }

  /** Lowering and trimming commute, since lowering keeps whitespace in place. */
  lemma {:induction false} TrimLowerCommute(s: string)
    ensures Trim(Lower(s)) == Lower(Trim(s))
  {
    TrimLeadingLowerCommute(s);
    TrimTrailingLowerCommute(TrimLeading(s));
  }

  lemma {:induction false} TrimLeadingLowerCommute(s: string)
    ensures TrimLeading(Lower(s)) == Lower(TrimLeading(s))
  {
    var d := |s| - |TrimLeading(s)|;
    var l := Lower(s);
    forall i | 0 <= i < |s|
      ensures IsWhitespace(l[i]) == IsWhitespace(s[i])
    {
      LowerCharKeepsWhitespace(s[i]);
    }
    TrimLeadingUnique(l, d);
    LowerSlice(s, d, |s|);
  }

  lemma {:induction false} TrimTrailingLowerCommute(s: string)
    ensures TrimTrailing(Lower(s)) == Lower(TrimTrailing(s))
  {
    var n := |TrimTrailing(s)|;
    var l := Lower(s);
    forall i | 0 <= i < |s|
      ensures IsWhitespace(l[i]) == IsWhitespace(s[i])
    {
      LowerCharKeepsWhitespace(s[i]);
    }
    TrimTrailingUnique(l, n);
    LowerSlice(s, 0, n);
  }

  /** The leading whitespace is the longest whitespace prefix: any cut at its end is TrimLeading's. */
  lemma {:induction false} TrimLeadingUnique(s: string, d: nat)
    requires d <= |s| && (forall i :: 0 <= i < d ==> IsWhitespace(s[i]))
    requires d == |s| || !IsWhitespace(s[d])
    ensures TrimLeading(s) == s[d..]
  {
  }

  /** The trailing whitespace is the longest whitespace suffix: any cut at its start is TrimTrailing's. */
  lemma {:induction false} TrimTrailingUnique(s: string, n: nat)
    requires n <= |s| && (forall i :: n <= i < |s| ==> IsWhitespace(s[i]))
    requires n == 0 || !IsWhitespace(s[n - 1])
    ensures TrimTrailing(s) == s[..n]
  {
  }
}
