/**
 * Character classes and string helpers with the meaning JavaScript gives them:
 * `\s` in a regular expression, `String.prototype.trim`, line terminators for
 * the `m` flag, ASCII case mapping and decimal rendering of numbers.
 */
module Strings {

  /** The line terminators of ECMAScript (what `.` does not match, where `^`/`$` stop under `m`). */
  predicate IsLineTerminator(c: char) {
    c == '\n' || c == '\r' || c == '\U{2028}' || c == '\U{2029}'
  }

  /** ECMAScript WhiteSpace or LineTerminator: the class `\s`, and what `trim` removes. */
  predicate IsSpace(c: char) {
    IsLineTerminator(c) || c == '\t' || c == '\U{000B}' || c == '\U{000C}' || c == ' ' ||
    c == '\U{00A0}' || c == '\U{1680}' || ('\U{2000}' <= c <= '\U{200A}') ||
    c == '\U{202F}' || c == '\U{205F}' || c == '\U{3000}' || c == '\U{FEFF}'
  }

  predicate IsAsciiLetter(c: char) {
    ('a' <= c <= 'z') || ('A' <= c <= 'Z')
  }

  predicate IsDigit(c: char) {
    '0' <= c <= '9'
  }

  /** What `[a-z0-9]` with the `i` flag matches (no Unicode mode: ASCII only). */
  predicate IsAsciiAlnum(c: char) {
    IsAsciiLetter(c) || IsDigit(c)
  }

  function LowerChar(c: char): char {
    if 'A' <= c <= 'Z' then (c as int + 32) as char else c
  }

  function UpperChar(c: char): char {
    if 'a' <= c <= 'z' then (c as int - 32) as char else c
  }

  /** ASCII lower-casing, character by character. */
  function Lower(s: string): (r: string)
    ensures |r| == |s| && forall i :: 0 <= i < |s| ==> r[i] == LowerChar(s[i])
  {
    if s == [] then [] else [LowerChar(s[0])] + Lower(s[1..])
  }

  /** ASCII upper-casing, character by character. */
  function Upper(s: string): (r: string)
    ensures |r| == |s| && forall i :: 0 <= i < |s| ==> r[i] == UpperChar(s[i])
  {
    if s == [] then [] else [UpperChar(s[0])] + Upper(s[1..])
  }

  /** `^` under the `m` flag: the start of the text or just after a line terminator. */
  predicate AtLineStart(s: string, p: nat) {
    p == 0 || (p <= |s| && IsLineTerminator(s[p - 1]))
  }

  /** The first line terminator at or after `p`, or the end: where `.*` or `.+` followed by `$` stops under the `m` flag. */
  function LineEnd(s: string, p: nat): (e: nat)
    requires p <= |s|
    ensures p <= e <= |s|
    ensures e < |s| ==> IsLineTerminator(s[e])
    ensures p < |s| && !IsLineTerminator(s[p]) ==> p < e
    decreases |s| - p
  {
    if p == |s| || IsLineTerminator(s[p]) then p else LineEnd(s, p + 1)
  }

  lemma {:induction false} LineEndFacts(s: string, p: nat)
    requires p <= |s|
    ensures forall k :: p <= k < LineEnd(s, p) ==> !IsLineTerminator(s[k])
    decreases |s| - p
  {
    if p < |s| && !IsLineTerminator(s[p]) {
      LineEndFacts(s, p + 1);
    }
  }

  /** The end of a run free of line terminators that stops at one (or at the end) is `LineEnd`. */
  lemma LineEndUnique(s: string, j: nat, e: nat)
    requires j <= e <= |s|
    requires forall i :: j <= i < e ==> !IsLineTerminator(s[i])
    requires e == |s| || IsLineTerminator(s[e])
    ensures LineEnd(s, j) == e
    decreases e - j
  {
    if j < e {
      LineEndUnique(s, j + 1, e);
    }
  }

  /** The number of consecutive `c` at the front of `s`. */
  function RunLength(s: string, c: char): (n: nat)
    ensures n <= |s| && forall i :: 0 <= i < n ==> s[i] == c
    ensures n < |s| ==> s[n] != c
  {
    if s != [] && s[0] == c then 1 + RunLength(s[1..], c) else 0
  }

  predicate StartsWith(s: string, p: string) {
    |p| <= |s| && s[..|p|] == p
  }

  predicate EndsWith(s: string, p: string) {
    |p| <= |s| && s[|s| - |p|..] == p
  }

  lemma StartsWithPrefix(a: string, b: string)
    ensures StartsWith(a + b, a)
  {
    assert (a + b)[..|a|] == a;
  }

  lemma EndsWithSuffix(a: string, b: string)
    ensures EndsWith(a + b, b)
  {
    assert (a + b)[|a + b| - |b|..] == b;
  }

  /** `[] + x == x`, stated apart so that `x` is not unfolded. */
  lemma EmptyConcat<T>(x: seq<T>)
    ensures [] + x == x
  {
  }

  /** Taking `k + 1` elements of `[a] + s` takes `k` of `s`. */
  lemma ConsTake<T>(a: T, s: seq<T>, k: nat)
    requires k <= |s|
    ensures ([a] + s)[..k + 1] == [a] + s[..k]
  {
  }

  /** A sequence is its three slices around `lo` and `hi`, put back together. */
  lemma SplitThree<T>(s: seq<T>, lo: nat, hi: nat)
    requires lo <= hi <= |s|
    ensures s == s[..lo] + (s[lo..hi] + s[hi..])
  {
  }

  /** Sequence concatenation is associative. */
  lemma ConcatAssoc<T>(a: seq<T>, b: seq<T>, c: seq<T>)
    ensures a + (b + c) == (a + b) + c
  {
  }

  /** `t` occurs in `s` at offset `i`. */
  predicate OccursAt(s: string, t: string, i: nat) {
    i + |t| <= |s| && s[i..i + |t|] == t
  }

  /** `s.includes(t)` */
  ghost predicate Contains(s: string, t: string) {
    exists i: nat :: OccursAt(s, t, i)
  }

  lemma ContainsSuffix(a: string, t: string)
    ensures Contains(a + t, t)
  {
    assert OccursAt(a + t, t, |a|);
  }

  lemma ContainsExtend(s: string, t: string, b: string)
    requires Contains(s, t)
    ensures Contains(s + b, t)
  {
    var i: nat :| OccursAt(s, t, i);
    assert (s + b)[i..i + |t|] == s[i..i + |t|];
    assert OccursAt(s + b, t, i);
  }

  lemma ContainsInPrefix(s: string, h: string, t: string)
    requires StartsWith(s, h) && Contains(h, t)
    ensures Contains(s, t)
  {
    var i: nat :| OccursAt(h, t, i);
    assert s[i..i + |t|] == h[i..i + |t|];
    assert OccursAt(s, t, i);
  }

  predicate NoSpace(s: string) {
    forall i :: 0 <= i < |s| ==> !IsSpace(s[i])
  }

  predicate AllSpace(s: string) {
    forall i :: 0 <= i < |s| ==> IsSpace(s[i])
  }

  /** No leading and no trailing `\s` character. */
  predicate Trimmed(s: string) {
    s == [] || (!IsSpace(s[0]) && !IsSpace(s[|s| - 1]))
  }

  /** The number of white-space characters from `i` on. */
  function SpacesFrom(s: string, i: nat): (n: nat)
    requires i <= |s|
    ensures i + n <= |s|
    ensures i + n < |s| ==> !IsSpace(s[i + n])
    decreases |s| - i
  {
    if i == |s| || !IsSpace(s[i]) then 0 else 1 + SpacesFrom(s, i + 1)
  }

  lemma {:induction false} SpacesFromFacts(s: string, i: nat)
    requires i <= |s|
    ensures forall k :: i <= k < i + SpacesFrom(s, i) ==> IsSpace(s[k])
    decreases |s| - i
  {
    if i < |s| && IsSpace(s[i]) {
      SpacesFromFacts(s, i + 1);
    }
  }

  /** A white-space run from `i` to `j` makes the run from `i` at least that long. */
  lemma {:induction false} SpacesFromAtLeast(s: string, i: nat, j: nat)
    requires i <= j <= |s|
    requires forall k :: i <= k < j ==> IsSpace(s[k])
    ensures i + SpacesFrom(s, i) >= j
    decreases j - i
  {
    if i < j {
      SpacesFromAtLeast(s, i + 1, j);
    }
  }

  /** The number of white-space characters just before `j`. */
  function SpacesBefore(s: string, j: nat): (n: nat)
    requires j <= |s|
    ensures n <= j
    ensures n < j ==> !IsSpace(s[j - n - 1])
  {
    if j == 0 || !IsSpace(s[j - 1]) then 0 else 1 + SpacesBefore(s, j - 1)
  }

  lemma {:induction false} SpacesBeforeFacts(s: string, j: nat)
    requires j <= |s|
    ensures forall k :: j - SpacesBefore(s, j) <= k < j ==> IsSpace(s[k])
  {
    if j > 0 && IsSpace(s[j - 1]) {
      SpacesBeforeFacts(s, j - 1);
    }
  }

  /** Removes the leading white space. */
  function TrimStart(s: string): (r: string)
    ensures |r| <= |s| && r == s[|s| - |r|..]
    ensures r == [] || !IsSpace(r[0])
  {
    s[SpacesFrom(s, 0)..]
  }

  /** What `TrimStart` removes is white space. */
  lemma TrimStartRemovesSpace(s: string)
    ensures AllSpace(s[..|s| - |TrimStart(s)|])
  {
    SpacesFromFacts(s, 0);
  }

  /** Removes the trailing white space. */
  function TrimEnd(s: string): (r: string)
    ensures |r| <= |s| && r == s[..|r|]
    ensures r == [] || !IsSpace(r[|r| - 1])
  {
    s[..|s| - SpacesBefore(s, |s|)]
  }

  /** What `TrimEnd` removes is white space. */
  lemma TrimEndRemovesSpace(s: string)
    ensures AllSpace(s[|TrimEnd(s)|..])
  {
    SpacesBeforeFacts(s, |s|);
  }

  /** `String.prototype.trim`. */
  function Trim(s: string): string {
    TrimEnd(TrimStart(s))
  }

  /** `trim` returns the slice of its input between two all-white-space ends, and that slice is trimmed. */
  lemma TrimShape(s: string)
    ensures Trimmed(Trim(s))
    ensures exists i, j :: 0 <= i <= j <= |s| && Trim(s) == s[i..j] && AllSpace(s[..i]) && AllSpace(s[j..])
  {
    var a := TrimStart(s);
    TrimStartRemovesSpace(s);
    TrimEndRemovesSpace(a);
    var i := |s| - |a|;
    var j := i + |TrimEnd(a)|;
    assert Trim(s) == s[i..j];
    assert s[j..] == a[|TrimEnd(a)|..];
  }

  /** `trim` gives "" exactly on all-white-space strings. */
  lemma TrimEmpty(s: string)
    ensures Trim(s) == [] <==> AllSpace(s)
  {
    var a := TrimStart(s);
    TrimStartRemovesSpace(s);
    assert a == [] || a[0] == s[|s| - |a|];
    if Trim(s) == [] {
      TrimEndRemovesSpace(a);
      assert s == s[..|s| - |a|] + a;
    }
  }

  /** A string with no white space at either end is its own `trim`. */
  lemma TrimNoop(s: string)
    requires Trimmed(s)
    ensures Trim(s) == s
  {
  }

  function DigitChar(d: nat): (c: char)
    requires d < 10
    ensures IsDigit(c)
  {
    ('0' as int + d) as char
  }

  /** Decimal rendering of a natural number, as `${n}` writes it. */
  function NatToString(n: nat): (r: string)
    ensures |r| >= 1 && forall i :: 0 <= i < |r| ==> IsDigit(r[i])
    ensures |r| > 1 ==> r[0] != '0'
  {
    if n < 10 then [DigitChar(n)] else NatToString(n / 10) + [DigitChar(n % 10)]
  }

  /** Decimal value of a digit string. */
  function DecimalValue(s: string): nat
    requires forall i :: 0 <= i < |s| ==> IsDigit(s[i])
  {
    if s == [] then 0
    else
      assert IsDigit(s[|s| - 1]);
      DecimalValue(s[..|s| - 1]) * 10 + (s[|s| - 1] as int - '0' as int)
  }

  /** Reading the rendering back gives the number. */
  lemma {:induction false} NatToStringRoundTrip(n: nat)
    ensures DecimalValue(NatToString(n)) == n
  {
    if n >= 10 {
      NatToStringRoundTrip(n / 10);
      var s := NatToString(n);
      assert s[..|s| - 1] == NatToString(n / 10);
    }
  }

  /** Different numbers render differently. */
  lemma NatToStringInjective(a: nat, b: nat)
    requires NatToString(a) == NatToString(b)
    ensures a == b
  {
    NatToStringRoundTrip(a);
    NatToStringRoundTrip(b);
  }

  /** `${n}` for an integer-valued number. */
  function IntToString(n: int): string {
    if n < 0 then "-" + NatToString(-n) else NatToString(n)
  }

  /** Left-to-right, non-overlapping replacement of every occurrence of `pat`: `s.replace(/pat/g, rep)`. */
  function ReplaceAll(s: string, pat: string, rep: string): string
    requires pat != []
  {
    if |s| < |pat| then s
    else if s[..|pat|] == pat then rep + ReplaceAll(s[|pat|..], pat, rep)
    else [s[0]] + ReplaceAll(s[1..], pat, rep)
  }

  /** Replacing a character by a string free of that character removes it, and nothing else changes beyond sizes. */
  lemma {:induction false} ReplaceCharRemoves(s: string, c: char, rep: string)
    requires forall i :: 0 <= i < |rep| ==> rep[i] != c
    ensures forall i :: 0 <= i < |ReplaceAll(s, [c], rep)| ==> ReplaceAll(s, [c], rep)[i] != c
  {
    if |s| >= 1 {
      ReplaceCharRemoves(s[1..], c, rep);
      assert s[1..] == s[|[c]|..];
    }
  }

  /** Replacing a pattern whose first character never occurs changes nothing. */
  lemma {:induction false} ReplaceAllAbsent(s: string, pat: string, rep: string)
    requires pat != []
    requires forall i :: 0 <= i < |s| ==> s[i] != pat[0]
    ensures ReplaceAll(s, pat, rep) == s
  {
    if |s| >= |pat| {
      assert s[..|pat|][0] == s[0];
      ReplaceAll1(s, pat, rep);
      ReplaceAllAbsent(s[1..], pat, rep);
    }
  }

  lemma ReplaceAll1(s: string, pat: string, rep: string)
    requires pat != [] && |s| >= |pat| && s[0] != pat[0]
    ensures ReplaceAll(s, pat, rep) == [s[0]] + ReplaceAll(s[1..], pat, rep)
  {
    assert s[..|pat|][0] == s[0];
  }

  /** Every character of a replacement's result comes from the input or from the replacement text. */
  lemma {:induction false} ReplaceAllChars(s: string, pat: string, rep: string)
    requires pat != []
    ensures forall i :: 0 <= i < |ReplaceAll(s, pat, rep)| ==> ReplaceAll(s, pat, rep)[i] in s || ReplaceAll(s, pat, rep)[i] in rep
  {
    if |s| >= |pat| {
      var t := if s[..|pat|] == pat then s[|pat|..] else s[1..];
      ReplaceAllChars(t, pat, rep);
      forall i | 0 <= i < |t| ensures t[i] in s {
        assert t[i] == s[|s| - |t| + i];
      }
    }
  }
}
