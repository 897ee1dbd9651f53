/**
 * The handful of Python `str` operations the worker applies to column names
 * and cell text: `strip`, `lower`, `upper`, one-character `replace`,
 * `startswith` and the substring test `in`.
 */
module Text {

  /** Python's `str.isspace` for one character. */
  predicate IsSpace(c: char) {
    || c == ' '
    || '\t' <= c <= '\r'
    || '\U{1C}' <= c <= '\U{1F}'
    || c == '\U{85}' || c == '\U{A0}' || c == '\U{1680}'
    || '\U{2000}' <= c <= '\U{200A}'
    || c == '\U{2028}' || c == '\U{2029}' || c == '\U{202F}'
    || c == '\U{205F}' || c == '\U{3000}'
  }

  predicate IsUpperAscii(c: char) { 'A' <= c <= 'Z' }
  predicate IsLowerAscii(c: char) { 'a' <= c <= 'z' }

  function LowerChar(c: char): (r: char)
    ensures !IsUpperAscii(r)
    ensures IsSpace(r) <==> IsSpace(c)
    ensures !IsUpperAscii(c) ==> r == c
  {
    if IsUpperAscii(c) then (c as int + 32) as char else c
  }

  function UpperChar(c: char): (r: char)
    ensures !IsLowerAscii(r)
    ensures IsSpace(r) <==> IsSpace(c)
    ensures !IsLowerAscii(c) ==> r == c
  {
    if IsLowerAscii(c) then (c as int - 32) as char else c
  }

  /** `s.lower()` */
  function Lower(s: string): (r: string)
    ensures |r| == |s|
    ensures forall i :: 0 <= i < |s| ==> r[i] == LowerChar(s[i])
  {
    seq(|s|, i requires 0 <= i < |s| => LowerChar(s[i]))
  }

  /** `s.upper()` */
  function Upper(s: string): (r: string)
    ensures |r| == |s|
    ensures forall i :: 0 <= i < |s| ==> r[i] == UpperChar(s[i])
  {
    seq(|s|, i requires 0 <= i < |s| => UpperChar(s[i]))
  }

  /** `s.replace(a, b)` for one-character `a` and `b`. */
  function Replace(s: string, a: char, b: char): (r: string)
    ensures |r| == |s|
    ensures forall i :: 0 <= i < |s| ==> r[i] == (if s[i] == a then b else s[i])
  {
    seq(|s|, i requires 0 <= i < |s| => if s[i] == a then b else s[i])
  }

  /** The first position at or after `i` that does not hold white space. */
  function SkipSpace(s: string, i: nat): (k: nat)
    requires i <= |s|
    ensures i <= k <= |s|
    ensures k == |s| || !IsSpace(s[k])
    decreases |s| - i
  {
    if i < |s| && IsSpace(s[i]) then SkipSpace(s, i + 1) else i
  }

  /** The end of `s[lo..j]` once white space at its end is dropped. */
  function BackSpace(s: string, lo: nat, j: nat): (e: nat)
    requires lo <= j <= |s|
    ensures lo <= e <= j
    ensures e == lo || !IsSpace(s[e - 1])
  {
    if j > lo && IsSpace(s[j - 1]) then BackSpace(s, lo, j - 1) else j
  }

  /** Everything `SkipSpace` passes over is white space. */
  lemma {:induction false} SkipSpaceSkipsSpace(s: string, i: nat)
    requires i <= |s|
    ensures forall m :: i <= m < SkipSpace(s, i) ==> IsSpace(s[m])
    decreases |s| - i
  {
    if i < |s| && IsSpace(s[i]) {
      SkipSpaceSkipsSpace(s, i + 1);
    }
  }

  /** Everything `BackSpace` drops is white space. */
  lemma {:induction false} BackSpaceDropsSpace(s: string, lo: nat, j: nat)
    requires lo <= j <= |s|
    ensures forall m :: BackSpace(s, lo, j) <= m < j ==> IsSpace(s[m])
  {
    if j > lo && IsSpace(s[j - 1]) {
      BackSpaceDropsSpace(s, lo, j - 1);
    }
  }

  /** No white space at either end. */
  predicate Trimmed(s: string) {
    s == [] || (!IsSpace(s[0]) && !IsSpace(s[|s| - 1]))
  }

  /** `s.strip()` */
  function Strip(s: string): (r: string)
    ensures Trimmed(r)
    ensures |r| <= |s|
  {
    var k := SkipSpace(s, 0);
    s[k..BackSpace(s, k, |s|)]
  }

  /**
   * `strip` removes white space from both ends and nothing else: the result
   * is the piece of `s` starting at the first character that is not white
   * space, and everything before and after that piece is white space. With
   * `Trimmed`, the piece is the largest such.
   */
  lemma StripRemovesSpaceOnly(s: string)
    ensures SkipSpace(s, 0) + |Strip(s)| <= |s|
    ensures Strip(s) == s[SkipSpace(s, 0)..SkipSpace(s, 0) + |Strip(s)|]
    ensures forall m :: 0 <= m < SkipSpace(s, 0) ==> IsSpace(s[m])
    ensures forall m :: SkipSpace(s, 0) + |Strip(s)| <= m < |s| ==> IsSpace(s[m])
  {
    var k := SkipSpace(s, 0);
    SkipSpaceSkipsSpace(s, 0);
    BackSpaceDropsSpace(s, k, |s|);
    assert Strip(s) == s[k..k + |Strip(s)|];
  }

  /** Stripping a string that has no white space at its ends leaves it alone. */
  lemma StripTrimmed(s: string)
    requires Trimmed(s)
    ensures Strip(s) == s
  {
    assert SkipSpace(s, 0) == 0;
    assert BackSpace(s, 0, |s|) == |s|;
  }

  /** Lower-casing a string without upper-case letters leaves it alone. */
  lemma LowerIdentity(s: string)
    requires forall i :: 0 <= i < |s| ==> !IsUpperAscii(s[i])
    ensures Lower(s) == s
  {
  }

  /** Replacing a character that does not occur leaves the string alone. */
  lemma ReplaceAbsent(s: string, a: char, b: char)
    requires a !in s
    ensures Replace(s, a, b) == s
  {
  }

  /** After `replace(a, b)` no `a` is left. */
  lemma ReplaceRemoves(s: string, a: char, b: char)
    requires a != b
    ensures a !in Replace(s, a, b)
  {
    var r := Replace(s, a, b);
    assert forall i :: 0 <= i < |r| ==> r[i] != a;
  }

  /** `replace(a, b)` introduces no character other than `b`. */
  lemma ReplaceKeepsAbsent(s: string, a: char, b: char, x: char)
    requires x !in s && x != b
    ensures x !in Replace(s, a, b)
  {
    var r := Replace(s, a, b);
    assert forall i :: 0 <= i < |r| ==> r[i] != x;
  }

  /** `replace` with a non-space replacement keeps the ends free of white space. */
  lemma ReplaceKeepsTrimmed(s: string, a: char, b: char)
    requires Trimmed(s) && !IsSpace(b)
    ensures Trimmed(Replace(s, a, b))
  {
  }

  /** `replace` with a character that is not an upper-case letter brings in none. */
  lemma ReplaceKeepsNoUpper(s: string, a: char, b: char)
    requires forall i :: 0 <= i < |s| ==> !IsUpperAscii(s[i])
    requires !IsUpperAscii(b)
    ensures forall i :: 0 <= i < |Replace(s, a, b)| ==> !IsUpperAscii(Replace(s, a, b)[i])
  {
  }

  /** Lower-casing keeps the ends free of white space. */
  lemma LowerKeepsTrimmed(s: string)
    requires Trimmed(s)
    ensures Trimmed(Lower(s))
  {
  }

  /** `t in s` for strings: `t` occurs as a contiguous piece of `s`. */
  predicate Contains(s: string, t: string)
    decreases |s|
  {
    (|t| <= |s| && s[..|t|] == t) || (|s| > 0 && Contains(s[1..], t))
  }

  /** `s.startswith(t)` */
  predicate StartsWith(s: string, t: string) {
    |t| <= |s| && s[..|t|] == t
  }

  /** An occurrence of `t` at position `k` of `s` is found by `t in s`. */
  lemma {:induction false} ContainsAt(s: string, t: string, k: nat)
    requires k + |t| <= |s| && s[k..k + |t|] == t
    ensures Contains(s, t)
    decreases k
  {
    if k > 0 {
      assert s[1..][k - 1..k - 1 + |t|] == s[k..k + |t|];
      ContainsAt(s[1..], t, k - 1);
    }
  }

  /** A string without the first character of `t` does not contain `t`. */
  lemma {:induction false} LacksFirstChar(s: string, t: string)
    requires |t| > 0 && t[0] !in s
    ensures !Contains(s, t)
    decreases |s|
  {
    if |s| > 0 {
      assert forall i :: 1 <= i < |s| ==> s[1..][i - 1] == s[i];
      LacksFirstChar(s[1..], t);
    }
  }
}
