/**
 * The string operations the pages use: substring search, digit extraction,
 * whitespace trimming and ASCII upper-casing. Locale-sensitive lower-casing
 * is not defined here; callers pass it in as a `CaseFold` function.
 */
module Text {
  import opened Types

  /** A lower-casing function supplied by the environment. */
  type CaseFold = string -> string

  /** `hay` contains `needle` as a contiguous substring. */
  predicate Includes(hay: string, needle: string) {
    exists i | 0 <= i <= |hay| - |needle| :: OccursAt(hay, needle, i)
  }

  predicate OccursAt(hay: string, needle: string, i: int)
    requires 0 <= i <= |hay| - |needle|
  {
    hay[i..i + |needle|] == needle
  }

  /** Every string contains the empty string, and every string contains itself. */
  lemma IncludesTrivial(s: string)
    ensures Includes(s, "")
    ensures Includes(s, s)
  {
    assert OccursAt(s, "", 0);
    assert OccursAt(s, s, 0);
  }

  predicate IsDigit(c: char) {
    '0' <= c <= '9'
  }

  predicate AllDigits(s: string) {
    forall k :: 0 <= k < |s| ==> IsDigit(s[k])
  }

  /** The digits of `s`, in order; every other character is dropped. */
  function DigitsOf(s: string): (r: string)
    ensures |r| <= |s|
    ensures AllDigits(r)
    ensures forall c :: c in r <==> c in s && IsDigit(c)
    ensures AllDigits(s) ==> r == s
  {
    if s == [] then []
    else if IsDigit(s[0]) then [s[0]] + DigitsOf(s[1..])
    else DigitsOf(s[1..])
  }

  /** The digits of a concatenation are the digits of each part, in turn: order and repetitions are kept. */
  lemma {:induction false} DigitsOfAppend(a: string, b: string)
    ensures DigitsOf(a + b) == DigitsOf(a) + DigitsOf(b)
  {
    if a == [] {
      assert a + b == b;
    } else {
      assert (a + b)[0] == a[0];
      assert (a + b)[1..] == a[1..] + b;
      DigitsOfAppend(a[1..], b);
    }
  }

  /** The characters the ECMAScript trim operation removes. */
  predicate IsSpace(c: char) {
    c == ' ' || c == '\t' || c == '\n' || c == '\r' || c == '\U{000B}' || c == '\U{000C}'
    || c == '\U{00A0}' || c == '\U{FEFF}' || c == '\U{1680}' || ('\U{2000}' <= c <= '\U{200A}')
    || c == '\U{2028}' || c == '\U{2029}' || c == '\U{202F}' || c == '\U{205F}' || c == '\U{3000}'
  }

  predicate AllSpace(s: string) {
    forall k :: 0 <= k < |s| ==> IsSpace(s[k])
  }

  /** The index of the first non-whitespace character of `s` at or after `i` (or |s|). */
  function SkipSpace(s: string, i: nat): (n: nat)
    requires i <= |s|
    ensures i <= n <= |s|
    ensures forall k :: i <= k < n ==> IsSpace(s[k])
    ensures n == |s| || !IsSpace(s[n])
    decreases |s| - i
  {
    if i == |s| || !IsSpace(s[i]) then i else SkipSpace(s, i + 1)
  }

  /** The end of `s[lo..hi]` once its trailing whitespace is dropped. */
  function SkipSpaceBack(s: string, lo: nat, hi: nat): (n: nat)
    requires lo <= hi <= |s|
    ensures lo <= n <= hi
    ensures forall k :: n <= k < hi ==> IsSpace(s[k])
    ensures n == lo || !IsSpace(s[n - 1])
    decreases hi
  {
    if hi == lo || !IsSpace(s[hi - 1]) then hi else SkipSpaceBack(s, lo, hi - 1)
  }

  /** The number of leading whitespace characters of `s`. */
  function LeadingSpace(s: string): nat
    ensures LeadingSpace(s) <= |s|
  {
    SkipSpace(s, 0)
  }

  /**
   * `s` without leading and trailing whitespace: the slice of `s` after its
   * leading whitespace and before its trailing whitespace, empty exactly
   * when `s` is all whitespace, and otherwise starting and ending with a
   * non-whitespace character.
   */
  function Trim(s: string): (r: string)
    ensures LeadingSpace(s) + |r| <= |s|
    ensures r == s[LeadingSpace(s)..LeadingSpace(s) + |r|]
    ensures forall k :: 0 <= k < LeadingSpace(s) ==> IsSpace(s[k])
    ensures forall k :: LeadingSpace(s) + |r| <= k < |s| ==> IsSpace(s[k])
    ensures r == [] <==> AllSpace(s)
    ensures r != [] ==> !IsSpace(r[0]) && !IsSpace(r[|r| - 1])
  {
    var i := SkipSpace(s, 0);
    var j := SkipSpaceBack(s, i, |s|);
    s[i..j]
  }

  /** `toUpperCase` on one character, ASCII letters only: a-z become A-Z, every other character is kept. */
  function UpperChar(c: char): (u: char)
    ensures !('a' <= u <= 'z')
  {
    if 'a' <= c <= 'z' then (c as int - 32) as char else c
  }

  /** A character is left as it is exactly when it is not a lower-case ASCII letter. */
  lemma UpperCharFixes(c: char)
    ensures UpperChar(c) == c <==> !('a' <= c <= 'z')
  {
    if 'a' <= c <= 'z' {
      assert UpperChar(c) as int == c as int - 32;
    }
  }

  /**
   * A numeric text field: what was typed, and what parseInt or parseFloat
   * makes of it (None when the result is not a number).
   */
  datatype NumberField = NumberField(text: string, parsed: Option<int>)

  /** `parse(text) || d`: a value that is not a number, or is 0, falls back to `d`. */
  function OrDefault(n: NumberField, d: int): (v: int)
    ensures n.parsed.Some? && n.parsed.value != 0 ==> v == n.parsed.value
    ensures n.parsed.None? || n.parsed.value == 0 ==> v == d
  {
    if n.parsed.Some? && n.parsed.value != 0 then n.parsed.value else d
  }
}
