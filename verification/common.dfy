/** Shared vocabulary: an Option type, unsigned bytes, the string operations the
    Kotlin code takes from its standard library (startsWith, endsWith, contains,
    lowercase, substringBeforeLast, substringAfterLast, toString of an integer),
    and a decimal parser that is the inverse of the decimal formatter. */
module Common {

  datatype Option<+T> = None | Some(value: T)

  /** An unsigned byte: what `b.toInt() and 0xFF` yields for a Kotlin `Byte`. */
  type uint8 = b: int | 0 <= b < 256

  // ---------------------------------------------------------------------------
  // Prefix, suffix and infix tests

  predicate StartsWith(s: string, p: string) {
    |p| <= |s| && s[..|p|] == p
  }

  predicate EndsWith(s: string, p: string) {
    |p| <= |s| && s[|s| - |p|..] == p
  }

  /** `p` occurs in `s` starting at index `i`. */
  predicate OccursAt(s: string, p: string, i: int) {
    0 <= i && i + |p| <= |s| && s[i..i + |p|] == p
  }

  predicate Contains(s: string, p: string) {
    exists i | 0 <= i <= |s| - |p| :: OccursAt(s, p, i)
  }

  lemma StartsWithContains(s: string, p: string)
    requires StartsWith(s, p)
    ensures Contains(s, p)
  {
    assert OccursAt(s, p, 0);
  }

  lemma ContainsInInfix(s: string, i: int, j: int, p: string)
    requires 0 <= i <= j <= |s| && Contains(s[i..j], p)
    ensures Contains(s, p)
  {
    var k :| 0 <= k <= |s[i..j]| - |p| && OccursAt(s[i..j], p, k);
    SliceOfSlice(s, i, j, k, k + |p|);
    assert OccursAt(s, p, i + k);
  }

  lemma SliceOfSlice<T>(s: seq<T>, i: int, j: int, k: int, l: int)
    requires 0 <= i <= j <= |s| && 0 <= k <= l <= j - i
    ensures s[i..j][k..l] == s[i + k..i + l]
  {
    var a, b := s[i..j][k..l], s[i + k..i + l];
    assert forall t | 0 <= t < l - k :: a[t] == b[t];
  }

  // ---------------------------------------------------------------------------
  // ASCII lower-casing

  function ToLowerChar(c: char): (r: char)
    ensures 'A' <= c <= 'Z' ==> r as int == c as int + 32
    ensures !('A' <= c <= 'Z') ==> r == c
  {
    if 'A' <= c <= 'Z' then (c as int + 32) as char else c
  }

  function ToLower(s: string): (r: string)
    ensures |r| == |s|
    ensures forall i | 0 <= i < |s| :: r[i] == ToLowerChar(s[i])
  {
    seq(|s|, i requires 0 <= i < |s| => ToLowerChar(s[i]))
  }

  // ---------------------------------------------------------------------------
  // Last occurrence of a character, and the two Kotlin substring helpers built on it

  /** The index of the last `c` in `s`, if any. */
  function LastIndexOf(s: string, c: char): (r: Option<nat>)
    ensures r.None? <==> c !in s
    ensures r.Some? ==> r.value < |s| && s[r.value] == c && c !in s[r.value + 1..]
    decreases |s|
  {
    if |s| == 0 then None
    else if s[|s| - 1] == c then Some(|s| - 1)
    else
      var r := LastIndexOf(s[..|s| - 1], c);
      assert s == s[..|s| - 1] + [s[|s| - 1]];
      r
  }

  /** Kotlin's `substringBeforeLast(d)`: everything before the last `d`,
      or the whole string when `d` does not occur. */
  function SubstringBeforeLast(s: string, d: char): string {
    match LastIndexOf(s, d)
    case None => s
    case Some(i) => s[..i]
  }

  /** Kotlin's `substringAfterLast(d)`: everything after the last `d`,
      or the whole string when `d` does not occur. */
  function SubstringAfterLast(s: string, d: char): string {
    match LastIndexOf(s, d)
    case None => s
    case Some(i) => s[i + 1..]
  }

  // ---------------------------------------------------------------------------
  // Decimal formatting (Kotlin's toString / string templates) and its inverse

  predicate IsDigit(c: char) {
    '0' <= c <= '9'
  }

  function DigitChar(d: nat): (c: char)
    requires d < 10
    ensures IsDigit(c) && c as int - '0' as int == d
  {
    ('0' as int + d) as char
  }

  /** The decimal representation of `n`, without leading zeros. */
  function NatToString(n: nat): (s: string)
    ensures |s| > 0
    decreases n
  {
    if n < 10 then [DigitChar(n)] else NatToString(n / 10) + [DigitChar(n % 10)]
  }

  function IntToString(i: int): string {
    if i < 0 then "-" + NatToString(-i) else NatToString(i)
  }

  /** The value of a string of decimal digits. */
  function DigitsValue(s: string): nat
    requires forall i | 0 <= i < |s| :: IsDigit(s[i])
    decreases |s|
  {
    if |s| == 0 then 0
    else
      assert IsDigit(s[|s| - 1]);
      DigitsValue(s[..|s| - 1]) * 10 + (s[|s| - 1] as int - '0' as int)
  }

  /** Parses a non-empty string of decimal digits. */
  function ParseNat(s: string): Option<nat> {
    if |s| > 0 && forall i | 0 <= i < |s| :: IsDigit(s[i]) then Some(DigitsValue(s)) else None
  }

  lemma {:induction false} NatToStringDigits(n: nat)
    ensures forall i | 0 <= i < |NatToString(n)| :: IsDigit(NatToString(n)[i])
    ensures DigitsValue(NatToString(n)) == n
    decreases n
  {
    if n >= 10 {
      NatToStringDigits(n / 10);
      var s := NatToString(n);
      assert s[..|s| - 1] == NatToString(n / 10);
    }
  }

  /** Formatting then parsing gives the number back. */
  lemma ParseNatToString(n: nat)
    ensures ParseNat(NatToString(n)) == Some(n)
  {
    NatToStringDigits(n);
  }
}
