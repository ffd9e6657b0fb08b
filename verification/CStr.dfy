/** Characters and NUL-terminated strings as the C sources see them (C locale). */
module CStr {

  /** The content of a C string: bytes, none of them the terminator. */
  ghost predicate CString(s: string) {
    forall i | 0 <= i < |s| :: s[i] != '\0' && s[i] as int < 256
  }

  /** Reading through a pointer at offset i: the terminator sits just past the content. */
  function At(s: string, i: nat): char
    requires i <= |s|
  {
    if i == |s| then '\0' else s[i]
  }

  predicate IsDigit(c: char) { '0' <= c <= '9' }

  predicate IsSpace(c: char) { c == ' ' || '\t' <= c <= '\r' }

  function ToUpper(c: char): char {
    if 'a' <= c <= 'z' then ((c as int) - 32) as char else c
  }

  function ToLower(c: char): char {
    if 'A' <= c <= 'Z' then ((c as int) + 32) as char else c
  }

  function Sgn(x: int): int { if x < 0 then -1 else if x > 0 then 1 else 0 }

  predicate AllDigits(s: string) { forall i | 0 <= i < |s| :: IsDigit(s[i]) }

  function DigitValue(c: char): nat
    requires IsDigit(c)
  {
    c as int - '0' as int
  }

  function DigitChar(d: nat): (c: char)
    requires d < 10
    ensures IsDigit(c) && DigitValue(c) == d
  {
    ('0' as int + d) as char
  }

  /** The number a digit string denotes in base 10. */
  function Num(s: string): nat
    requires AllDigits(s)
  {
    if s == [] then 0 else 10 * Num(s[..|s| - 1]) + DigitValue(s[|s| - 1])
  }

  /** What printf's %d writes for a number that is not negative. */
  function Decimal(n: nat): (s: string)
    ensures |s| > 0 && AllDigits(s)
    ensures s[0] == '0' ==> n == 0
    ensures Num(s) == n
  {
    if n < 10 then [DigitChar(n)]
    else
      var s := Decimal(n / 10) + [DigitChar(n % 10)];
      assert s[..|s| - 1] == Decimal(n / 10);
      s
  }

  function Pow10(k: nat): nat { if k == 0 then 1 else 10 * Pow10(k - 1) }

  lemma {:induction false} NumBound(s: string)
    requires AllDigits(s)
    ensures Num(s) < Pow10(|s|)
  {
    if s != [] {
      NumBound(s[..|s| - 1]);
      assert IsDigit(s[|s| - 1]) && |s[..|s| - 1]| == |s| - 1;
    }
  }

  /** A number of |s| digits that does not start with 0 is at least 10^(|s|-1). */
  lemma {:induction false} NumLow(s: string)
    requires AllDigits(s) && |s| > 0 && s[0] != '0'
    ensures Pow10(|s| - 1) <= Num(s)
  {
    if |s| > 1 {
      NumLow(s[..|s| - 1]);
    } else {
      assert s[..0] == [];
    }
  }

  lemma {:induction false} Pow10Monotone(i: nat, j: nat)
    requires i <= j
    ensures 1 <= Pow10(i) <= Pow10(j)
    decreases i + j
  {
    if i > 0 {
      Pow10Monotone(i - 1, j - 1);
    } else if j > 0 {
      Pow10Monotone(0, j - 1);
    }
  }

  /** Longest prefix of digits. */
  function DigitPrefix(s: string): (d: string)
    ensures |d| <= |s| && d == s[..|d|] && AllDigits(d)
    ensures |d| < |s| ==> !IsDigit(s[|d|])
    ensures s != [] && IsDigit(s[0]) ==> |d| > 0
  {
    if s == [] || !IsDigit(s[0]) then [] else [s[0]] + DigitPrefix(s[1..])
  }

  lemma {:induction false} DigitPrefixUnique(s: string, d: string, rest: string)
    requires s == d + rest && AllDigits(d) && (rest == [] || !IsDigit(rest[0]))
    ensures DigitPrefix(s) == d
  {
    if d != [] {
      assert IsDigit(d[0]) && s[1..] == d[1..] + rest;
      DigitPrefixUnique(s[1..], d[1..], rest);
      assert d == [d[0]] + d[1..];
    }
  }
}
