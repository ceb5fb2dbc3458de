/**
 * Characters and numbers written as text: the decimal and hexadecimal
 * digits the C and Python sources print and parse, and C's view of a
 * string cut at a length.
 */
module Text {
  function DigitChar(d: nat): char
    requires d < 10
  {
    "0123456789"[d]
  }

  function DigitValue(c: char): nat
  {
    if '0' <= c <= '9' then (c - '0') as nat else 0
  }

  /** Decimal digits of a natural number, most significant first. */
  function Decimal(n: nat): (s: string)
    ensures |s| > 0 && forall i | 0 <= i < |s| :: '0' <= s[i] <= '9'
  {
    if n < 10 then [DigitChar(n)] else Decimal(n / 10) + [DigitChar(n % 10)]
  }

  /** The number a string of decimal digits denotes. */
  function DecimalValue(s: string): nat
  {
    if |s| == 0 then 0 else 10 * DecimalValue(s[..|s| - 1]) + DigitValue(s[|s| - 1])
  }

  /** Reading back the digits `Decimal` writes gives the number again. */
  lemma {:induction false} DecimalRoundTrip(n: nat)
    ensures DecimalValue(Decimal(n)) == n
  {
    if n >= 10 {
      var s := Decimal(n);
      assert s[..|s| - 1] == Decimal(n / 10);
      DecimalRoundTrip(n / 10);
    }
  }

  /** What `printf("%d")` writes for an int: a minus sign before the digits of a negative number. */
  function SignedDecimal(i: int): (s: string)
    ensures |s| > 0
  {
    if i < 0 then "-" + Decimal(-i) else Decimal(i)
  }

  function Pow10(k: nat): nat
  {
    if k == 0 then 1 else 10 * Pow10(k - 1)
  }

  /** A number below 10^k has at most k digits. */
  lemma {:induction false} DecimalLength(n: nat, k: nat)
    requires 0 < k && n < Pow10(k)
    ensures |Decimal(n)| <= k
  {
    if n >= 10 {
      assert k > 1;
      assert n / 10 < Pow10(k - 1);
      DecimalLength(n / 10, k - 1);
    }
  }

  /** The first `n` characters of `s`, or all of it when it is shorter: what `strncpy` keeps of a C string. */
  function Prefix(s: string, n: nat): (r: string)
    ensures |r| == if n < |s| then n else |s|
    ensures r <= s
  {
    if n < |s| then s[..n] else s
  }

  /**
   * The C string a buffer holding `dst` holds after `strncpy(buffer, src, n)`:
   * a source shorter than `n` is copied with its terminator; otherwise
   * exactly `n` characters are written and the old text after them stays.
   */
  function StrNCpy(dst: string, src: string, n: nat): (r: string)
    ensures Prefix(r, n) == Prefix(src, n)
    ensures |dst| <= n ==> r == Prefix(src, n)
    ensures |src| < n ==> r == src
  {
    if |src| < n then src else src[..n] + (if n < |dst| then dst[n..] else [])
  }

  /** `strncmp(a, b, n) == 0` on C strings without embedded NULs: the first `n` characters agree, a string's end counting as a character. */
  predicate StrNEq(a: string, b: string, n: nat)
  {
    Prefix(a, n) == Prefix(b, n)
  }

  /** C's `isspace` in the "C" locale. */
  predicate IsSpace(c: char)
  {
    c == ' ' || c == '\t' || c == '\n' || c == '\r' || c == '\U{000C}' || c == '\U{000B}'
  }
}
