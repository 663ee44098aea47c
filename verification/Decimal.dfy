/** Decimal text of natural numbers: what `to_string` prints and what `parse::<u32>` accepts. */
module Decimal {
  import opened Wrappers

  const U32_LIMIT: nat := 0x1_0000_0000

  /** `as u32` keeps the low 32 bits. */
  function AsU32(n: nat): (r: nat)
    ensures r < U32_LIMIT
  {
    n % U32_LIMIT
  }

  function DigitChar(d: nat): char
    requires d < 10
  {
    ('0' as int + d) as char
  }

  predicate IsDigit(c: char) {
    '0' <= c <= '9'
  }

  function DigitValue(c: char): nat
    requires IsDigit(c)
  {
    c as int - '0' as int
  }

  predicate AllDigits(s: string) {
    forall k :: 0 <= k < |s| ==> IsDigit(s[k])
  }

  function Dec(n: nat): string {
    if n < 10 then [DigitChar(n)] else Dec(n / 10) + [DigitChar(n % 10)]
  }

  function ValueOf(s: string): nat
    requires AllDigits(s)
  {
    if s == [] then 0 else ValueOf(s[..|s| - 1]) * 10 + DigitValue(s[|s| - 1])
  }

  /** Rust's `str::parse::<u32>`: one optional leading '+', then digits only, within 32 bits. */
  function ParseU32(s: string): Option<nat> {
    var body := if |s| > 0 && s[0] == '+' then s[1..] else s;
    if body != [] && AllDigits(body) && ValueOf(body) < U32_LIMIT then Some(ValueOf(body)) else None
  }

  lemma ValueOfAppend(s: string, d: nat)
    requires AllDigits(s) && d < 10
    ensures AllDigits(s + [DigitChar(d)]) && ValueOf(s + [DigitChar(d)]) == ValueOf(s) * 10 + d
  {}

  /** The printed form is the canonical numeral: digits, the right value, no leading zero. */
  lemma {:induction false} DecIsNumeral(n: nat)
    ensures Dec(n) != [] && AllDigits(Dec(n))
    ensures ValueOf(Dec(n)) == n
    ensures Dec(n)[0] == '0' ==> n == 0
    ensures Dec(n)[0] != '+'
  {
    if n < 10 {
      assert ValueOf([DigitChar(n)][..0]) == 0;
    } else {
      DecIsNumeral(n / 10);
      ValueOfAppend(Dec(n / 10), n % 10);
    }
  }

  lemma DecInjective(m: nat, n: nat)
    requires Dec(m) == Dec(n)
    ensures m == n
  {
    DecIsNumeral(m);
    DecIsNumeral(n);
  }

  /** Printing a 32-bit count and parsing it back gives the count. */
  lemma ParsePrinted(n: nat)
    requires n < U32_LIMIT
    ensures ParseU32(Dec(n)) == Some(n)
  {
    DecIsNumeral(n);
  }

  /** What parses, and to what: one optional plus sign before digits whose value is under 2^32. */
  lemma ParsesIff(s: string, n: nat)
    ensures ParseU32(s) == Some(n) <==>
      n < 0x1_0000_0000 && exists d :: (s == d || s == "+" + d) && d != "" && AllDigits(d) && ValueOf(d) == n
  {
    if ParseU32(s) == Some(n) {
      var d := if s[0] == '+' then s[1..] else s;
      assert AllDigits(d);
    }
    if d :| (s == d || s == "+" + d) && d != "" && AllDigits(d) && ValueOf(d) == n {
      assert IsDigit(d[0]);
      assert s == "+" + d ==> s[1..] == d;
    }
  }
}
