/** The two text conversions whippet applies to user ids: `u32::to_string` and
    `str::parse::<u32>`.  The parser accepts more spellings than the printer produces
    (a leading '+', leading zeros), so several names can denote one uid. */
module Decimal {
  import opened Wrappers

  const U32_MAX: nat := 0xFFFF_FFFF

  type u32 = n: nat | n <= U32_MAX

  predicate IsDigit(c: char) { '0' <= c <= '9' }

  function DigitValue(c: char): nat
    requires IsDigit(c)
  {
    c as int - '0' as int
  }

  predicate AllDigits(s: string) { forall i :: 0 <= i < |s| ==> IsDigit(s[i]) }

  /** The number a string of digits denotes. */
  function DigitsValue(s: string): nat
    requires AllDigits(s)
  {
    if s == [] then 0 else 10 * DigitsValue(s[..|s| - 1]) + DigitValue(s[|s| - 1])
  }

  function Show(n: nat): (s: string)
    ensures s != [] && AllDigits(s)
  {
    var digit := ['0' + (n % 10) as char];
    if n < 10 then digit else Show(n / 10) + digit
  }

  function ParseU32(s: string): (r: Option<u32>) {
    var digits := if s != [] && s[0] == '+' then s[1..] else s;
    if digits == [] || !AllDigits(digits) || DigitsValue(digits) > U32_MAX then None
    else Some(DigitsValue(digits))
  }

  lemma {:induction false} ShowValue(n: nat)
    ensures DigitsValue(Show(n)) == n
  {
    if n >= 10 {
      ShowValue(n / 10);
      assert Show(n)[..|Show(n)| - 1] == Show(n / 10);
    }
  }

  /** Printing a uid and parsing the text gives the uid back. */
  lemma ShowParses(n: u32)
    ensures ParseU32(Show(n)) == Some(n)
  {
    ShowValue(n);
    assert IsDigit(Show(n)[0]);
  }

  lemma ShowInjective(a: u32, b: u32)
    ensures Show(a) == Show(b) <==> a == b
  {
    ShowParses(a);
    ShowParses(b);
  }
}
