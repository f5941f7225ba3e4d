/** Decimal notation without sign or leading zeros, and the reading of any digit string. */
module Decimals {

  predicate IsDigit(c: char) { '0' <= c <= '9' }

  predicate Digits(s: string) { forall c <- s :: IsDigit(c) }

  function Decimal(n: nat): (s: string)
    ensures s != "" && Digits(s) && (s[0] == '0' ==> s == "0")
  {
    if n < 10 then ['0' + n as char] else Decimal(n / 10) + ['0' + (n % 10) as char]
  }

  function Amount(s: string): nat
    requires Digits(s)
  {
    if s == "" then 0
    else
      assert s[|s| - 1] in s;
      10 * Amount(s[..|s| - 1]) + (s[|s| - 1] as int - '0' as int)
  }

  /** Reading undoes writing. */
  lemma {:induction false} AmountOfDecimal(n: nat)
    ensures Amount(Decimal(n)) == n
  {
    if n >= 10 {
      AmountOfDecimal(n / 10);
      var s := Decimal(n);
      assert s[..|s| - 1] == Decimal(n / 10);
    }
  }
}
