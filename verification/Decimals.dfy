/** Decimal numerals: printing a number and reading one from the beginning of a text. */
module Decimals {

  function DigitChar(d: nat): char
    requires d < 10
  {
    ('0' as int + d) as char
  }

  function Dec(n: nat): (s: string)
    ensures s != ""
  {
    if n < 10 then [DigitChar(n)] else Dec(n / 10) + [DigitChar(n % 10)]
  }

  predicate IsDigit(c: char) {
    '0' <= c <= '9'
  }

  function NumberOf(digits: string): nat {
    if digits == "" then 0
    else
      var c := digits[|digits| - 1];
      10 * NumberOf(digits[..|digits| - 1]) + (if IsDigit(c) then c as int - '0' as int else 0)
  }

  lemma {:induction false} DecReadsBack(n: nat)
    ensures NumberOf(Dec(n)) == n
    ensures forall c :: c in Dec(n) ==> IsDigit(c)
  {
    if n >= 10 {
      DecReadsBack(n / 10);
      assert Dec(n)[..|Dec(n)| - 1] == Dec(n / 10);
    } else {
      assert Dec(n)[..0] == "";
    }
  }

  /** How many digits a text begins with. */
  function Digits(text: string): (n: nat)
    ensures n <= |text|
  {
    if text != "" && IsDigit(text[0]) then 1 + Digits(text[1..]) else 0
  }

  lemma {:induction false} DigitsOf(digits: string, rest: string)
    requires (forall c :: c in digits ==> IsDigit(c)) && rest != "" && !IsDigit(rest[0])
    ensures Digits(digits + rest) == |digits|
  {
    if digits != "" {
      assert (digits + rest)[1..] == digits[1..] + rest;
      DigitsOf(digits[1..], rest);
    } else {
      assert digits + rest == rest;
    }
  }
}
