/** Integers in decimal: strconv.ParseInt and what it reads back. */
module Decimals {
  import opened Wrappers

  predicate AllDigits(s: string) {
    forall i :: 0 <= i < |s| ==> '0' <= s[i] <= '9'
  }

  function DigitsValue(s: string): int
    requires AllDigits(s)
  {
    if s == "" then 0 else 10 * DigitsValue(s[..|s| - 1]) + (s[|s| - 1] as int - '0' as int)
  }

  /** strconv.ParseInt(s, 10, 64) */
  function ParseInt(s: string): Option<int> {
    var signed := s != "" && (s[0] == '+' || s[0] == '-');
    var digits := if signed then s[1..] else s;
    if digits == "" || !AllDigits(digits) then None
    else
      var n := if signed && s[0] == '-' then -DigitsValue(digits) else DigitsValue(digits);
      if -0x8000_0000_0000_0000 <= n < 0x8000_0000_0000_0000 then Some(n) else None
  }

  predicate Int64(n: int) {
    -0x8000_0000_0000_0000 <= n < 0x8000_0000_0000_0000
  }

  function Digit(d: nat): (c: char)
    requires d < 10
    ensures '0' <= c <= '9' && c as int - '0' as int == d
  {
    '0' + d as char
  }

  function Digits(n: nat): (s: string)
    ensures s != ""
  {
    if n < 10 then [Digit(n)] else Digits(n / 10) + [Digit(n % 10)]
  }

  /** strconv.FormatInt(n, 10) */
  function Decimal(n: int): string {
    if n < 0 then "-" + Digits(-n) else Digits(n)
  }

  lemma DigitsValueStep(s: string, c: char)
    requires AllDigits(s) && '0' <= c <= '9'
    ensures AllDigits(s + [c]) && DigitsValue(s + [c]) == 10 * DigitsValue(s) + (c as int - '0' as int)
  {
    assert (s + [c])[..|s|] == s;
  }

  lemma {:induction false} DigitsAreRead(n: nat)
    ensures AllDigits(Digits(n)) && DigitsValue(Digits(n)) == n
  {
    hide Digit;
    if n < 10 {
      DigitsValueStep("", Digit(n));
      assert "" + [Digit(n)] == Digits(n);
    } else {
      DigitsAreRead(n / 10);
      DigitsValueStep(Digits(n / 10), Digit(n % 10));
    }
  }

  /** What is printed in decimal is read back, with or without a sign, if it fits into 64 bits. */
  lemma ParseDecimal(n: int)
    ensures ParseInt(Decimal(n)) == if Int64(n) then Some(n) else None
    ensures n >= 0 ==> ParseInt("+" + Decimal(n)) == ParseInt(Decimal(n))
  {
    hide Digits, DigitsValue;
    DigitsAreRead(if n < 0 then -n else n);
    if n < 0 {
      assert Decimal(n)[1..] == Digits(-n);
    } else {
      assert ("+" + Decimal(n))[1..] == Digits(n);
    }
  }

  predicate IsDigit(c: char) {
    '0' <= c <= '9'
  }

  /** Only digits are read, at least one, after at most one sign; more than 64 bits are not. */
  lemma ParsedAreDigits(s: string)
    requires ParseInt(s).Some?
    ensures s != "" && IsDigit(s[|s| - 1]) && (IsDigit(s[0]) || s[0] == '+' || s[0] == '-')
    ensures forall i :: 0 < i < |s| ==> IsDigit(s[i])
    ensures Int64(ParseInt(s).value)
  {
    hide DigitsValue;
    if !IsDigit(s[0]) {
      assert forall i :: 0 < i < |s| ==> s[i] == s[1..][i - 1];
    }
  }
}
