/** Canonical decimal numerals, shared by every printer of the model. */
module Decimal {

  function Digit(d: nat): char
    requires d < 10
  {
    '0' + d as char
  }

  predicate IsDigit(c: char) {
    '0' <= c <= '9'
  }

  predicate AllDigits(s: string) {
    forall i :: 0 <= i < |s| ==> IsDigit(s[i])
  }

  /** The digits of `n`, none for zero. */
  function Digits(n: nat): string {
    if n == 0 then "" else Digits(n / 10) + [Digit(n % 10)]
  }

  /** The canonical numeral of an integer, as `%d` prints it. */
  function Text(v: int): string {
    if v == 0 then "0" else if v < 0 then "-" + Digits(-v) else Digits(v)
  }

  /** Reading digits left to right, in base ten. */
  function Value(s: string): nat
    requires AllDigits(s)
  {
    if s == "" then 0 else 10 * Value(s[..|s| - 1]) + (s[|s| - 1] - '0') as nat
  }

  /** An optional sign and at least one digit. */
  predicate IsNumeral(s: string) {
    var body := if s != "" && s[0] == '-' then s[1..] else s;
    body != "" && AllDigits(body)
  }

  function Read(s: string): int
    requires IsNumeral(s)
  {
    if s[0] == '-' then 0 - Value(s[1..]) else Value(s)
  }

  lemma {:induction false} DigitsRead(n: nat)
    ensures AllDigits(Digits(n)) && Value(Digits(n)) == n
    ensures n > 0 ==> Digits(n) != "" && Digits(n)[0] != '0'
    decreases n
  {
    if n > 0 {
      DigitsRead(n / 10);
      var s, c := Digits(n / 10), Digit(n % 10);
      assert (s + [c])[..|s|] == s;
      assert (c - '0') as nat == n % 10;
    }
  }

  /** Every integer reads back from its numeral, which has no leading zero. */
  lemma TextReads(v: int)
    ensures IsNumeral(Text(v)) && Read(Text(v)) == v
    ensures Text(v)[0] == '0' ==> v == 0
    ensures v < 0 ==> Text(v)[0] == '-' && Text(v)[1] != '0'
    ensures forall i :: 0 <= i < |Text(v)| ==> IsDigit(Text(v)[i]) || Text(v)[i] == '-'
  {
    DigitsRead(if v < 0 then -v else v);
    if v < 0 {
      assert Text(v)[1..] == Digits(-v);
    }
  }

  lemma TextInjective(v: int, w: int)
    requires Text(v) == Text(w)
    ensures v == w
  {
    TextReads(v);
    TextReads(w);
  }

  function Pow10(n: nat): nat {
    if n == 0 then 1 else 10 * Pow10(n - 1)
  }
}
