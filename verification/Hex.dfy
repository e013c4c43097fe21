/** Hexadecimal numerals as Python's 08x format writes them and $readmemh reads them. */
module Hex {
  import opened Words

  const DIGITS: string := "0123456789abcdef"

  function Digit(d: nat): char
    requires d < 16
  {
    DIGITS[d]
  }

  function DigitValue(c: char): Option<nat> {
    if '0' <= c <= '9' then Some(c as nat - '0' as nat)
    else if 'a' <= c <= 'f' then Some(c as nat - 'a' as nat + 10)
    else if 'A' <= c <= 'F' then Some(c as nat - 'A' as nat + 10)
    else None
  }

  /** How many digits a number needs. */
  function Places(n: nat): nat { if n < 16 then 1 else 1 + Places(n / 16) }

  /** At least eight digits, filled with zeros. */
  function Numeral(n: nat): string { Digits(n, if Places(n) < 8 then 8 else Places(n)) }

  function Digits(n: nat, places: nat): string {
    if places == 0 then "" else Digits(n / 16, places - 1) + [Digit(n % 16)]
  }

  function Value(s: string): Option<nat> {
    if s == "" then Some(0)
    else
      match (Value(s[..|s| - 1]), DigitValue(s[|s| - 1]))
      case (Some(high), Some(low)) => Some(16 * high + low)
      case _ => None
  }

  lemma DigitReadsBack(d: nat)
    requires d < 16
    ensures DigitValue(Digit(d)) == Some(d) && Digit(d) != '@' && Digit(d) != '\n'
  {
  }

  /** A numeral with enough places reads back as its number. */
  lemma {:induction false} DigitsReadBack(n: nat, places: nat)
    requires n == 0 || Places(n) <= places
    ensures Value(Digits(n, places)) == Some(n) && |Digits(n, places)| == places
    ensures forall c <- Digits(n, places) :: c != '@' && c != '\n'
  {
    hide Digit, DigitValue;
    if places > 0 {
      DigitsReadBack(n / 16, places - 1);
      DigitReadsBack(n % 16);
      ValueAppends(Digits(n / 16, places - 1), Digit(n % 16), n / 16, n % 16);
    }
  }

  lemma ValueAppends(s: string, c: char, high: nat, low: nat)
    requires Value(s) == Some(high) && DigitValue(c) == Some(low)
    ensures Value(s + [c]) == Some(16 * high + low)
  {
    hide DigitValue;
    var t := s + [c];
    assert t[..|t| - 1] == s && t[|t| - 1] == c;
  }

  lemma NumeralReadsBack(n: nat)
    ensures Value(Numeral(n)) == Some(n) && |Numeral(n)| >= 8
    ensures forall c <- Numeral(n) :: c != '@' && c != '\n'
  {
    DigitsReadBack(n, if Places(n) < 8 then 8 else Places(n));
  }
}
