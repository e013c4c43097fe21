/** Binary digits of machine words, and words combined digit by digit. */
module Bits {
  import opened Words
  import opened Powers

  /** The digit of weight 2^k. */
  function Digit(x: nat, k: nat): nat { (x / Pow2(k)) % 2 }

  lemma DigitIsBinary(x: nat, k: nat)
    ensures Digit(x, k) == 0 || Digit(x, k) == 1
  {
    hide Pow2;
  }

  /** One column of a bitwise operation. */
  datatype Gate = AndGate | OrGate | XorGate

  function Output(g: Gate, x: bool, y: bool): bool {
    match g
    case AndGate => x && y
    case OrGate => x || y
    case XorGate => x != y
  }

  /** The n lowest columns of two numbers, through one gate each. */
  function Bitwise(g: Gate, a: nat, b: nat, n: nat): (r: nat)
    ensures r < Pow2(n)
  {
    if n == 0 then 0
    else 2 * Bitwise(g, a / 2, b / 2, n - 1) + if Output(g, a % 2 == 1, b % 2 == 1) then 1 else 0
  }

  lemma DigitNext(x: nat, k: nat)
    ensures Digit(x, k + 1) == Digit(x / 2, k) && Digit(x, 0) == x % 2
  {
    var p := Pow2(k);
    assert Pow2(k + 1) == 2 * p;
    hide Pow2;
    HalfFirst(x, p);
  }

  lemma HalfFirst(x: nat, p: nat)
    requires p > 0
    ensures x / (2 * p) == (x / 2) / p
  {
    var q, r := (x / 2) / p, (x / 2) % p;
    DivModJoins(x / 2, p);
    Associates(2, q, p);
    DoubleProduct(q, p);
    DivModUnique(x, 2 * p, q, 2 * r + x % 2);
  }

  lemma DoubleProduct(q: nat, p: nat)
    ensures q * (2 * p) == 2 * (q * p)
  {
  }

  lemma {:induction false} BitwiseDigit(g: Gate, a: nat, b: nat, n: nat, k: nat)
    requires k < n
    ensures Digit(Bitwise(g, a, b, n), k) == 1 <==> Output(g, Digit(a, k) == 1, Digit(b, k) == 1)
  {
    var r := Bitwise(g, a, b, n);
    hide Pow2, Output, Digit;
    if k == 0 {
      DigitNext(r, 0);
      DigitNext(a, 0);
      DigitNext(b, 0);
    } else {
      DigitNext(r, k - 1);
      DigitNext(a, k - 1);
      DigitNext(b, k - 1);
      BitwiseDigit(g, a / 2, b / 2, n - 1, k - 1);
    }
  }

  /** A number is determined by its digits. */
  lemma {:induction false} DigitsDetermine(a: nat, b: nat, n: nat)
    requires a < Pow2(n) && b < Pow2(n) && forall k: nat :: k < n ==> Digit(a, k) == Digit(b, k)
    ensures a == b
  {
    if n > 0 {
      forall k: nat | k < n - 1 ensures Digit(a / 2, k) == Digit(b / 2, k) {
        assert Digit(a, k + 1) == Digit(b, k + 1);
        DigitNext(a, k);
        DigitNext(b, k);
        hide Pow2, Digit;
      }
      DigitsDetermine(a / 2, b / 2, n - 1);
      assert Digit(a, 0) == Digit(b, 0);
      DigitNext(a, 0);
      DigitNext(b, 0);
    }
  }

  /** Complementing every digit is subtracting from all ones. */
  lemma {:induction false} ComplementDigit(a: nat, n: nat, k: nat)
    requires a < Pow2(n) && k < n
    ensures Digit(Pow2(n) - 1 - a, k) == 1 - Digit(a, k)
  {
    var c := Pow2(n) - 1 - a;
    assert Pow2(n) == 2 * Pow2(n - 1);
    if k == 0 {
      DigitNext(c, 0);
      DigitNext(a, 0);
    } else {
      DigitNext(c, k - 1);
      DigitNext(a, k - 1);
      assert c / 2 == Pow2(n - 1) - 1 - a / 2;
      ComplementDigit(a / 2, n - 1, k - 1);
    }
  }

  /** The number whose digit k below n is set exactly when p holds of k. */
  function Numeral(p: nat -> bool, n: nat): (r: nat)
    ensures r < Pow2(n)
  {
    if n == 0 then 0 else Numeral(p, n - 1) + if p(n - 1) then Pow2(n - 1) else 0
  }

  lemma {:induction false} NumeralDigit(p: nat -> bool, n: nat, k: nat)
    requires k < n
    ensures Digit(Numeral(p, n), k) == 1 <==> p(k)
  {
    hide Pow2, Digit;
    var low := Numeral(p, n - 1);
    if k == n - 1 {
      TopDigit(low, k);
    } else {
      NumeralDigit(p, n - 1, k);
      AddTop(low, n - 1, k);
    }
  }

  lemma TopDigit(low: nat, k: nat)
    requires low < Pow2(k)
    ensures Digit(low + Pow2(k), k) == 1 && Digit(low, k) == 0
  {
    hide Pow2;
    DivModUnique(low + Pow2(k), Pow2(k), 1, low);
    DivModUnique(low, Pow2(k), 0, low);
  }

  /** A higher digit does not change a lower one. */
  lemma AddTop(x: nat, n: nat, k: nat)
    requires k < n
    ensures Digit(x + Pow2(n), k) == Digit(x, k)
  {
    var p, q := Pow2(k), Pow2(n - k - 1);
    Pow2Adds(n - k, k);
    assert Pow2(n - k) == 2 * q;
    hide Pow2;
    DivModJoins(x, p);
    Distributes(x / p, 2 * q, p);
    DivModUnique(x + Pow2(n), p, x / p + 2 * q, x % p);
    EvenAdds(x / p, q);
  }

  lemma EvenAdds(x: nat, y: nat)
    ensures (x + 2 * y) % 2 == x % 2
  {
  }
}
