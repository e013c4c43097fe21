/** Powers of two, and splitting a number at a bit position. */
module Powers {

  function Pow2(n: nat): (p: nat)
    ensures p > 0
  {
    if n == 0 then 1 else 2 * Pow2(n - 1)
  }

  /** The low n bits of x, in two's complement when x is negative. */
  function Low(x: int, n: nat): (r: nat)
    ensures r < Pow2(n)
  {
    x % Pow2(n)
  }

  /** x without its low n bits: an arithmetic shift right. */
  function High(x: int, n: nat): int {
    x / Pow2(n)
  }

  lemma {:induction false} Pow2Adds(a: nat, b: nat)
    ensures Pow2(a + b) == Pow2(a) * Pow2(b)
  {
    if a == 0 {
    } else {
      Pow2Adds(a - 1, b);
      assert Pow2(a + b) == 2 * Pow2(a - 1 + b);
    }
  }

  lemma Pow2Next(n: nat)
    ensures Pow2(n + 1) == 2 * Pow2(n)
  {
  }

  lemma WordWidth()
    ensures Pow2(32) == 0x1_0000_0000
  {
    assert Pow2(8) == 0x100;
    assert Pow2(16) == 0x100 * 0x100 by { Pow2Adds(8, 8); }
    assert Pow2(32) == 0x1_0000 * 0x1_0000 by { Pow2Adds(16, 16); }
  }

  lemma Distributes(a: int, b: int, c: int)
    ensures (a + b) * c == a * c + b * c
  {
  }

  lemma Associates(a: int, b: int, c: int)
    ensures (a * b) * c == a * (b * c)
  {
  }

  lemma MulMono(a: int, b: int, c: int)
    requires a <= b && 0 <= c
    ensures a * c <= b * c
  {
  }

  /** The quotient and remainder are the only pair with remainder in range. */
  lemma DivModUnique(x: int, d: int, q: int, r: int)
    requires 0 < d && 0 <= r < d && x == q * d + r
    ensures x / d == q && x % d == r
  {
    var e := x / d - q;
    assert x == d * (x / d) + x % d;
    assert e * d == r - x % d;
    if e >= 1 {
      MulMono(1, e, d);
    } else if e <= -1 {
      MulMono(1, -e, d);
    }
  }

  lemma DivModJoins(x: int, d: int)
    requires 0 < d
    ensures x == (x / d) * d + x % d
    ensures x >= 0 ==> x / d >= 0
  {
  }

  lemma Joins(x: int, n: nat)
    ensures x == High(x, n) * Pow2(n) + Low(x, n)
    ensures x >= 0 ==> High(x, n) >= 0
  {
    hide Pow2;
    DivModJoins(x, Pow2(n));
  }

  lemma Splits(x: int, n: nat, h: int, l: int)
    requires 0 <= l < Pow2(n) && x == h * Pow2(n) + l
    ensures High(x, n) == h && Low(x, n) == l
  {
    DivModUnique(x, Pow2(n), h, l);
  }

  lemma LowSmall(x: int, n: nat)
    requires 0 <= x < Pow2(n)
    ensures Low(x, n) == x && High(x, n) == 0
  {
    Splits(x, n, 0, x);
  }

  /** Moving the split one bit up moves one bit from the high part to the low part. */
  lemma SplitNext(x: int, n: nat)
    ensures High(x, n + 1) == High(x, n) / 2
    ensures Low(x, n + 1) == Low(x, n) + (High(x, n) % 2) * Pow2(n)
  {
    Joins(x, n);
    var h, l, p := High(x, n), Low(x, n), Pow2(n);
    var h2, b := h / 2, h % 2;
    assert h * p == h2 * Pow2(n + 1) + b * p by {
      assert (2 * h2 + b) * p == h2 * (2 * p) + b * p;
    }
    assert 0 <= b * p <= p by { if b == 0 { assert b * p == 0; } else { assert b * p == p; } }
    Splits(x, n + 1, h2, l + b * p);
  }

  lemma QuotientBound(a: nat, d: nat)
    requires d > 0
    ensures 0 <= a / d <= a
  {
    assert a == d * (a / d) + a % d;
    MulMono(1, d, a / d);
  }

  lemma HighBound(a: nat, n: nat)
    ensures 0 <= High(a, n) <= a
  {
    hide Pow2;
    QuotientBound(a, Pow2(n));
  }

  lemma NegateProduct(a: int, b: int)
    ensures (0 - a) * b == 0 - a * b == a * (0 - b)
    ensures (0 - a) * (0 - b) == a * b == b * a
  {
  }

  // Two's complement at width N.

  predicate Negative(N: nat, x: nat) requires N >= 1 {
    x >= Pow2(N - 1)
  }

  function Value(N: nat, x: nat): int requires N >= 1 {
    if Negative(N, x) then x - Pow2(N) else x
  }

  function Negate(N: nat, x: nat): nat {
    Low(Pow2(N) - 1 - x + 1, N)
  }

  function Abs(x: int): nat { if x < 0 then -x else x }

  lemma NegateValue(N: nat, x: nat)
    requires x < Pow2(N)
    ensures Negate(N, x) == (if x == 0 then 0 else Pow2(N) - x) == Low(0 - x, N)
  {
    hide Pow2, Low;
    if x == 0 {
      Splits(Pow2(N), N, 1, 0);
      Splits(0, N, 0, 0);
    } else {
      LowSmall(Pow2(N) - x, N);
      Splits(0 - x, N, -1, Pow2(N) - x);
    }
  }

  function Magnitude(N: nat, signed: bool, x: nat): nat
    requires N >= 1
  {
    if signed && Negative(N, x) then Negate(N, x) else x
  }

  lemma MagnitudeValue(N: nat, signed: bool, x: nat)
    requires N >= 1 && x < Pow2(N)
    ensures Magnitude(N, signed, x) == Abs(if signed then Value(N, x) else x) < Pow2(N)
  {
    NegateValue(N, x);
  }

  // The iteration counter shared by both engines.

  function CeilLog2(n: nat): nat
    decreases n
  {
    if n <= 1 then 0 else 1 + CeilLog2((n + 1) / 2)
  }

  function CountWidth(N: nat): nat {
    if N <= 2 then 1 else CeilLog2(N)
  }

  /** The iteration counter is wide enough: N - 1 is representable. */
  lemma {:induction false} CounterFits(n: nat)
    requires n >= 1
    ensures n <= Pow2(CeilLog2(n))
  {
    if n == 1 {
    } else {
      CounterFits((n + 1) / 2);
    }
  }

  lemma CountsUp(N: nat, i: nat)
    requires i + 1 <= N - 1
    ensures Low(i + 1, CountWidth(N)) == i + 1
  {
    CounterFits(N);
    assert Pow2(1) == 2 * Pow2(0);
    LowSmall(i + 1, CountWidth(N));
  }
}
