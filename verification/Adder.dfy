/** The block carry-select adder (adder_n_bit.sv, USE_CARRY_SELECT), for every N and block width. */
module Adder {
  import opened Powers
  import opened Words
  import Mdu
  import Pipeline
  import Stages

  /** Width of the block that starts at bit `lsb`: the last block may be short. */
  function Width(N: nat, block: nat, lsb: nat): nat
    requires lsb <= N
  {
    if lsb + block <= N then block else N - lsb
  }

  /** Both candidate sums of a block are computed; the chained carry selects one.
      Sums keep width+1 bits. */
  function BlockSum(a: nat, b: nat, lsb: nat, width: nat, carry: bool): nat {
    var without := Low(Low(High(a, lsb), width) + Low(High(b, lsb), width), width + 1);
    var with := Low(Low(High(a, lsb), width) + Low(High(b, lsb), width) + 1, width + 1);
    if carry then with else without
  }

  /** The output bits from `lsb` upwards, given the carry into that position. */
  function SumFrom(N: nat, block: nat, a: nat, b: nat, lsb: nat, carry: bool): nat
    requires block >= 1 && lsb <= N
    decreases N - lsb
  {
    if lsb == N then 0
    else
      var w := Width(N, block, lsb);
      var s := BlockSum(a, b, lsb, w, carry);
      Low(s, w) + Pow2(w) * SumFrom(N, block, a, b, lsb + w, High(s, w) % 2 == 1)
  }

  /** o_sum: block 0 has no carry in. */
  function Sum(N: nat, block: nat, a: nat, b: nat): nat
    requires block >= 1
  {
    SumFrom(N, block, a, b, 0, false)
  }

  function Bit(carry: bool): nat { if carry then 1 else 0 }

  /** Taking the low w bits off x leaves High(x, w); splitting composes. */
  lemma HighHigh(x: nat, m: nat, n: nat)
    ensures High(x, m) >= 0 && High(High(x, m), n) == High(x, m + n)
  {
    Joins(x, m);
    Joins(High(x, m), n);
    Pow2Adds(m, n);
    hide High, Low, Pow2;
    var h, l, g, k := High(x, m), Low(x, m), High(High(x, m), n), Low(High(x, m), n);
    var p, q := Pow2(m), Pow2(n);
    Distributes(g * q, k, p);
    Associates(g, q, p);
    MulMono(k, q - 1, p);
    Distributes(q, -1, p);
    assert p * q == q * p;
    Splits(x, m + n, g, k * p + l);
  }

  /** The selected block sum is the true sum of the two fields and the carry; no bit is lost. */
  lemma BlockIsExact(a: nat, b: nat, lsb: nat, w: nat, carry: bool)
    ensures BlockSum(a, b, lsb, w, carry) == Low(High(a, lsb), w) + Low(High(b, lsb), w) + Bit(carry)
    ensures High(BlockSum(a, b, lsb, w, carry), w) == 0 || High(BlockSum(a, b, lsb, w, carry), w) == 1
  {
    var x, y := Low(High(a, lsb), w), Low(High(b, lsb), w);
    assert Pow2(w + 1) == 2 * Pow2(w);
    var s := x + y + Bit(carry);
    hide Low, High, Pow2;
    LowSmall(s, w + 1);
    if s < Pow2(w) { Splits(s, w, 0, s); } else { Splits(s, w, 1, s - Pow2(w)); }
  }

  /** Adding the parts above position w with the carry out of it gives the part above of the sum. */
  lemma CarryOut(x: nat, y: nat, c: bool, w: nat, rest: nat, r: nat)
    requires High(x, w) >= 0 && High(y, w) >= 0
    requires var s := Low(x, w) + Low(y, w) + Bit(c);
      && (High(s, w) == 0 || High(s, w) == 1)
      && r == Low(High(x, w) + High(y, w) + High(s, w), rest)
    ensures Low(Low(x, w) + Low(y, w) + Bit(c), w) + Pow2(w) * r == Low(x + y + Bit(c), w + rest)
  {
    var s := Low(x, w) + Low(y, w) + Bit(c);
    var t := High(x, w) + High(y, w) + High(s, w);
    Joins(x, w);
    Joins(y, w);
    Joins(s, w);
    Joins(t, rest);
    Pow2Adds(w, rest);
    hide Low, High, Pow2;
    var p, q := Pow2(w), Pow2(rest);
    Distributes(High(x, w), High(y, w), p);
    Distributes(High(x, w) + High(y, w), High(s, w), p);
    assert x + y + Bit(c) == t * p + Low(s, w);
    Distributes(High(t, rest) * q, r, p);
    Associates(High(t, rest), q, p);
    assert q * p == p * q && r * p == p * r;
    MulMono(r, q - 1, p);
    Distributes(q, -1, p);
    Splits(x + y + Bit(c), w + rest, High(t, rest), p * r + Low(s, w));
  }

  lemma {:induction false} SumFromIsSum(N: nat, block: nat, a: nat, b: nat, lsb: nat, carry: bool)
    requires block >= 1 && lsb <= N
    ensures SumFrom(N, block, a, b, lsb, carry) == Low(High(a, lsb) + High(b, lsb) + Bit(carry), N - lsb)
    decreases N - lsb
  {
    if lsb == N {
      assert Pow2(0) == 1;
    } else {
      var w := Width(N, block, lsb);
      var s := BlockSum(a, b, lsb, w, carry);
      BlockIsExact(a, b, lsb, w, carry);
      HighHigh(a, lsb, w);
      HighHigh(b, lsb, w);
      SumFromIsSum(N, block, a, b, lsb + w, High(s, w) % 2 == 1);
      hide Low, High, Pow2, BlockSum;
      CarryOut(High(a, lsb), High(b, lsb), carry, w, N - lsb - w,
               SumFrom(N, block, a, b, lsb + w, High(s, w) % 2 == 1));
    }
  }

  /** For every width, block width and operands, including a short last block,
      carry-select addition is addition modulo 2^N. */
  lemma CarrySelectAdds(N: nat, block: nat, a: nat, b: nat)
    requires block >= 1
    ensures Sum(N, block, a, b) == Low(a + b, N)
  {
    SumFromIsSum(N, block, a, b, 0, false);
    assert Pow2(0) == 1;
    assert High(a, 0) == a && High(b, 0) == b;
  }

  /** The adder as the pipeline instantiates it for data addresses: 32 bits in blocks of eight. */
  lemma DataAddressIsSelected(ex: Stages.IdEx, a: Word)
    ensures Pipeline.DataAddress(ex, a) == Sum(32, 8, a, ex.imm)
  {
    hide Sum, Pow2;
    CarrySelectAdds(32, 8, a, ex.imm);
    WordWidth();
  }
}
