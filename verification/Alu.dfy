/** The single-cycle integer datapath: alu_unit.sv, branch_unit.sv and jump_unit.sv. */
module Alu {
  import opened Words
  import opened Decode
  import opened Powers
  import opened Bits

  function Gated(g: Gate, a: Word, b: Word): Word {
    WordWidth();
    Bitwise(g, a, b, 32)
  }

  function And(a: Word, b: Word): Word { Gated(AndGate, a, b) }
  function Or(a: Word, b: Word): Word { Gated(OrGate, a, b) }
  function Xor(a: Word, b: Word): Word { Gated(XorGate, a, b) }
  function Not(a: Word): Word { 0xFFFF_FFFF - a }

  /** Digit by digit, the operations are what their names say. */
  lemma BitwiseByDigits(a: Word, b: Word, k: nat)
    requires k < 32
    ensures Digit(And(a, b), k) == 1 <==> Digit(a, k) == 1 && Digit(b, k) == 1
    ensures Digit(Or(a, b), k) == 1 <==> Digit(a, k) == 1 || Digit(b, k) == 1
    ensures Digit(Xor(a, b), k) == 1 <==> Digit(a, k) != Digit(b, k)
    ensures Digit(Not(a), k) == 1 <==> Digit(a, k) == 0
  {
    hide Digit, Pow2, Bitwise;
    WordWidth();
    BitwiseDigit(AndGate, a, b, 32, k);
    BitwiseDigit(OrGate, a, b, 32, k);
    BitwiseDigit(XorGate, a, b, 32, k);
    ComplementDigit(a, 32, k);
    DigitIsBinary(a, k);
    DigitIsBinary(b, k);
  }

  function ShiftLeft(a: Word, n: Reg): Word { Wrap(a * Pow2(n)) }

  function ShiftRight(a: Word, n: Reg): Word {
    QuotientBound(a, Pow2(n));
    a / Pow2(n)
  }

  /** Arithmetic shift right: for a negative word, complement, shift in zeros, complement back. */
  function ShiftRightSigned(a: Word, n: Reg): Word {
    if a < 0x8000_0000 then ShiftRight(a, n) else Not(ShiftRight(Not(a), n))
  }

  /** alu_unit.sv: the M operations never reach this unit and read as zero. */
  function Compute(op: AluOp, a: Word, b: Word): Word {
    var n := b % 32;
    match op
    case AluAdd => Wrap(a + b)
    case AluSub => Wrap(a - b)
    case AluAnd => And(a, b)
    case AluOr => Or(a, b)
    case AluXor => Xor(a, b)
    case AluSlt => if Signed(a) < Signed(b) then 1 else 0
    case AluSltu => if a < b then 1 else 0
    case AluSll => ShiftLeft(a, n)
    case AluSrl => ShiftRight(a, n)
    case AluSra => ShiftRightSigned(a, n)
    case _ => 0
  }

  predicate Condition(f3: nat, a: Word, b: Word) {
    if f3 == 0 then a == b
    else if f3 == 1 then a != b
    else if f3 == 4 then Signed(a) < Signed(b)
    else if f3 == 5 then Signed(a) >= Signed(b)
    else if f3 == 6 then a < b
    else if f3 == 7 then a >= b
    else false
  }

  function JumpTarget(jal: bool, jalr: bool, pc: Word, a: Word, imm: Word): Word {
    if jal then Wrap(pc + imm)
    else if jalr then var t := Wrap(a + imm); t - t % 2
    else Wrap(pc + 4)
  }
}
