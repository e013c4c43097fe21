/** The arithmetic of the test model (reference_model.py), in unbounded integers, against what the
    reference machine computes on words. */
module Predicted {
  import opened Words
  import opened Powers
  import opened Bits
  import opened Decode
  import opened Alu
  import A = Assembler
  import Mul = Multiplier
  import Div = Divider
  import Mdu
  import M = Machine

  /** signed_quotient: the quotient of magnitudes, negated when the signs differ. */
  function SignedQuotient(x: int, y: int): int
    requires y != 0
  {
    var m := Abs(x) / Abs(y);
    if (x < 0) != (y < 0) then 0 - m else m
  }

  /** The quotient and remainder the model predicts for DIV and REM. */
  function SignedDivision(a: Word, b: Word): (int, int) {
    var sa, sb := Signed(a), Signed(b);
    if b == 0 then (-1, sa)
    else if sa == -0x8000_0000 && sb == -1 then (sa, 0)
    else var q := SignedQuotient(sa, sb); (q, sa - q * sb)
  }

  function Division(m: A.Mnemonic, a: Word, b: Word): int {
    if m == A.Div then SignedDivision(a, b).0
    else if m == A.Rem then SignedDivision(a, b).1
    else if m == A.Divu then if b == 0 then 0xFFFF_FFFF else a / b
    else if b == 0 then a else a % b
  }

  // Python's bitwise operators on numbers below 2^32, by their digits.

  function BitXor(a: nat, b: nat): nat { Numeral((k: nat) => Digit(a, k) != Digit(b, k), 32) }
  function BitOr(a: nat, b: nat): nat { Numeral((k: nat) => Digit(a, k) == 1 || Digit(b, k) == 1, 32) }
  function BitAnd(a: nat, b: nat): nat { Numeral((k: nat) => Digit(a, k) == 1 && Digit(b, k) == 1, 32) }

  /** The value predicted for a register-register instruction, before u32. */
  function RegisterValue(m: A.Mnemonic, a: Word, b: Word): int
    requires A.KindOf(m) == A.KR
  {
    var n := b % 0x20;
    if m == A.Add then a + b
    else if m == A.Sub then a - b
    else if m == A.Sll then a * Pow2(n)
    else if m == A.Slt then if Signed(a) < Signed(b) then 1 else 0
    else if m == A.Sltu then if a < b then 1 else 0
    else if m == A.Xor then BitXor(a, b)
    else if m == A.Srl then a / Pow2(n)
    else if m == A.Sra then Signed(a) / Pow2(n)
    else if m == A.Or then BitOr(a, b)
    else if m == A.And then BitAnd(a, b)
    else if m == A.Mul then a * b
    else if m == A.Mulh then (Signed(a) * Signed(b)) / 0x1_0000_0000
    else if m == A.Mulhsu then (Signed(a) * b) / 0x1_0000_0000
    else if m == A.Mulhu then (a * b) / 0x1_0000_0000
    else Division(m, a, b)
  }

  /** The value predicted for a register-immediate instruction, before u32. */
  function ImmediateValue(m: A.Mnemonic, a: Word, imm: int): int
    requires A.KindOf(m) in {A.KI, A.KShift} && A.Fits(m, imm)
  {
    if m == A.Addi then a + imm
    else if m == A.Slti then if Signed(a) < imm then 1 else 0
    else if m == A.Sltiu then if a < Wrap(imm) then 1 else 0
    else if m == A.Xori then BitXor(a, Wrap(imm))
    else if m == A.Ori then BitOr(a, Wrap(imm))
    else if m == A.Andi then BitAnd(a, Wrap(imm))
    else if m == A.Slli then a * Pow2(imm)
    else if m == A.Srli then a / Pow2(imm)
    else Signed(a) / Pow2(imm)
  }

  // ---- Bitwise operations -------------------------------------------------------------------

  /** The datapath's gates compute Python's operators. */
  lemma GatesAgree(a: Word, b: Word)
    ensures BitXor(a, b) == Xor(a, b) && BitOr(a, b) == Or(a, b) && BitAnd(a, b) == And(a, b)
  {
    WordWidth();
    forall k: nat | k < 32
      ensures Digit(BitXor(a, b), k) == Digit(Xor(a, b), k)
      ensures Digit(BitOr(a, b), k) == Digit(Or(a, b), k)
      ensures Digit(BitAnd(a, b), k) == Digit(And(a, b), k)
    {
      BitwiseByDigits(a, b, k);
      NumeralDigit((m: nat) => Digit(a, m) != Digit(b, m), 32, k);
      NumeralDigit((m: nat) => Digit(a, m) == 1 || Digit(b, m) == 1, 32, k);
      NumeralDigit((m: nat) => Digit(a, m) == 1 && Digit(b, m) == 1, 32, k);
      DigitIsBinary(BitXor(a, b), k);
      DigitIsBinary(BitOr(a, b), k);
      DigitIsBinary(BitAnd(a, b), k);
      DigitIsBinary(Xor(a, b), k);
      DigitIsBinary(Or(a, b), k);
      DigitIsBinary(And(a, b), k);
      hide Digit, Pow2, Xor, Or, And, Numeral;
    }
    DigitsDetermine(BitXor(a, b), Xor(a, b), 32);
    DigitsDetermine(BitOr(a, b), Or(a, b), 32);
    DigitsDetermine(BitAnd(a, b), And(a, b), 32);
    hide Pow2, Xor, Or, And, Numeral;
  }

  // ---- Shifts ------------------------------------------------------------------------------

  /** Python's arithmetic right shift floors; the datapath complements, shifts and complements. */
  lemma FlooredShift(a: Word, n: Reg)
    ensures ShiftRightSigned(a, n) == Wrap(Signed(a) / Pow2(n))
  {
    var p := Pow2(n);
    hide Pow2;
    QuotientBound(a, p);
    if a >= 0x8000_0000 {
      var c := 0xFFFF_FFFF - a;
      QuotientBound(c, p);
      DivModJoins(c, p);
      NegatedFloor(c, p, c / p, c % p);
    }
  }

  lemma NegatedFloor(c: nat, p: nat, q: int, r: int)
    requires 0 < p && 0 <= r < p && c == q * p + r
    ensures (-1 - c) / p == -1 - q
  {
    Distributes(-1, -q, p);
    NegateProduct(q, p);
    DivModUnique(-1 - c, p, -1 - q, p - 1 - r);
  }

  lemma ShiftsAgree(a: Word, n: Reg)
    ensures ShiftLeft(a, n) == Wrap(a * Pow2(n)) && ShiftRight(a, n) == Wrap(a / Pow2(n))
  {
    hide Pow2;
    QuotientBound(a, Pow2(n));
  }

  // ---- Multiply and divide -----------------------------------------------------------------

  lemma LowIsWrap(x: int)
    ensures Low(x, 32) == Wrap(x) && High(x, 32) == x / 0x1_0000_0000
  {
    WordWidth();
    hide Pow2;
  }

  lemma ValueIsS32(w: Word)
    ensures Value(32, w) == Signed(w) && (Negative(32, w) <==> w >= 0x8000_0000)
  {
    WordWidth();
    assert Pow2(32) == 2 * Pow2(31);
    hide Pow2;
  }

  lemma WrapTwice(x: int)
    ensures Wrap(Wrap(x)) == Wrap(x)
  {
  }

  lemma MultipliesAgree(m: A.Mnemonic, a: Word, b: Word)
    requires m in {A.Mul, A.Mulh, A.Mulhsu, A.Mulhu}
    ensures Mdu.WordExpected(A.F3(m), a, b) == Wrap(RegisterValue(m, a, b))
  {
    WordWidth();
    hide Low, High, Pow2, Value, Wrap, Signed, Div.Expected, Xor, Or, And, Division;
    ValueIsS32(a);
    ValueIsS32(b);
    var op := Mdu.MulOp(A.F3(m));
    var product := Mul.OperandA(32, op, a) * Mul.OperandB(32, op, b);
    LowIsWrap(product);
    LowIsWrap(product / 0x1_0000_0000);
    WrapTwice(product);
    WrapTwice(product / 0x1_0000_0000);
    assert Mdu.Expected(32, A.F3(m), a, b) == Mul.Expected(32, op, a, b);
  }

  /** The model's remainder is defined from its quotient; it is the standard's. */
  lemma RemainderAgrees(x: int, y: int)
    requires y != 0
    ensures SignedQuotient(x, y) == Div.Quotient(x, y) && x - SignedQuotient(x, y) * y == Div.Remainder(x, y)
  {
    assert SignedQuotient(x, y) == Div.Quotient(x, y);
    hide Div.Quotient, Div.Remainder, SignedQuotient, Abs;
    Div.QuotientUnique(x, y, Div.Quotient(x, y), Div.Remainder(x, y));
  }

  /** The standard's special results: division by zero and overflow. */
  lemma SpecialDivision(op: Div.Operation, a: Word, b: Word)
    requires b < Pow2(32) && Div.SignedOp(op) && (b == 0 || (a == 0x8000_0000 && b == 0xFFFF_FFFF))
    ensures Div.Expected(32, op, a, b)
         == if b == 0 then (if op == Div.Rem then a else 0xFFFF_FFFF) else if op == Div.Rem then 0 else a
  {
    WordWidth();
    assert Pow2(32) == 2 * Pow2(31);
    hide Low, Pow2, Value, Negative, Wrap, Div.Quotient, Div.Remainder;
  }

  lemma OrdinaryDivision(op: Div.Operation, a: Word, b: Word)
    requires b < Pow2(32) && Div.SignedOp(op) && b != 0 && !(a == 0x8000_0000 && b == 0xFFFF_FFFF)
    ensures Div.Expected(32, op, a, b)
         == Wrap(if op == Div.Rem then Div.Remainder(Signed(a), Signed(b)) else Div.Quotient(Signed(a), Signed(b)))
  {
    WordWidth();
    assert Pow2(32) == 2 * Pow2(31);
    ValueIsS32(a);
    ValueIsS32(b);
    LowIsWrap(if op == Div.Rem then Div.Remainder(Signed(a), Signed(b)) else Div.Quotient(Signed(a), Signed(b)));
    hide Low, Pow2, Value, Negative, Wrap, Div.Quotient, Div.Remainder, High;
  }

  lemma SignedDivides(m: A.Mnemonic, a: Word, b: Word)
    requires m in {A.Div, A.Rem}
    ensures Mdu.WordExpected(A.F3(m), a, b) == Wrap(Division(m, a, b))
  {
    hide Low, High, Pow2, Value, Negative, Wrap, Mul.Expected, SignedQuotient, Div.Quotient, Div.Remainder,
         Div.Expected;
    WordWidth();
    var op := Mdu.DivOp(A.F3(m));
    assert Mdu.Expected(32, A.F3(m), a, b) == Div.Expected(32, op, a, b);
    WrapSigned(a);
    if b == 0 || (a == 0x8000_0000 && b == 0xFFFF_FFFF) {
      SpecialDivision(op, a, b);
    } else {
      OrdinaryDivision(op, a, b);
      RemainderAgrees(Signed(a), Signed(b));
      WrapTwice(Div.Remainder(Signed(a), Signed(b)));
      WrapTwice(Div.Quotient(Signed(a), Signed(b)));
    }
  }

  lemma WrapSigned(a: Word)
    ensures Wrap(Signed(a)) == a == Wrap(a) && Wrap(-1) == 0xFFFF_FFFF == Wrap(0xFFFF_FFFF) && Wrap(0) == 0
  {
  }

  lemma UnsignedDivides(m: A.Mnemonic, a: Word, b: Word)
    requires m in {A.Divu, A.Remu}
    ensures Mdu.WordExpected(A.F3(m), a, b) == Wrap(Division(m, a, b))
  {
    WordWidth();
    hide Low, High, Pow2, Value, Wrap, Mul.Expected;
    var op := Mdu.DivOp(A.F3(m));
    assert Mdu.Expected(32, A.F3(m), a, b) == Div.Expected(32, op, a, b);
    if b != 0 {
      UnsignedPair(a, b);
      var x := if m == A.Remu then a % b else a / b;
      LowIsWrap(x);
      WrapTwice(x);
    }
  }

  lemma UnsignedPair(a: Word, b: Word)
    requires b != 0
    ensures Div.Quotient(a, b) == a / b && Div.Remainder(a, b) == a % b
  {
  }

  // ---- Every instruction -------------------------------------------------------------------

  /** What the reference machine computes for a register-register instruction. */
  lemma RegisterValueAgrees(m: A.Mnemonic, w: Word, a: Word, b: Word)
    requires A.KindOf(m) == A.KR && Opcode(w) == OP_REG && Funct3(w) == A.F3(m) && Funct7(w) == A.F7(m)
    ensures M.RegisterOp(w, a, b) == Wrap(RegisterValue(m, a, b))
  {
    hide Opcode, Funct3, Funct7, Mdu.WordExpected, ShiftLeft, ShiftRight, ShiftRightSigned, Xor, Or, And, Pow2,
         Division;
    if A.F7(m) == 1 {
      if m in {A.Mul, A.Mulh, A.Mulhsu, A.Mulhu} { MultipliesAgree(m, a, b); }
      else if m in {A.Div, A.Rem} { SignedDivides(m, a, b); }
      else { UnsignedDivides(m, a, b); }
    } else {
      SimpleValueAgrees(m, w, a, b);
    }
  }

  lemma SimpleValueAgrees(m: A.Mnemonic, w: Word, a: Word, b: Word)
    requires A.KindOf(m) == A.KR && A.F7(m) != 1 && Funct3(w) == A.F3(m) && Funct7(w) == A.F7(m)
    ensures M.RegisterOp(w, a, b) == Wrap(RegisterValue(m, a, b))
  {
    hide Opcode, Funct3, Funct7, Mdu.WordExpected, ShiftLeft, ShiftRight, ShiftRightSigned, Xor, Or, And, Pow2,
         Division, BitXor, BitOr, BitAnd;
    GatesAgree(a, b);
    ShiftsAgree(a, b % 32);
    FlooredShift(a, b % 32);
  }

  /** Signed comparison with an immediate. */
  lemma ImmediateIsSigned(imm: int)
    requires -0x800 <= imm < 0x800
    ensures Signed(Wrap(imm)) == imm
  {
  }

  lemma WrapsAdd(a: int, b: int)
    ensures Wrap(a + Wrap(b)) == Wrap(a + b)
  {
  }

  lemma ImmediateValueAgrees(m: A.Mnemonic, w: Word, a: Word, imm: int)
    requires A.KindOf(m) == A.KI && A.Fits(m, imm) && Funct3(w) == A.F3(m) && ImmI(w) == Wrap(imm)
    ensures M.ImmediateOp(w, a) == Wrap(ImmediateValue(m, a, imm))
  {
    hide Opcode, Funct3, Funct7, ImmI, ShiftLeft, ShiftRight, ShiftRightSigned, Xor, Or, And, Pow2, Wrap,
         BitXor, BitOr, BitAnd;
    GatesAgree(a, Wrap(imm));
    ImmediateIsSigned(imm);
    WrapsAdd(a, imm);
    SmallWraps(Xor(a, Wrap(imm)));
    SmallWraps(Or(a, Wrap(imm)));
    SmallWraps(And(a, Wrap(imm)));
    SmallWraps(0);
    SmallWraps(1);
  }

  lemma SmallWraps(w: Word)
    ensures Wrap(w) == w
  {
  }

  lemma ShiftValueAgrees(m: A.Mnemonic, w: Word, a: Word, imm: int)
    requires A.KindOf(m) == A.KShift && A.Fits(m, imm) && Funct3(w) == A.F3(m) && Funct7(w) == A.F7(m)
    requires ImmI(w) % 0x20 == imm
    ensures M.ImmediateOp(w, a) == Wrap(ImmediateValue(m, a, imm))
  {
    hide Opcode, Funct3, Funct7, ImmI, ShiftLeft, ShiftRight, ShiftRightSigned, Xor, Or, And, BitXor, BitOr, BitAnd,
         Pow2;
    ShiftsAgree(a, imm);
    FlooredShift(a, imm);
  }
}
