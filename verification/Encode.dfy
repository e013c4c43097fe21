/** Instruction formats as bit fields: the encoders of riscv.py, of the decompressor's
    enc_* functions and of the RVC oracle all build words this way. */
module Encode {
  import opened Words
  import opened Decode

  type Field3 = x: nat | x < 8
  type Field7 = x: nat | x < 0x80
  type Imm12 = x: nat | x < 0x1000
  type Imm13 = x: nat | x < 0x2000
  type Imm20 = x: nat | x < 0x10_0000
  type Imm21 = x: nat | x < 0x20_0000

  function EncR(f7: Field7, rs2: Reg, rs1: Reg, f3: Field3, rd: Reg, op: Field7): Word {
    f7 * 0x200_0000 + rs2 * 0x10_0000 + rs1 * 0x8000 + f3 * 0x1000 + rd * 0x80 + op
  }

  function EncI(imm: Imm12, rs1: Reg, f3: Field3, rd: Reg, op: Field7): Word {
    imm * 0x10_0000 + rs1 * 0x8000 + f3 * 0x1000 + rd * 0x80 + op
  }

  function EncS(imm: Imm12, rs2: Reg, rs1: Reg, f3: Field3, op: Field7): Word {
    EncR(imm / 0x20, rs2, rs1, f3, imm % 0x20, op)
  }

  /** The offset's bit 0 is not encoded. */
  function EncB(offset: Imm13, rs2: Reg, rs1: Reg, f3: Field3, op: Field7): Word {
    EncR((offset / 0x1000) * 0x40 + (offset / 0x20) % 0x40, rs2, rs1, f3,
         ((offset / 2) % 0x10) * 2 + (offset / 0x800) % 2, op)
  }

  function EncU(upper: Imm20, rd: Reg, op: Field7): Word {
    upper * 0x1000 + rd * 0x80 + op
  }

  function EncJ(offset: Imm21, rd: Reg, op: Field7): Word {
    EncU((offset / 0x10_0000) * 0x8_0000 + ((offset / 2) % 0x400) * 0x200
         + ((offset / 0x800) % 2) * 0x100 + (offset / 0x1000) % 0x100, rd, op)
  }

  // ---- Every field and immediate comes back ------------------------------------------------

  lemma FieldsR(f7: Field7, rs2: Reg, rs1: Reg, f3: Field3, rd: Reg, op: Field7)
    ensures var i := EncR(f7, rs2, rs1, f3, rd, op);
      && Opcode(i) == op && Rd(i) == rd && Funct3(i) == f3 && Rs1(i) == rs1 && Rs2(i) == rs2 && Funct7(i) == f7
      && CsrField(i) == f7 * 0x20 + rs2
  {
    var i := EncR(f7, rs2, rs1, f3, rd, op);
    assert i / 0x80 == f7 * 0x4_0000 + rs2 * 0x2000 + rs1 * 0x100 + f3 * 0x20 + rd;
    assert i / 0x1000 == f7 * 0x2000 + rs2 * 0x100 + rs1 * 8 + f3;
    assert i / 0x8000 == f7 * 0x400 + rs2 * 0x20 + rs1;
    assert i / 0x10_0000 == f7 * 0x20 + rs2;
  }

  lemma IsR(imm: Imm12, rs1: Reg, f3: Field3, rd: Reg, op: Field7)
    ensures EncI(imm, rs1, f3, rd, op) == EncR(imm / 0x20, imm % 0x20, rs1, f3, rd, op)
  {
  }

  /** I format: the immediate generator returns the sign-extended 12 bits. */
  lemma FieldsI(imm: Imm12, rs1: Reg, f3: Field3, rd: Reg, op: Field7)
    ensures var i := EncI(imm, rs1, f3, rd, op);
      && Opcode(i) == op && Rd(i) == rd && Funct3(i) == f3 && Rs1(i) == rs1
      && Funct7(i) == imm / 0x20 && CsrField(i) == imm && ImmI(i) == SignExtend(imm, 0x800)
  {
    IsR(imm, rs1, f3, rd, op);
    FieldsR(imm / 0x20, imm % 0x20, rs1, f3, rd, op);
    hide SignExtend, EncR, EncI, Opcode, Rd, Funct3, Rs1, Rs2, Funct7;
  }

  lemma FieldsS(imm: Imm12, rs2: Reg, rs1: Reg, f3: Field3, op: Field7)
    ensures var i := EncS(imm, rs2, rs1, f3, op);
      && Opcode(i) == op && Funct3(i) == f3 && Rs1(i) == rs1 && Rs2(i) == rs2
      && ImmS(i) == SignExtend(imm, 0x800)
  {
    FieldsR(imm / 0x20, rs2, rs1, f3, imm % 0x20, op);
    hide SignExtend, EncR, Opcode, Rd, Funct3, Rs1, Rs2, Funct7;
  }

  /** The bits of a word whose top seven and rd fields are known. */
  lemma TopBits(f7: Field7, rs2: Reg, rs1: Reg, f3: Field3, rd: Reg, op: Field7)
    ensures var i := EncR(f7, rs2, rs1, f3, rd, op);
      && i / 0x8000_0000 == f7 / 0x40 && (i / 0x200_0000) % 0x40 == f7 % 0x40
      && (i / 0x80) % 2 == rd % 2 && (i / 0x100) % 0x10 == rd / 2
  {
    var i := EncR(f7, rs2, rs1, f3, rd, op);
    assert i / 0x80 == f7 * 0x4_0000 + rs2 * 0x2000 + rs1 * 0x100 + f3 * 0x20 + rd;
    assert i / 0x100 == (i / 0x80) / 2;
    assert i / 0x200_0000 == f7;
    assert i / 0x8000_0000 == (i / 0x200_0000) / 0x40;
  }

  lemma ScatteredB(offset: Imm13)
    requires offset % 2 == 0
    ensures (offset / 0x1000) * 0x1000 + ((offset / 0x800) % 2) * 0x800 + ((offset / 0x20) % 0x40) * 0x20
            + ((offset / 2) % 0x10) * 2 == offset
  {
    assert offset / 0x20 == (offset / 2) / 0x10;
    assert offset / 0x800 == (offset / 0x20) / 0x40;
    assert offset / 0x1000 == (offset / 0x800) / 2;
  }

  lemma PackedB(offset: Imm13)
    ensures var f7, rd := (offset / 0x1000) * 0x40 + (offset / 0x20) % 0x40,
        ((offset / 2) % 0x10) * 2 + (offset / 0x800) % 2;
      && f7 / 0x40 == offset / 0x1000 && f7 % 0x40 == (offset / 0x20) % 0x40
      && rd % 2 == (offset / 0x800) % 2 && rd / 2 == (offset / 2) % 0x10
  {
  }

  lemma ImmBFromBits(i: Word, a: nat, b: nat, c: nat, d: nat)
    requires i / 0x8000_0000 == a && (i / 0x80) % 2 == b && (i / 0x200_0000) % 0x40 == c && (i / 0x100) % 0x10 == d
    ensures a < 2 && ImmB(i) == SignExtend(a * 0x1000 + b * 0x800 + c * 0x20 + d * 2, 0x1000)
  {
    hide SignExtend;
  }

  /** B format: bit 12, bit 11 and the rest come back from where they were scattered. */
  lemma FieldsB(offset: Imm13, rs2: Reg, rs1: Reg, f3: Field3, op: Field7)
    requires offset % 2 == 0
    ensures var i := EncB(offset, rs2, rs1, f3, op);
      && Opcode(i) == op && Funct3(i) == f3 && Rs1(i) == rs1 && Rs2(i) == rs2
      && ImmB(i) == SignExtend(offset, 0x1000)
  {
    hide SignExtend, EncR, Opcode, Rd, Funct3, Rs1, Rs2, Funct7, ImmB;
    var f7, rd := (offset / 0x1000) * 0x40 + (offset / 0x20) % 0x40, ((offset / 2) % 0x10) * 2 + (offset / 0x800) % 2;
    FieldsR(f7, rs2, rs1, f3, rd, op);
    TopBits(f7, rs2, rs1, f3, rd, op);
    PackedB(offset);
    ImmBFromBits(EncB(offset, rs2, rs1, f3, op), offset / 0x1000, (offset / 0x800) % 2, (offset / 0x20) % 0x40,
                 (offset / 2) % 0x10);
    ScatteredB(offset);
  }

  lemma FieldsU(upper: Imm20, rd: Reg, op: Field7)
    ensures var i := EncU(upper, rd, op);
      Opcode(i) == op && Rd(i) == rd && ImmU(i) == upper * 0x1000 && i / 0x1000 == upper
  {
    var i := EncU(upper, rd, op);
    assert i / 0x80 == upper * 0x20 + rd;
    assert i / 0x1000 == upper;
  }

  lemma UpperBits(upper: Imm20, rd: Reg, op: Field7)
    ensures var i := EncU(upper, rd, op);
      && i / 0x8000_0000 == upper / 0x8_0000 && (i / 0x1000) % 0x100 == upper % 0x100
      && (i / 0x10_0000) % 2 == (upper / 0x100) % 2 && (i / 0x20_0000) % 0x400 == (upper / 0x200) % 0x400
  {
    var i := EncU(upper, rd, op);
    assert i / 0x1000 == upper;
    assert i / 0x10_0000 == (i / 0x1000) / 0x100 && i / 0x20_0000 == (i / 0x1000) / 0x200;
    assert i / 0x8000_0000 == (i / 0x1000) / 0x8_0000;
  }

  lemma ScatteredJ(offset: Imm21)
    requires offset % 2 == 0
    ensures (offset / 0x10_0000) * 0x10_0000 + ((offset / 0x1000) % 0x100) * 0x1000 + ((offset / 0x800) % 2) * 0x800
            + ((offset / 2) % 0x400) * 2 == offset
  {
    assert offset / 0x800 == (offset / 2) / 0x400;
    assert offset / 0x1000 == (offset / 0x800) / 2;
    assert offset / 0x10_0000 == (offset / 0x1000) / 0x100;
  }

  lemma PackedJ(a: nat, b: nat, c: nat, d: nat)
    requires a < 2 && b < 0x400 && c < 2 && d < 0x100
    ensures var upper := a * 0x8_0000 + b * 0x200 + c * 0x100 + d;
      upper / 0x8_0000 == a && (upper / 0x200) % 0x400 == b && (upper / 0x100) % 2 == c && upper % 0x100 == d
  {
    var upper := a * 0x8_0000 + b * 0x200 + c * 0x100 + d;
    assert upper / 0x100 == a * 0x800 + b * 2 + c;
    assert upper / 0x200 == a * 0x400 + b;
  }

  lemma FieldsJ(offset: Imm21, rd: Reg, op: Field7)
    requires offset % 2 == 0
    ensures var i := EncJ(offset, rd, op);
      Opcode(i) == op && Rd(i) == rd && ImmJ(i) == SignExtend(offset, 0x10_0000)
  {
    var a, b, c, d := offset / 0x10_0000, (offset / 2) % 0x400, (offset / 0x800) % 2, (offset / 0x1000) % 0x100;
    var upper := a * 0x8_0000 + b * 0x200 + c * 0x100 + d;
    FieldsU(upper, rd, op);
    UpperBits(upper, rd, op);
    PackedJ(a, b, c, d);
    ScatteredJ(offset);
    hide SignExtend, EncU, Opcode, Rd;
  }
}
