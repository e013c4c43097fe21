/** RVC expansion (rv32c_decompressor.sv): every legal 16-bit parcel becomes one RV32I word. */
module Decompress {
  import opened Words
  import opened Decode
  import opened Encode

  function Quadrant(p: Half): nat { p % 4 }
  function CFunct3(p: Half): Field3 { p / 0x2000 }
  function CRd(p: Half): Reg { (p / 0x80) % 0x20 }
  function CRs2(p: Half): Reg { (p / 4) % 0x20 }
  function CRdPrime(p: Half): Reg { 8 + (p / 4) % 8 }
  function CRs1Prime(p: Half): Reg { 8 + (p / 0x80) % 8 }
  function Bit12(p: Half): nat { (p / 0x1000) % 2 }

  // The scattered immediates, each already widened to the field it is placed in.

  function Addi4spnImm(p: Half): Imm12 {
    ((p / 0x80) % 0x10) * 0x40 + ((p / 0x800) % 4) * 0x10 + ((p / 0x20) % 2) * 8 + ((p / 0x40) % 2) * 4
  }

  function LwImm(p: Half): Imm12 {
    ((p / 0x20) % 2) * 0x40 + ((p / 0x400) % 8) * 8 + ((p / 0x40) % 2) * 4
  }

  function Imm6(p: Half): nat { Bit12(p) * 0x20 + (p / 4) % 0x20 }

  function Imm6As12(p: Half): Imm12 {
    if Imm6(p) < 0x20 then Imm6(p) else Imm6(p) + 0xFC0
  }

  function Imm6As20(p: Half): Imm20 {
    if Imm6(p) < 0x20 then Imm6(p) else Imm6(p) + 0xF_FFC0
  }

  function JumpImm(p: Half): Imm21 {
    var v := Bit12(p) * 0x800 + ((p / 0x100) % 2) * 0x400 + ((p / 0x200) % 4) * 0x100 + ((p / 0x40) % 2) * 0x80
             + ((p / 0x80) % 2) * 0x40 + ((p / 4) % 2) * 0x20 + ((p / 0x800) % 2) * 0x10 + ((p / 8) % 8) * 2;
    if v < 0x800 then v else v + 0x1F_F000
  }

  function Addi16spImm(p: Half): Imm12 {
    var v := Bit12(p) * 0x200 + ((p / 8) % 4) * 0x80 + ((p / 0x20) % 2) * 0x40
             + ((p / 4) % 2) * 0x20 + ((p / 0x40) % 2) * 0x10;
    if v < 0x200 then v else v + 0xC00
  }

  function BranchImm(p: Half): Imm13 {
    var v := Bit12(p) * 0x100 + ((p / 0x20) % 4) * 0x40 + ((p / 4) % 2) * 0x20
             + ((p / 0x400) % 4) * 8 + ((p / 8) % 4) * 2;
    if v < 0x100 then v else v + 0x1E00
  }

  function LwspImm(p: Half): Imm12 {
    ((p / 4) % 4) * 0x40 + Bit12(p) * 0x20 + ((p / 0x10) % 8) * 4
  }

  function SwspImm(p: Half): Imm12 {
    ((p / 0x80) % 4) * 0x40 + ((p / 0x200) % 0x10) * 4
  }

  /** The expansion, or None where o_illegal is raised. */
  function Expand(p: Half): Option<Word> {
    if Quadrant(p) == 0 then Expand0(p)
    else if Quadrant(p) == 1 then Expand1(p)
    else if Quadrant(p) == 2 then Expand2(p)
    else None
  }

  function Expand0(p: Half): Option<Word> {
    var f3, rdp, rs1p := CFunct3(p), CRdPrime(p), CRs1Prime(p);
    if f3 == 0 then
      if Addi4spnImm(p) == 0 then None else Some(EncI(Addi4spnImm(p), 2, 0, rdp, OP_IMM))
    else if f3 == 2 then Some(EncI(LwImm(p), rs1p, 2, rdp, OP_LOAD))
    else if f3 == 6 then Some(EncS(LwImm(p), rdp, rs1p, 2, OP_STORE))
    else None
  }

  function Expand1(p: Half): Option<Word> {
    var f3, rd, rs1p := CFunct3(p), CRd(p), CRs1Prime(p);
    if f3 == 0 then Some(EncI(Imm6As12(p), rd, 0, rd, OP_IMM))
    else if f3 == 1 then Some(EncJ(JumpImm(p), 1, OP_JAL))
    else if f3 == 2 then Some(EncI(Imm6As12(p), 0, 0, rd, OP_IMM))
    else if f3 == 3 then
      if rd == 2 then
        if Addi16spImm(p) == 0 then None else Some(EncI(Addi16spImm(p), 2, 0, 2, OP_IMM))
      else if rd == 0 then Some(NOP)
      else if Imm6(p) == 0 then None
      else Some(EncU(Imm6As20(p), rd, OP_LUI))
    else if f3 == 4 then Arithmetic(p)
    else if f3 == 5 then Some(EncJ(JumpImm(p), 0, OP_JAL))
    else Some(EncB(BranchImm(p), 0, rs1p, if f3 == 7 then 1 else 0, OP_BRANCH))
  }

  /** C.SRLI, C.SRAI, C.ANDI and the register-register group. */
  function Arithmetic(p: Half): Option<Word> {
    var rs1p, rs2p, kind, op := CRs1Prime(p), CRdPrime(p), (p / 0x400) % 4, (p / 0x20) % 4;
    if kind < 2 then
      if Bit12(p) == 1 then None
      else Some(EncI((if kind == 1 then 0x400 else 0) + CRs2(p), rs1p, 5, rs1p, OP_IMM))
    else if kind == 2 then Some(EncI(Imm6As12(p), rs1p, 7, rs1p, OP_IMM))
    else if Bit12(p) == 1 then None
    else if op == 0 then Some(EncR(0x20, rs2p, rs1p, 0, rs1p, OP_REG))
    else Some(EncR(0, rs2p, rs1p, if op == 1 then 4 else if op == 2 then 6 else 7, rs1p, OP_REG))
  }

  function Expand2(p: Half): Option<Word> {
    var f3, rd, rs2 := CFunct3(p), CRd(p), CRs2(p);
    if f3 == 0 then
      if Bit12(p) == 1 then None else Some(EncI(rs2, rd, 1, rd, OP_IMM))
    else if f3 == 2 then
      if rd == 0 then None else Some(EncI(LwspImm(p), 2, 2, rd, OP_LOAD))
    else if f3 == 4 then
      if Bit12(p) == 0 then
        if rs2 == 0 then
          if rd == 0 then None else Some(EncI(0, rd, 0, 0, OP_JALR))
        else Some(EncR(0, rs2, 0, 0, rd, OP_REG))
      else if rs2 == 0 then
        if rd == 0 then Some(EBREAK) else Some(EncI(0, rd, 0, 1, OP_JALR))
      else Some(EncR(0, rs2, rd, 0, rd, OP_REG))
    else if f3 == 6 then Some(EncS(SwspImm(p), rs2, 2, 2, OP_STORE))
    else None
  }
}
