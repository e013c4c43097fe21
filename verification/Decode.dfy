/** Instruction decode: the control unit, its legality function and the
    immediate generator (control_unit.sv, immediate_generator.sv). */
module Decode {
  import opened Words

  datatype WbSel = WbAlu | WbMem | WbLink | WbImm
  datatype PcSel = PcNext | PcBranch | PcJal | PcJalr
  datatype CsrOp = CsrAssign | CsrSet | CsrClear
  datatype AluOp = AluAdd | AluSub | AluAnd | AluOr | AluXor | AluSlt | AluSltu
                 | AluSll | AluSrl | AluSra | AluMul | AluMulh | AluMulhsu | AluMulhu

  datatype Ctrl = Ctrl(
    regWrite: bool, memRead: bool, memWrite: bool, wbSel: WbSel, pcSel: PcSel,
    aluSrc: bool, aluASel: bool, aluOp: AluOp,
    branchEn: bool, branchType: nat, memType: nat, jal: bool, jalr: bool,
    rs1Read: bool, rs2Read: bool,
    csrEn: bool, csrOp: CsrOp, csrImm: bool,
    ecall: bool, ebreak: bool, mret: bool, wfi: bool, fenceI: bool, illegal: bool)

  const NOP: Word := 0x13

  const OP_LUI: nat := 0x37
  const OP_AUIPC: nat := 0x17
  const OP_JAL: nat := 0x6F
  const OP_JALR: nat := 0x67
  const OP_BRANCH: nat := 0x63
  const OP_LOAD: nat := 0x03
  const OP_STORE: nat := 0x23
  const OP_IMM: nat := 0x13
  const OP_REG: nat := 0x33
  const OP_MISC_MEM: nat := 0x0F
  const OP_SYSTEM: nat := 0x73

  const ECALL: Word := 0x0000_0073
  const EBREAK: Word := 0x0010_0073
  const MRET: Word := 0x3020_0073
  const WFI: Word := 0x1050_0073

  function Opcode(i: Word): nat { i % 0x80 }
  function Rd(i: Word): Reg { (i / 0x80) % 0x20 }
  function Funct3(i: Word): nat { (i / 0x1000) % 8 }
  function Rs1(i: Word): Reg { (i / 0x8000) % 0x20 }
  function Rs2(i: Word): Reg { (i / 0x10_0000) % 0x20 }
  function Funct7(i: Word): nat { i / 0x200_0000 }
  function CsrField(i: Word): nat { i / 0x10_0000 }

  function ImmI(i: Word): Word { SignExtend(i / 0x10_0000, 0x800) }

  function ImmS(i: Word): Word { SignExtend(Funct7(i) * 0x20 + Rd(i), 0x800) }

  function ImmB(i: Word): Word {
    SignExtend((i / 0x8000_0000) * 0x1000 + ((i / 0x80) % 2) * 0x800
               + ((i / 0x200_0000) % 0x40) * 0x20 + ((i / 0x100) % 0x10) * 2, 0x1000)
  }

  function ImmU(i: Word): Word { i - i % 0x1000 }

  function ImmJ(i: Word): Word {
    SignExtend((i / 0x8000_0000) * 0x10_0000 + ((i / 0x1000) % 0x100) * 0x1000
               + ((i / 0x10_0000) % 2) * 0x800 + ((i / 0x20_0000) % 0x400) * 2, 0x10_0000)
  }

  /** immediate_generator.sv: the immediate is selected by the opcode alone. */
  function Immediate(i: Word): Word {
    var op := Opcode(i);
    if op == OP_IMM || op == OP_LOAD || op == OP_JALR then ImmI(i)
    else if op == OP_STORE then ImmS(i)
    else if op == OP_BRANCH then ImmB(i)
    else if op == OP_LUI || op == OP_AUIPC then ImmU(i)
    else if op == OP_JAL then ImmJ(i)
    else 0
  }

  lemma SignExtendEven(field: nat, half: nat)
    requires 0 < half <= 0x8000_0000 && field < 2 * half
    requires field % 2 == 0 && half % 2 == 0
    ensures SignExtend(field, half) % 2 == 0
  {
  }

  /** Branch and JAL offsets are even, so a control transfer from an even address lands on one. */
  lemma OffsetsEven(i: Word)
    ensures ImmB(i) % 2 == 0 && ImmJ(i) % 2 == 0
  {
    hide SignExtend;
    SignExtendEven((i / 0x8000_0000) * 0x1000 + ((i / 0x80) % 2) * 0x800
                   + ((i / 0x200_0000) % 0x40) * 0x20 + ((i / 0x100) % 0x10) * 2, 0x1000);
    SignExtendEven((i / 0x8000_0000) * 0x10_0000 + ((i / 0x1000) % 0x100) * 0x1000
                   + ((i / 0x10_0000) % 2) * 0x800 + ((i / 0x20_0000) % 0x400) * 2, 0x10_0000);
  }

  predicate Legal(i: Word) {
    var op, f3, f7 := Opcode(i), Funct3(i), Funct7(i);
    if op == OP_LUI || op == OP_AUIPC || op == OP_JAL then true
    else if op == OP_JALR then f3 == 0
    else if op == OP_BRANCH then f3 != 2 && f3 != 3
    else if op == OP_LOAD then f3 <= 2 || f3 == 4 || f3 == 5
    else if op == OP_STORE then f3 <= 2
    else if op == OP_IMM then
      if f3 == 1 then f7 == 0
      else if f3 == 5 then f7 == 0 || f7 == 0x20
      else true
    else if op == OP_REG then
      f7 == 1 || (if f3 == 0 || f3 == 5 then f7 == 0 || f7 == 0x20 else f7 == 0)
    else if op == OP_MISC_MEM then f3 <= 1
    else if op == OP_SYSTEM then
      if f3 == 0 then i == ECALL || i == EBREAK || i == MRET || i == WFI
      else f3 != 4
    else false
  }

  /** What every ID/EX control output is after reset or a flush. */
  const CLEARED: Ctrl := Ctrl(
    false, false, false, WbAlu, PcNext, false, false, AluAdd, false, 0, 0, false, false, false, false,
    false, CsrAssign, false, false, false, false, false, false, false)

  /** Default decode outputs before the opcode case: memory accesses default to words. */
  const DEFAULTS: Ctrl := CLEARED.(memType := 2)

  function IntegerOp(f3: nat, alternate: bool, register: bool): AluOp {
    if f3 == 0 then (if register && alternate then AluSub else AluAdd)
    else if f3 == 1 then AluSll
    else if f3 == 2 then AluSlt
    else if f3 == 3 then AluSltu
    else if f3 == 4 then AluXor
    else if f3 == 5 then (if alternate then AluSra else AluSrl)
    else if f3 == 6 then AluOr
    else AluAnd
  }

  function MultiplyOp(f3: nat): AluOp {
    if f3 == 0 then AluMul
    else if f3 == 1 then AluMulh
    else if f3 == 2 then AluMulhsu
    else if f3 == 3 then AluMulhu
    else AluAdd
  }

  function MainDecode(i: Word): Ctrl {
    var op, f3, f7 := Opcode(i), Funct3(i), Funct7(i);
    var alternate := (f7 / 0x20) % 2 == 1;
    if op == OP_LUI then DEFAULTS.(regWrite := true, wbSel := WbImm)
    else if op == OP_AUIPC then DEFAULTS.(regWrite := true, aluSrc := true, aluASel := true)
    else if op == OP_JAL then DEFAULTS.(jal := true, regWrite := true, wbSel := WbLink, pcSel := PcJal)
    else if op == OP_JALR then
      DEFAULTS.(jalr := true, regWrite := true, rs1Read := true, aluSrc := true, wbSel := WbLink, pcSel := PcJalr)
    else if op == OP_BRANCH then
      DEFAULTS.(branchEn := true, branchType := f3, pcSel := PcBranch, rs1Read := true, rs2Read := true)
    else if op == OP_LOAD then
      DEFAULTS.(memRead := true, regWrite := true, rs1Read := true, aluSrc := true, wbSel := WbMem, memType := f3)
    else if op == OP_STORE then
      DEFAULTS.(memWrite := true, rs1Read := true, rs2Read := true, aluSrc := true, memType := f3)
    else if op == OP_IMM then
      DEFAULTS.(regWrite := true, rs1Read := true, aluSrc := true, aluOp := IntegerOp(f3, alternate, false))
    else if op == OP_REG then
      DEFAULTS.(regWrite := true, rs1Read := true, rs2Read := true,
                aluOp := if f7 == 1 then MultiplyOp(f3) else IntegerOp(f3, alternate, true))
    else if op == OP_MISC_MEM then DEFAULTS.(fenceI := f3 == 1)
    else if op == OP_SYSTEM then
      if f3 == 0 then
        DEFAULTS.(ecall := i == ECALL, ebreak := i == EBREAK, mret := i == MRET, wfi := i == WFI)
      else if f3 == 4 then DEFAULTS
      else
        DEFAULTS.(csrEn := true, regWrite := true, csrImm := f3 >= 4, rs1Read := f3 < 4,
                  csrOp := if f3 % 4 == 1 then CsrAssign else if f3 % 4 == 2 then CsrSet else CsrClear)
    else DEFAULTS
  }

  function Control(i: Word): Ctrl {
    MainDecode(i).(illegal := !Legal(i))
  }

  /** Is this one of the eight M operations?  The classification of mdu_unit.sv. */
  predicate IsMulDiv(i: Word) {
    Opcode(i) == OP_REG && Funct7(i) == 1
  }
}
