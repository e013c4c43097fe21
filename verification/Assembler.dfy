/** The test encoders of riscv.py and the name table of functional_coverage.py: every word an encoder
    returns is named, accepted and taken apart again as the caller meant it. */
module Assembler {
  import opened Words
  import opened Decode
  import opened Encode
  import Decompress

  datatype Mnemonic =
    | Lui | Auipc | Jal | Jalr
    | Beq | Bne | Blt | Bge | Bltu | Bgeu
    | Lb | Lh | Lw | Lbu | Lhu | Sb | Sh | Sw
    | Addi | Slti | Sltiu | Xori | Ori | Andi | Slli | Srli | Srai
    | Add | Sub | Sll | Slt | Sltu | Xor | Srl | Sra | Or | And
    | Mul | Mulh | Mulhsu | Mulhu | Div | Divu | Rem | Remu
    | Csrrw | Csrrs | Csrrc | Csrrwi | Csrrsi | Csrrci
    | Ecall | Ebreak | Mret | Wfi | FenceI

  // ---- decode_instruction ------------------------------------------------------------------

  function BranchName(f3: nat): Option<Mnemonic> {
    if f3 == 0 then Some(Beq) else if f3 == 1 then Some(Bne) else if f3 == 4 then Some(Blt)
    else if f3 == 5 then Some(Bge) else if f3 == 6 then Some(Bltu) else if f3 == 7 then Some(Bgeu) else None
  }

  function LoadName(f3: nat): Option<Mnemonic> {
    if f3 == 0 then Some(Lb) else if f3 == 1 then Some(Lh) else if f3 == 2 then Some(Lw)
    else if f3 == 4 then Some(Lbu) else if f3 == 5 then Some(Lhu) else None
  }

  function StoreName(f3: nat): Option<Mnemonic> {
    if f3 == 0 then Some(Sb) else if f3 == 1 then Some(Sh) else if f3 == 2 then Some(Sw) else None
  }

  function ImmediateName(f3: nat, bit30: bool): Option<Mnemonic> {
    if f3 == 1 then Some(Slli)
    else if f3 == 5 then Some(if bit30 then Srai else Srli)
    else if f3 == 0 then Some(Addi) else if f3 == 2 then Some(Slti) else if f3 == 3 then Some(Sltiu)
    else if f3 == 4 then Some(Xori) else if f3 == 6 then Some(Ori) else if f3 == 7 then Some(Andi) else None
  }

  function MultiplyName(f3: nat): Option<Mnemonic> {
    if f3 == 0 then Some(Mul) else if f3 == 1 then Some(Mulh) else if f3 == 2 then Some(Mulhsu)
    else if f3 == 3 then Some(Mulhu) else if f3 == 4 then Some(Div) else if f3 == 5 then Some(Divu)
    else if f3 == 6 then Some(Rem) else Some(Remu)
  }

  function RegisterName(f3: nat, f7: nat): Option<Mnemonic> {
    if f7 == 1 then MultiplyName(f3)
    else if f3 == 0 then Some(if (f7 / 0x20) % 2 == 1 then Sub else Add)
    else if f3 == 5 then Some(if (f7 / 0x20) % 2 == 1 then Sra else Srl)
    else if f3 == 1 then Some(Sll) else if f3 == 2 then Some(Slt) else if f3 == 3 then Some(Sltu)
    else if f3 == 4 then Some(Xor) else if f3 == 6 then Some(Or) else if f3 == 7 then Some(And) else None
  }

  function CsrName(f3: nat): Option<Mnemonic> {
    if f3 == 1 then Some(Csrrw) else if f3 == 2 then Some(Csrrs) else if f3 == 3 then Some(Csrrc)
    else if f3 == 5 then Some(Csrrwi) else if f3 == 6 then Some(Csrrsi) else if f3 == 7 then Some(Csrrci) else None
  }

  function SystemName(i: Word): Option<Mnemonic> {
    if i == ECALL then Some(Ecall)
    else if i == EBREAK then Some(Ebreak)
    else if i == MRET then Some(Mret)
    else if i == WFI then Some(Wfi)
    else CsrName(Funct3(i))
  }

  function Name(i: Word): Option<Mnemonic> {
    var op, f3, f7 := Opcode(i), Funct3(i), Funct7(i);
    if i % 4 != 3 then None
    else if op == OP_LUI then Some(Lui)
    else if op == OP_AUIPC then Some(Auipc)
    else if op == OP_JAL then Some(Jal)
    else if op == OP_JALR then Some(Jalr)
    else if op == OP_BRANCH then BranchName(f3)
    else if op == OP_LOAD then LoadName(f3)
    else if op == OP_STORE then StoreName(f3)
    else if op == OP_IMM then ImmediateName(f3, (f7 / 0x20) % 2 == 1)
    else if op == OP_REG then RegisterName(f3, f7)
    else if op == OP_MISC_MEM && f3 == 1 then Some(FenceI)
    else if op == OP_SYSTEM then SystemName(i)
    else None
  }

  // ---- The encoders ------------------------------------------------------------------------

  datatype Kind = KR | KI | KShift | KLoad | KJalr | KStore | KBranch | KUpper | KJal | KCsr | KFixed

  function KindOf(m: Mnemonic): Kind {
    match m
    case Lui | Auipc => KUpper
    case Jal => KJal
    case Jalr => KJalr
    case Beq | Bne | Blt | Bge | Bltu | Bgeu => KBranch
    case Lb | Lh | Lw | Lbu | Lhu => KLoad
    case Sb | Sh | Sw => KStore
    case Addi | Slti | Sltiu | Xori | Ori | Andi => KI
    case Slli | Srli | Srai => KShift
    case Csrrw | Csrrs | Csrrc | Csrrwi | Csrrsi | Csrrci => KCsr
    case Ecall | Ebreak | Mret | Wfi | FenceI => KFixed
    case _ => KR
  }

  function F3(m: Mnemonic): Field3 {
    match m
    case Beq | Lb | Sb | Addi | Add | Sub | Mul | Jalr => 0
    case Bne | Lh | Sh | Slli | Sll | Mulh | Csrrw | FenceI => 1
    case Lw | Sw | Slti | Slt | Mulhsu | Csrrs => 2
    case Sltiu | Sltu | Mulhu | Csrrc => 3
    case Blt | Lbu | Xori | Xor | Div => 4
    case Bge | Lhu | Srli | Srai | Srl | Sra | Divu | Csrrwi => 5
    case Bltu | Ori | Or | Rem | Csrrsi => 6
    case Bgeu | Andi | And | Remu | Csrrci => 7
    case _ => 0
  }

  function F7(m: Mnemonic): Field7 {
    match m
    case Sub | Sra | Srai => 0x20
    case Mul | Mulh | Mulhsu | Mulhu | Div | Divu | Rem | Remu => 1
    case _ => 0
  }

  /** Which immediates the encoder accepts; anything else raises ValueError. */
  predicate Fits(m: Mnemonic, imm: int) {
    match KindOf(m)
    case KI | KLoad | KJalr | KStore => -0x800 <= imm < 0x800
    case KShift => 0 <= imm < 0x20
    case KBranch => -0x1000 <= imm < 0x1000 && imm % 2 == 0
    case KJal => -0x10_0000 <= imm < 0x10_0000 && imm % 2 == 0
    case KUpper => 0 <= imm < 0x10_0000
    case KCsr => 0 <= imm < 0x1000
    case _ => true
  }

  /** value & ((1 << width) - 1) for a value already checked to fit. */
  function Masked(imm: int, limit: nat): nat
    requires 0 - limit <= imm < limit
  {
    if imm < 0 then imm + limit else imm
  }

  /** One instruction word, or None where the encoder raises.  For a CSR instruction `imm` is the CSR
      address and `rs1` the register or immediate operand. */
  function Assemble(m: Mnemonic, rd: Reg, rs1: Reg, rs2: Reg, imm: int): Option<Word> {
    if !Fits(m, imm) then None
    else
      match KindOf(m)
      case KR => Some(EncR(F7(m), rs2, rs1, F3(m), rd, OP_REG))
      case KI => Some(EncI(Masked(imm, 0x1000), rs1, F3(m), rd, OP_IMM))
      case KShift => Some(EncI(F7(m) * 0x20 + imm, rs1, F3(m), rd, OP_IMM))
      case KLoad => Some(EncI(Masked(imm, 0x1000), rs1, F3(m), rd, OP_LOAD))
      case KJalr => Some(EncI(Masked(imm, 0x1000), rs1, F3(m), rd, OP_JALR))
      case KStore => Some(EncS(Masked(imm, 0x1000), rs2, rs1, F3(m), OP_STORE))
      case KBranch => Some(EncB(Masked(imm, 0x2000), rs2, rs1, F3(m), OP_BRANCH))
      case KUpper => Some(EncU(imm, rd, if m == Lui then OP_LUI else OP_AUIPC))
      case KJal => Some(EncJ(Masked(imm, 0x20_0000), rd, OP_JAL))
      case KCsr => Some(EncI(imm, rs1, F3(m), rd, OP_SYSTEM))
      case KFixed =>
        Some(if m == Ecall then ECALL else if m == Ebreak then EBREAK else if m == Mret then MRET
             else if m == Wfi then WFI else EncI(0, 0, 1, 0, OP_MISC_MEM))
  }

  /** The decoder's fields and immediate are the encoder's arguments. */
  predicate Recovered(m: Mnemonic, rd: Reg, rs1: Reg, rs2: Reg, imm: int, w: Word) {
    match KindOf(m)
    case KR => Rd(w) == rd && Rs1(w) == rs1 && Rs2(w) == rs2
    case KI | KLoad | KJalr => Rd(w) == rd && Rs1(w) == rs1 && Immediate(w) == Wrap(imm)
    case KShift => Rd(w) == rd && Rs1(w) == rs1 && Immediate(w) % 0x20 == imm
    case KStore => Rs1(w) == rs1 && Rs2(w) == rs2 && Immediate(w) == Wrap(imm)
    case KBranch => Rs1(w) == rs1 && Rs2(w) == rs2 && Immediate(w) == Wrap(imm)
    case KUpper => Rd(w) == rd && Immediate(w) == Wrap(imm * 0x1000)
    case KJal => Rd(w) == rd && Immediate(w) == Wrap(imm)
    case KCsr => Rd(w) == rd && Rs1(w) == rs1 && CsrField(w) == imm
    case KFixed => true
  }

  lemma MaskExtends(imm: int, half: nat)
    requires 0 < half <= 0x8000_0000 && 0 - half <= imm < half
    ensures SignExtend(Masked(imm, 2 * half), half) == Wrap(imm)
  {
  }

  lemma LowBits(i: Word)
    ensures i % 4 == Opcode(i) % 4
  {
  }

  /** What the opcode and function fields say about name and legality. */
  predicate Understood(w: Word, m: Mnemonic) {
    Name(w) == Some(m) && Legal(w)
  }

  lemma RegisterUnderstood(m: Mnemonic, w: Word)
    requires KindOf(m) == KR && Opcode(w) == OP_REG && Funct3(w) == F3(m) && Funct7(w) == F7(m)
    ensures Understood(w, m)
  {
    LowBits(w);
    hide Opcode, Funct3, Funct7, SystemName;
  }

  lemma ImmediateUnderstood(m: Mnemonic, w: Word)
    requires KindOf(m) == KI || (KindOf(m) == KShift && Funct7(w) == F7(m))
    requires Opcode(w) == OP_IMM && Funct3(w) == F3(m)
    ensures Understood(w, m)
  {
    LowBits(w);
    hide Opcode, Funct3, Funct7, SystemName, RegisterName;
  }

  lemma MemoryUnderstood(m: Mnemonic, w: Word)
    requires KindOf(m) in {KLoad, KStore, KBranch, KJalr} && Funct3(w) == F3(m)
    requires Opcode(w) == if KindOf(m) == KLoad then OP_LOAD else if KindOf(m) == KStore then OP_STORE
                          else if KindOf(m) == KBranch then OP_BRANCH else OP_JALR
    ensures Understood(w, m)
  {
    LowBits(w);
    hide Opcode, Funct3, Funct7, SystemName, RegisterName, ImmediateName;
  }

  lemma UpperUnderstood(m: Mnemonic, w: Word)
    requires m in {Lui, Auipc, Jal}
    requires Opcode(w) == if m == Lui then OP_LUI else if m == Auipc then OP_AUIPC else OP_JAL
    ensures Understood(w, m)
  {
    LowBits(w);
    hide Opcode, Funct3, Funct7, SystemName, RegisterName, ImmediateName;
  }

  lemma CsrUnderstood(m: Mnemonic, w: Word)
    requires KindOf(m) == KCsr && Opcode(w) == OP_SYSTEM && Funct3(w) == F3(m)
    ensures Understood(w, m)
  {
    LowBits(w);
    assert Funct3(ECALL) == 0 && Funct3(EBREAK) == 0 && Funct3(MRET) == 0 && Funct3(WFI) == 0;
    hide Opcode, Funct3, Funct7, RegisterName, ImmediateName;
  }

  lemma FixedWords()
    ensures Funct3(ECALL) == 0 && Funct3(EBREAK) == 0 && Funct3(MRET) == 0 && Funct3(WFI) == 0
    ensures Opcode(ECALL) == OP_SYSTEM && Opcode(EBREAK) == OP_SYSTEM && Opcode(MRET) == OP_SYSTEM
    ensures Opcode(WFI) == OP_SYSTEM
  {
  }

  lemma SystemUnderstood(m: Mnemonic, w: Word)
    requires m in {Ecall, Ebreak, Mret, Wfi}
    requires w == if m == Ecall then ECALL else if m == Ebreak then EBREAK else if m == Mret then MRET else WFI
    ensures Understood(w, m)
  {
    LowBits(w);
    FixedWords();
    hide Opcode, Funct3, Funct7, RegisterName, ImmediateName, BranchName, LoadName, StoreName, CsrName;
  }

  lemma MiscUnderstood(w: Word)
    requires Opcode(w) == OP_MISC_MEM && Funct3(w) == 1
    ensures Understood(w, FenceI)
  {
    LowBits(w);
    hide Opcode, Funct3, Funct7, RegisterName, ImmediateName, BranchName, LoadName, StoreName, SystemName;
  }

  lemma FixedUnderstood(m: Mnemonic)
    requires KindOf(m) == KFixed
    ensures Understood(Assemble(m, 0, 0, 0, 0).value, m)
  {
    hide Understood, EncI, Opcode, Funct3;
    if m == FenceI {
      FieldsI(0, 0, 1, 0, OP_MISC_MEM);
      MiscUnderstood(EncI(0, 0, 1, 0, OP_MISC_MEM));
    } else { SystemUnderstood(m, Assemble(m, 0, 0, 0, 0).value); }
  }

  lemma RegisterAssembles(m: Mnemonic, rd: Reg, rs1: Reg, rs2: Reg, imm: int)
    requires KindOf(m) == KR
    ensures var w := Assemble(m, rd, rs1, rs2, imm).value; Understood(w, m) && Recovered(m, rd, rs1, rs2, imm, w)
  {
    FieldsR(F7(m), rs2, rs1, F3(m), rd, OP_REG);
    hide EncR, Opcode, Funct3, Funct7, Rd, Rs1, Rs2, KindOf, F3, F7, Understood;
    RegisterUnderstood(m, EncR(F7(m), rs2, rs1, F3(m), rd, OP_REG));
  }

  lemma ImmediateAssembles(m: Mnemonic, rd: Reg, rs1: Reg, rs2: Reg, imm: int)
    requires KindOf(m) in {KI, KShift} && Fits(m, imm)
    ensures var w := Assemble(m, rd, rs1, rs2, imm).value; Understood(w, m) && Recovered(m, rd, rs1, rs2, imm, w)
  {
    var field := if KindOf(m) == KI then Masked(imm, 0x1000) else F7(m) * 0x20 + imm;
    FieldsI(field, rs1, F3(m), rd, OP_IMM);
    if KindOf(m) == KI { MaskExtends(imm, 0x800); } else { ShiftField(m, imm); }
    hide EncI, Opcode, Funct3, Funct7, Rd, Rs1, Rs2, KindOf, F3, F7, Understood, SignExtend, Masked, ImmI, Wrap;
    ImmediateUnderstood(m, EncI(field, rs1, F3(m), rd, OP_IMM));
  }

  lemma ShiftField(m: Mnemonic, imm: int)
    requires KindOf(m) == KShift && 0 <= imm < 0x20
    ensures SignExtend(F7(m) * 0x20 + imm, 0x800) % 0x20 == imm && (F7(m) * 0x20 + imm) / 0x20 == F7(m)
  {
  }

  lemma LoadAssembles(m: Mnemonic, rd: Reg, rs1: Reg, rs2: Reg, imm: int)
    requires KindOf(m) in {KLoad, KJalr} && Fits(m, imm)
    ensures var w := Assemble(m, rd, rs1, rs2, imm).value; Understood(w, m) && Recovered(m, rd, rs1, rs2, imm, w)
  {
    var field, op := Masked(imm, 0x1000), if KindOf(m) == KLoad then OP_LOAD else OP_JALR;
    MaskExtends(imm, 0x800);
    FieldsI(field, rs1, F3(m), rd, op);
    hide EncI, Opcode, Funct3, Funct7, Rd, Rs1, Rs2, KindOf, F3, F7, Understood, SignExtend, Masked, ImmI, Wrap;
    MemoryUnderstood(m, EncI(field, rs1, F3(m), rd, op));
  }

  lemma StoreAssembles(m: Mnemonic, rd: Reg, rs1: Reg, rs2: Reg, imm: int)
    requires KindOf(m) == KStore && Fits(m, imm)
    ensures var w := Assemble(m, rd, rs1, rs2, imm).value; Understood(w, m) && Recovered(m, rd, rs1, rs2, imm, w)
  {
    var field := Masked(imm, 0x1000);
    MaskExtends(imm, 0x800);
    FieldsS(field, rs2, rs1, F3(m), OP_STORE);
    hide EncS, Opcode, Funct3, Funct7, Rd, Rs1, Rs2, KindOf, F3, F7, Understood, SignExtend, Masked, ImmS, Wrap;
    MemoryUnderstood(m, EncS(field, rs2, rs1, F3(m), OP_STORE));
  }

  lemma BranchAssembles(m: Mnemonic, rd: Reg, rs1: Reg, rs2: Reg, imm: int)
    requires KindOf(m) == KBranch && Fits(m, imm)
    ensures var w := Assemble(m, rd, rs1, rs2, imm).value; Understood(w, m) && Recovered(m, rd, rs1, rs2, imm, w)
  {
    MaskExtends(imm, 0x1000);
    FieldsB(Masked(imm, 0x2000), rs2, rs1, F3(m), OP_BRANCH);
    hide EncB, Opcode, Funct3, Funct7, Rd, Rs1, Rs2, KindOf, F3, F7, Understood, SignExtend, Masked, ImmB, Wrap;
    MemoryUnderstood(m, Assemble(m, rd, rs1, rs2, imm).value);
  }

  lemma JalAssembles(rd: Reg, rs1: Reg, rs2: Reg, imm: int)
    requires Fits(Jal, imm)
    ensures var w := Assemble(Jal, rd, rs1, rs2, imm).value; Understood(w, Jal) && Recovered(Jal, rd, rs1, rs2, imm, w)
  {
    hide EncJ, Opcode, Funct3, Funct7, Rd, Rs1, Rs2, Understood, SignExtend, ImmJ, Wrap;
    MaskExtends(imm, 0x10_0000);
    FieldsJ(Masked(imm, 0x20_0000), rd, OP_JAL);
    UpperUnderstood(Jal, EncJ(Masked(imm, 0x20_0000), rd, OP_JAL));
  }

  lemma UpperAssembles(m: Mnemonic, rd: Reg, rs1: Reg, rs2: Reg, imm: int)
    requires KindOf(m) == KUpper && Fits(m, imm)
    ensures var w := Assemble(m, rd, rs1, rs2, imm).value; Understood(w, m) && Recovered(m, rd, rs1, rs2, imm, w)
  {
    hide EncU, Opcode, Funct3, Funct7, Rd, Rs1, Rs2, Understood, ImmU, Wrap;
    var op := if m == Lui then OP_LUI else OP_AUIPC;
    FieldsU(imm, rd, op);
    UpperFits(imm);
    UpperUnderstood(m, EncU(imm, rd, op));
  }

  lemma UpperFits(imm: int)
    requires 0 <= imm < 0x10_0000
    ensures imm * 0x1000 == Wrap(imm * 0x1000)
  {
  }

  lemma CsrAssembles(m: Mnemonic, rd: Reg, rs1: Reg, rs2: Reg, imm: int)
    requires KindOf(m) == KCsr && Fits(m, imm)
    ensures var w := Assemble(m, rd, rs1, rs2, imm).value; Understood(w, m) && Recovered(m, rd, rs1, rs2, imm, w)
  {
    FieldsI(imm, rs1, F3(m), rd, OP_SYSTEM);
    hide EncI, Opcode, Funct3, Funct7, Rd, Rs1, Rs2, KindOf, F3, F7, Understood, CsrField;
    CsrUnderstood(m, EncI(imm, rs1, F3(m), rd, OP_SYSTEM));
  }

  /** For every mnemonic, registers and immediate: the encoder raises exactly when the immediate does
      not fit, and otherwise its word carries that mnemonic's name, is a legal instruction, and gives
      back the registers and the immediate. */
  lemma AssembledIsUnderstood(m: Mnemonic, rd: Reg, rs1: Reg, rs2: Reg, imm: int)
    ensures match Assemble(m, rd, rs1, rs2, imm)
      case Some(w) => Understood(w, m) && Recovered(m, rd, rs1, rs2, imm, w)
      case None => !Fits(m, imm)
  {
    hide Understood, F3, F7, EncR, EncI, EncS, EncB, EncU, EncJ;
    if Fits(m, imm) {
      match KindOf(m) {
        case KR => RegisterAssembles(m, rd, rs1, rs2, imm);
        case KI | KShift => ImmediateAssembles(m, rd, rs1, rs2, imm);
        case KLoad | KJalr => LoadAssembles(m, rd, rs1, rs2, imm);
        case KStore => StoreAssembles(m, rd, rs1, rs2, imm);
        case KBranch => BranchAssembles(m, rd, rs1, rs2, imm);
        case KUpper => UpperAssembles(m, rd, rs1, rs2, imm);
        case KJal => JalAssembles(rd, rs1, rs2, imm);
        case KCsr => CsrAssembles(m, rd, rs1, rs2, imm);
        case KFixed => FixedUnderstood(m);
      }
    }
  }

  // ---- Compressed encoders -----------------------------------------------------------------

  function CParcel(f4: nat, rd: Reg, low: Reg, quadrant: nat): Half
    requires f4 < 16 && quadrant < 4
  {
    f4 * 0x1000 + rd * 0x80 + low * 4 + quadrant
  }

  /** C.ADDI; x0 with a nonzero immediate is reserved. */
  function CAddi(rd: Reg, imm: int): Option<Half> {
    if (rd == 0 && imm != 0) || !(-0x20 <= imm < 0x20) then None
    else var six := Masked(imm, 0x40); Some(CParcel(six / 0x20, rd, six % 0x20, 1))
  }

  function CLi(rd: Reg, imm: int): Option<Half> {
    if rd == 0 || !(-0x20 <= imm < 0x20) then None
    else var six := Masked(imm, 0x40); Some(CParcel(4 + six / 0x20, rd, six % 0x20, 1))
  }

  function CMv(rd: Reg, rs2: Reg): Option<Half> {
    if rd == 0 || rs2 == 0 then None else Some(CParcel(8, rd, rs2, 2))
  }

  function CAdd(rd: Reg, rs2: Reg): Option<Half> {
    if rd == 0 || rs2 == 0 then None else Some(CParcel(9, rd, rs2, 2))
  }

  lemma ParcelFields(f4: nat, rd: Reg, low: Reg, quadrant: nat)
    requires f4 < 16 && quadrant < 4
    ensures var p := CParcel(f4, rd, low, quadrant);
      && Decompress.Quadrant(p) == quadrant && Decompress.CFunct3(p) == f4 / 2 && Decompress.Bit12(p) == f4 % 2
      && Decompress.CRd(p) == rd && Decompress.CRs2(p) == low
  {
    var p := CParcel(f4, rd, low, quadrant);
    assert p / 4 == f4 * 0x400 + rd * 0x20 + low;
    assert p / 0x80 == f4 * 0x20 + rd;
    assert p / 0x1000 == f4;
  }

  lemma SixBits(six: nat)
    requires six < 0x40
    ensures (six / 0x20) * 0x20 + six % 0x20 == six
    ensures (4 + six / 0x20) / 2 == 2 && (six / 0x20) / 2 == 0
    ensures (4 + six / 0x20) % 2 == six / 0x20 && (six / 0x20) % 2 == six / 0x20
  {
  }

  lemma SixAs12(f4: nat, rd: Reg, imm: int)
    requires -0x20 <= imm < 0x20 && f4 < 16 && f4 % 2 == Masked(imm, 0x40) / 0x20
    ensures Decompress.Imm6As12(CParcel(f4, rd, Masked(imm, 0x40) % 0x20, 1)) == Masked(imm, 0x1000)
  {
    SixField(f4, rd, Masked(imm, 0x40), 1);
    hide Decompress.Imm6, CParcel;
  }

  lemma SixField(f4: nat, rd: Reg, six: nat, quadrant: nat)
    requires f4 < 16 && six < 0x40 && f4 % 2 == six / 0x20 && quadrant < 4
    ensures Decompress.Imm6(CParcel(f4, rd, six % 0x20, quadrant)) == six
  {
    ParcelFields(f4, rd, six % 0x20, quadrant);
    hide Decompress.Bit12, CParcel, Decompress.CFunct3, Decompress.CRd, Decompress.Quadrant;
  }

  lemma MoveExpands(rd: Reg, rs2: Reg)
    ensures CMv(rd, rs2).Some? ==> Decompress.Expand(CMv(rd, rs2).value) == Assemble(Add, rd, 0, rs2, 0)
    ensures CAdd(rd, rs2).Some? ==> Decompress.Expand(CAdd(rd, rs2).value) == Assemble(Add, rd, rd, rs2, 0)
  {
    ParcelFields(8, rd, rs2, 2);
    ParcelFields(9, rd, rs2, 2);
    hide Decompress.Quadrant, Decompress.CFunct3, Decompress.Bit12, Decompress.CRd, Decompress.CRs2, EncR, EncI,
         CParcel, Decompress.Expand0, Decompress.Expand1, Decompress.LwspImm, Decompress.SwspImm;
  }

  /** Every compressed encoder is expanded to the full-size encoding of what it abbreviates. */
  lemma CompressedExpands(rd: Reg, rs2: Reg, imm: int)
    ensures CAddi(rd, imm).Some? ==> Decompress.Expand(CAddi(rd, imm).value) == Assemble(Addi, rd, rd, 0, imm)
    ensures CLi(rd, imm).Some? ==> Decompress.Expand(CLi(rd, imm).value) == Assemble(Addi, rd, 0, 0, imm)
    ensures CMv(rd, rs2).Some? ==> Decompress.Expand(CMv(rd, rs2).value) == Assemble(Add, rd, 0, rs2, 0)
    ensures CAdd(rd, rs2).Some? ==> Decompress.Expand(CAdd(rd, rs2).value) == Assemble(Add, rd, rd, rs2, 0)
  {
    hide CMv, CAdd, Decompress.Quadrant, Decompress.CFunct3, Decompress.Bit12, Decompress.CRd, Decompress.CRs2,
         Decompress.Arithmetic, EncI, CParcel, Decompress.Expand0, Decompress.Expand2, Decompress.CRs1Prime,
         Decompress.Imm6As12;
    if -0x20 <= imm < 0x20 {
      var six := Masked(imm, 0x40);
      SixBits(six);
      ParcelFields(six / 0x20, rd, six % 0x20, 1);
      SixAs12(six / 0x20, rd, imm);
      ParcelFields(4 + six / 0x20, rd, six % 0x20, 1);
      SixAs12(4 + six / 0x20, rd, imm);
    }
    MoveExpands(rd, rs2);
  }
}
