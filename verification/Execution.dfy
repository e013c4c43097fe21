/** The EX stage against the reference: decoded control signals and forwarded operands do what
    the instruction says. */
module Execution {
  import opened Words
  import opened Decode
  import opened Alu
  import opened Stages
  import opened Pipeline
  import Fetch
  import Hazard
  import LoadStore
  import Mdu
  import Csr
  import M = Machine

  /** ID/EX holds the decode of its instruction word. */
  predicate Decoded(ex: IdEx) {
    && ex.ctrl == Control(ex.instr) && ex.imm == Immediate(ex.instr)
    && ex.rs1 == Rs1(ex.instr) && ex.rs2 == Rs2(ex.instr) && ex.rd == Rd(ex.instr)
  }

  /** ID/EX holds the instruction memory has at its PC. */
  predicate Fetched(ex: IdEx, f: Fetch.Fetched) {
    && ex.fault == f.fault && ex.compressed == f.compressed
    && (!f.fault ==> ex.instr == f.instr && ex.raw == f.raw)
  }

  /** Every operand the instruction reads is current.  Store data may still be stale here. */
  predicate Fresh(ex: IdEx, a: Word, b: Word, x: RegFile) {
    && (ex.ctrl.rs1Read ==> a == Get(x, ex.rs1))
    && (ex.ctrl.rs2Read && !ex.ctrl.memWrite ==> b == Get(x, ex.rs2))
  }

  /** The source of the PC mux when EX redirects. */
  function SelectedTarget(ex: IdEx, a: Word, b: Word): Word {
    if ex.ctrl.pcSel == PcBranch then RelativeTarget(ex) else Jumping(ex, a)
  }

  predicate Hazardous(ex: IdEx, a: Word, b: Word) {
    Hazard.ControlHazard(Taken(ex, a, b), ex.ctrl)
  }

  function NextOf(ex: IdEx, a: Word, b: Word, c: Csr.State): Word {
    if ex.ctrl.mret then c.mepc
    else if Hazardous(ex, a, b) then SelectedTarget(ex, a, b)
    else Link(ex)
  }

  function CsrAfter(ex: IdEx, a: Word, port: Csr.Access, c: Csr.State): Csr.State {
    if CsrIntent(ex) then
      Csr.Write(c, CsrField(ex.instr), M.CsrResult(ex.ctrl.csrOp, port.data, CsrOperandOf(ex, a)))
    else if ex.ctrl.mret then Csr.Return(c)
    else c
  }

  /** What EX/MEM will forward for this instruction. */
  function ForwardedResult(ex: IdEx, a: Word, b: Word, mdu: Word, port: Csr.Access): Word {
    match ex.ctrl.wbSel
    case WbAlu => ExResult(ex, a, b, mdu, port)
    case WbMem => ExResult(ex, a, b, mdu, port)
    case WbLink => Link(ex)
    case WbImm => ex.imm
  }

  predicate AccessAgrees(ex: IdEx, a: Word, b: Word, mdu: Word, port: Csr.Access, x: RegFile, o: M.Outcome)
    requires o.Done?
  {
    match o.access
    case NoAccess =>
      && !ex.ctrl.memRead && !ex.ctrl.memWrite
      && (o.writes ==> ex.ctrl.wbSel != WbMem && ForwardedResult(ex, a, b, mdu, port) == o.value)
    case Load(addr, ty) =>
      && ex.ctrl.memRead && !ex.ctrl.memWrite && ex.ctrl.memType == ty && ex.ctrl.wbSel == WbMem
      && ExResult(ex, a, b, mdu, port) == addr
    case Store(addr, ty, data) =>
      && !ex.ctrl.memRead && ex.ctrl.memWrite && ex.ctrl.memType == ty && !ex.ctrl.regWrite
      && ExResult(ex, a, b, mdu, port) == addr && data == Get(x, ex.rs2)
  }

  /** Everything EX decides about an instruction, compared with the reference's outcome. */
  predicate Agrees(ex: IdEx, a: Word, b: Word, mdu: Word, port: Csr.Access, s: M.Arch, o: M.Outcome) {
    && (Refused(ex, a, b, port) <==> o.Except?)
    && (o.Except? ==> RefusalCause(ex, a, b, port) == (o.cause, o.value))
    && (o.Done? ==>
          && o.next == NextOf(ex, a, b, s.csr)
          && o.writes == ex.ctrl.regWrite && (o.writes ==> o.rd == ex.rd)
          && o.csr == CsrAfter(ex, a, port, s.csr)
          && AccessAgrees(ex, a, b, mdu, port, s.x, o))
  }

  predicate Ready(ex: IdEx, a: Word, b: Word, f: Fetch.Fetched, s: M.Arch) {
    ex.valid && Decoded(ex) && Fetched(ex, f) && Fresh(ex, a, b, s.x) && s.pc == ex.pc
  }

  lemma RefusedFault(ex: IdEx, a: Word, b: Word, mdu: Word, port: Csr.Access, ids: Csr.Ids, f: Fetch.Fetched,
                     s: M.Arch, v: Csr.Volatile)
    requires Ready(ex, a, b, f, s) && (f.fault || !Legal(f.instr))
    ensures Agrees(ex, a, b, mdu, port, s, M.Execute(ids, f, s, v))
  {
    hide Legal, MainDecode, Immediate, Compute, Wrap, TargetMisaligned, DataMisaligned, CsrIllegal, ExResult;
  }

  lemma UpperAgrees(ex: IdEx, a: Word, b: Word, mdu: Word, port: Csr.Access, ids: Csr.Ids, f: Fetch.Fetched,
                    s: M.Arch, v: Csr.Volatile)
    requires Ready(ex, a, b, f, s) && !f.fault && Legal(f.instr)
    requires Opcode(f.instr) == OP_LUI || Opcode(f.instr) == OP_AUIPC
    ensures Agrees(ex, a, b, mdu, port, s, M.Execute(ids, f, s, v))
  {
    hide Legal, ImmU, Wrap, Condition, LoadStore.Misaligned, Csr.Read, Csr.Write, Opcode, Funct3, Funct7, Rd, Rs1,
         Rs2;
  }

  lemma JumpAgrees(ex: IdEx, a: Word, b: Word, mdu: Word, port: Csr.Access, ids: Csr.Ids, f: Fetch.Fetched,
                   s: M.Arch, v: Csr.Volatile)
    requires Ready(ex, a, b, f, s) && !f.fault && Legal(f.instr)
    requires Opcode(f.instr) == OP_JAL || Opcode(f.instr) == OP_JALR
    ensures Agrees(ex, a, b, mdu, port, s, M.Execute(ids, f, s, v))
  {
    hide Legal, Csr.Read, Csr.Write, Opcode, Funct3, Funct7, Rd, Rs1, Rs2, Wrap, ImmU, ImmI, ImmS, ImmB, ImmJ,
         Condition, LoadStore.Misaligned;
  }

  lemma BranchAgrees(ex: IdEx, a: Word, b: Word, mdu: Word, port: Csr.Access, ids: Csr.Ids, f: Fetch.Fetched,
                     s: M.Arch, v: Csr.Volatile)
    requires Ready(ex, a, b, f, s) && !f.fault && Legal(f.instr)
    requires Opcode(f.instr) == OP_BRANCH
    ensures Agrees(ex, a, b, mdu, port, s, M.Execute(ids, f, s, v))
  {
    hide Legal, Csr.Read, Csr.Write, Opcode, Funct3, Funct7, Rd, Rs1, Rs2, Wrap, ImmU, ImmI, ImmS, ImmB, ImmJ,
         Condition, LoadStore.Misaligned;
  }

  lemma LoadAgrees(ex: IdEx, a: Word, b: Word, mdu: Word, port: Csr.Access, ids: Csr.Ids, f: Fetch.Fetched,
                   s: M.Arch, v: Csr.Volatile)
    requires Ready(ex, a, b, f, s) && !f.fault && Legal(f.instr)
    requires Opcode(f.instr) == OP_LOAD
    ensures Agrees(ex, a, b, mdu, port, s, M.Execute(ids, f, s, v))
  {
    hide Legal, Csr.Read, Csr.Write, Opcode, Funct3, Funct7, Rd, Rs1, Rs2, Wrap, ImmU, ImmI, ImmS, ImmB, ImmJ,
         Condition, LoadStore.Misaligned;
  }

  lemma StoreAgrees(ex: IdEx, a: Word, b: Word, mdu: Word, port: Csr.Access, ids: Csr.Ids, f: Fetch.Fetched,
                    s: M.Arch, v: Csr.Volatile)
    requires Ready(ex, a, b, f, s) && !f.fault && Legal(f.instr)
    requires Opcode(f.instr) == OP_STORE
    ensures Agrees(ex, a, b, mdu, port, s, M.Execute(ids, f, s, v))
  {
    hide Legal, Csr.Read, Csr.Write, Opcode, Funct3, Funct7, Rd, Rs1, Rs2, Wrap, ImmU, ImmI, ImmS, ImmB, ImmJ,
         Condition, LoadStore.Misaligned;
  }

  lemma ImmediateOpAgrees(ex: IdEx, a: Word, b: Word, mdu: Word, port: Csr.Access, ids: Csr.Ids, f: Fetch.Fetched,
                          s: M.Arch, v: Csr.Volatile)
    requires Ready(ex, a, b, f, s) && !f.fault && Legal(f.instr)
    requires Opcode(f.instr) == OP_IMM
    ensures Agrees(ex, a, b, mdu, port, s, M.Execute(ids, f, s, v))
  {
    hide Legal, Csr.Read, Csr.Write, Opcode, Funct3, Funct7, Rd, Rs1, Rs2, Wrap, ImmU, ImmI, ImmS, ImmB, ImmJ,
         Condition, LoadStore.Misaligned, Compute, IntegerOp;
  }

  lemma RegisterOpAgrees(ex: IdEx, a: Word, b: Word, mdu: Word, port: Csr.Access, ids: Csr.Ids, f: Fetch.Fetched,
                         s: M.Arch, v: Csr.Volatile)
    requires Ready(ex, a, b, f, s) && !f.fault && Legal(f.instr)
    requires Opcode(f.instr) == OP_REG
    requires IsMulDiv(f.instr) ==> mdu == Mdu.WordExpected(Funct3(f.instr), a, b)
    ensures Agrees(ex, a, b, mdu, port, s, M.Execute(ids, f, s, v))
  {
    hide Legal, Csr.Read, Csr.Write, Opcode, Funct3, Funct7, Rd, Rs1, Rs2, Wrap, ImmU, ImmI, ImmS, ImmB, ImmJ,
         Condition, LoadStore.Misaligned, Compute, IntegerOp, MultiplyOp, Mdu.WordExpected;
  }

  lemma FenceAgrees(ex: IdEx, a: Word, b: Word, mdu: Word, port: Csr.Access, ids: Csr.Ids, f: Fetch.Fetched,
                    s: M.Arch, v: Csr.Volatile)
    requires Ready(ex, a, b, f, s) && !f.fault && Legal(f.instr)
    requires Opcode(f.instr) == OP_MISC_MEM
    ensures Agrees(ex, a, b, mdu, port, s, M.Execute(ids, f, s, v))
  {
    hide Legal, Csr.Read, Csr.Write, Opcode, Funct3, Funct7, Rd, Rs1, Rs2, Wrap, ImmU, ImmI, ImmS, ImmB, ImmJ,
         Condition, LoadStore.Misaligned;
  }

  lemma EnvironmentAgrees(ex: IdEx, a: Word, b: Word, mdu: Word, port: Csr.Access, ids: Csr.Ids, f: Fetch.Fetched,
                          s: M.Arch, v: Csr.Volatile)
    requires Ready(ex, a, b, f, s) && !f.fault && Legal(f.instr)
    requires Opcode(f.instr) == OP_SYSTEM && Funct3(f.instr) == 0
    ensures Agrees(ex, a, b, mdu, port, s, M.Execute(ids, f, s, v))
  {
    LegalSystem(f.instr);
    hide Legal, Csr.Read, Csr.Write, Opcode, Funct3, Funct7, Rd, Rs1, Rs2, Wrap, ImmU, ImmI, ImmS, ImmB, ImmJ,
         Condition, LoadStore.Misaligned;
  }

  lemma CsrAgrees(ex: IdEx, a: Word, b: Word, mdu: Word, port: Csr.Access, ids: Csr.Ids, f: Fetch.Fetched, s: M.Arch,
                  v: Csr.Volatile)
    requires Ready(ex, a, b, f, s) && !f.fault && Legal(f.instr)
    requires Opcode(f.instr) == OP_SYSTEM && Funct3(f.instr) != 0
    requires port == Csr.Read(s.csr, v, ids, CsrField(f.instr))
    ensures Agrees(ex, a, b, mdu, port, s, M.Execute(ids, f, s, v))
  {
    LegalSystem(f.instr);
    hide Legal, Csr.Read, Csr.Write, Opcode, Funct3, Funct7, Rd, Rs1, Rs2, Wrap, ImmU, ImmI, ImmS, ImmB, ImmJ,
         Condition, LoadStore.Misaligned, Or, And, Not;
  }

  lemma LegalSystem(i: Word)
    requires Legal(i) && Opcode(i) == OP_SYSTEM
    ensures Funct3(i) == 0 ==> i == ECALL || i == EBREAK || i == MRET || i == WFI
    ensures Funct3(i) != 4
  {
  }

  lemma LegalOpcode(i: Word)
    requires Legal(i)
    ensures Opcode(i) in {OP_LUI, OP_AUIPC, OP_JAL, OP_JALR, OP_BRANCH, OP_LOAD, OP_STORE, OP_IMM, OP_REG,
                          OP_MISC_MEM, OP_SYSTEM}
  {
  }

  /** For every instruction word, operand values and CSR contents, the EX stage refuses exactly
      what the reference refuses, for the same cause and value, and otherwise produces the
      reference's successor, result, access and CSR update. */
  lemma ExecuteAgrees(ex: IdEx, a: Word, b: Word, mdu: Word, port: Csr.Access, ids: Csr.Ids, f: Fetch.Fetched,
                      s: M.Arch, v: Csr.Volatile)
    requires Ready(ex, a, b, f, s)
    requires MduActive(ex) ==> mdu == Mdu.WordExpected(Funct3(ex.instr), AluA(ex, a), AluB(ex, b))
    requires ex.ctrl.csrEn ==> port == Csr.Read(s.csr, v, ids, CsrField(ex.instr))
    ensures Agrees(ex, a, b, mdu, port, s, M.Execute(ids, f, s, v))
  {
    if f.fault || !Legal(f.instr) {
      RefusedFault(ex, a, b, mdu, port, ids, f, s, v);
    } else {
      LegalOpcode(f.instr);
      var op := Opcode(f.instr);
      if op == OP_LUI || op == OP_AUIPC { UpperAgrees(ex, a, b, mdu, port, ids, f, s, v); }
      else if op == OP_JAL || op == OP_JALR { JumpAgrees(ex, a, b, mdu, port, ids, f, s, v); }
      else if op == OP_BRANCH { BranchAgrees(ex, a, b, mdu, port, ids, f, s, v); }
      else if op == OP_LOAD { LoadAgrees(ex, a, b, mdu, port, ids, f, s, v); }
      else if op == OP_STORE { StoreAgrees(ex, a, b, mdu, port, ids, f, s, v); }
      else if op == OP_IMM { ImmediateOpAgrees(ex, a, b, mdu, port, ids, f, s, v); }
      else if op == OP_REG { RegisterOperands(ex, a, b); RegisterOpAgrees(ex, a, b, mdu, port, ids, f, s, v); }
      else if op == OP_MISC_MEM { FenceAgrees(ex, a, b, mdu, port, ids, f, s, v); }
      else if Funct3(f.instr) == 0 { EnvironmentAgrees(ex, a, b, mdu, port, ids, f, s, v); }
      else {
        LegalSystem(f.instr);
        SystemUsesCsrPort(ex);
        CsrAgrees(ex, a, b, mdu, port, ids, f, s, v);
      }
    }
  }

  lemma RegisterOperands(ex: IdEx, a: Word, b: Word)
    requires Decoded(ex) && Opcode(ex.instr) == OP_REG
    ensures AluA(ex, a) == a && AluB(ex, b) == b
  {
    hide Legal, Funct3, Funct7, Rd, Rs1, Rs2, Opcode, Immediate;
  }

  lemma SystemUsesCsrPort(ex: IdEx)
    requires Decoded(ex) && Opcode(ex.instr) == OP_SYSTEM && Funct3(ex.instr) != 0 && Funct3(ex.instr) != 4
    ensures ex.ctrl.csrEn
  {
    hide Legal, Funct3, Funct7, Rd, Rs1, Rs2, Opcode, Immediate;
  }
}
