/** What a pipeline state means: the reference machine's state, and the part of its future
    that is already in flight. */
module Relation {
  import opened Words
  import opened Decode
  import opened Stages
  import opened Pipeline
  import Fetch
  import RegisterFile
  import Mdu
  import Csr
  import M = Machine
  import E = Execution

  /** One environment: the instruction memory and the integration constants. */
  datatype World = World(imem: Fetch.Imem, cfg: Config)

  /** The instruction memory as each place in the pipeline saw it.  What one instruction's beats
      returned need not be what memory holds by the time another is fetched. */
  datatype Flight = Flight(mem: Fetch.Imem, ex: Fetch.Imem, id: Fetch.Imem, fetch: Fetch.Imem, cfg: Config)

  /** A memory that never changes. */
  function Steady(w: World): Flight { Flight(w.imem, w.imem, w.imem, w.imem, w.cfg) }

  /** An instruction that moves on takes its memory with it. */
  function Carried(w: Flight, st: State, i: Input): Flight {
    if Advance(st, i) then w.(mem := w.ex, ex := w.id, id := if StallId(st) then w.id else w.fetch) else w
  }

  /** The instruction port answers from a memory; everything else is unconstrained. */
  predicate Served(mem: Fetch.Imem, st: State, i: Input) {
    ImemValid(st) && i.imemReady ==> i.beat == mem(Fetch.BusAddress(st.fb, st.pc))
  }

  /** The outcome of the instruction in MEM, which is at s.pc. */
  function OutcomeAt(w: Flight, s: M.Arch, v: Csr.Volatile): M.Outcome {
    M.Execute(w.cfg.ids, Fetch.InstructionAt(w.mem, s.pc), s, v)
  }

  /** EX/MEM carries the outcome of an instruction. */
  predicate Carries(m: ExMem, wb: MemWb, o: M.Outcome)
    requires o.Done?
  {
    && m.regWrite == o.writes && (o.writes ==> m.rd == o.rd)
    && match o.access
       case NoAccess =>
         !m.memRead && !m.memWrite && (o.writes ==> m.wbSel != WbMem && MemForward(m) == o.value)
       case Load(addr, ty) =>
         m.memRead && !m.memWrite && m.memType == ty && m.wbSel == WbMem && m.alu == addr
       case Store(addr, ty, data) =>
         && !m.memRead && m.memWrite && m.memType == ty && !m.regWrite && m.alu == addr
         && StoreOperand(m, wb) == data
  }

  /** MEM holds the next instruction of the reference run, executed but for its data access. */
  ghost predicate MemOk(w: Flight, m: ExMem, wb: MemWb, s: M.Arch, v: Csr.Volatile) {
    if !m.valid then !Requests(m)
    else
      var f, o := Fetch.InstructionAt(w.mem, s.pc), OutcomeAt(w, s, v);
      && o.Done? && m.pc == s.pc && m.raw == f.raw
      && Carries(m, wb, o)
  }

  /** The PC after the instruction in MEM; an access fault there is decided only when it leaves. */
  function PcAfterMem(w: Flight, m: ExMem, s: M.Arch, v: Csr.Volatile): Word {
    var o := OutcomeAt(w, s, v);
    if m.valid && o.Done? then o.next else s.pc
  }

  /** The register file once the instruction in WB has written. */
  function Written(regs: RegFile, wb: MemWb): RegFile {
    RegisterFile.Clock(regs, wb.valid && wb.regWrite, wb.rd, wb.data)
  }

  /** The CSRs once the instruction in WB has been counted. */
  function Counted(c: Csr.State, valid: bool): Csr.State {
    if valid then Csr.Retire(c) else c
  }

  /** The physical CSRs already show what the instruction in MEM did to them in EX. */
  ghost predicate CsrOk(w: Flight, c: Csr.State, m: ExMem, wb: MemWb, s: M.Arch, v: Csr.Volatile) {
    var o := OutcomeAt(w, s, v);
    Counted(c, wb.valid) == if m.valid && o.Done? then o.csr else s.csr
  }

  /** No control signal of an empty EX can act. */
  predicate Benign(c: Ctrl) {
    !c.branchEn && !c.jal && !c.jalr && !c.memRead && !c.memWrite && c.pcSel == PcNext
  }

  /** A load in MEM supplies nothing to EX; only store data may be waiting for it. */
  predicate NoLoadUse(ex: IdEx, m: ExMem) {
    m.valid && m.memRead && m.rd != 0 ==>
      && !(ex.ctrl.rs1Read && ex.rs1 == m.rd)
      && !(ex.ctrl.rs2Read && ex.rs2 == m.rd && !ex.ctrl.memWrite)
  }

  /** EX holds the instruction at `pc`, with operands captured from the register file. */
  ghost predicate ExOk(w: Flight, ex: IdEx, m: ExMem, wb: MemWb, regs: RegFile, pc: Word) {
    if !ex.valid then Benign(ex.ctrl)
    else
      && ex.pc == pc
      && E.Decoded(ex) && E.Fetched(ex, Fetch.InstructionAt(w.ex, pc))
      && ex.rs1Data == Get(regs, ex.rs1) && ex.rs2Data == Get(regs, ex.rs2)
      && (ex.ctrl.csrEn ==> !m.valid && !wb.valid)
      && NoLoadUse(ex, m)
  }

  /** The fall-through PC after EX. */
  function PcAfterEx(ex: IdEx, pc: Word): Word {
    if ex.valid then Link(ex) else pc
  }

  /** ID and the PC follow the straight-line path from `pc`. */
  ghost predicate PathOk(w: Flight, id: IfId, fetchPc: Word, pc: Word) {
    if id.valid then
      && id.pc == pc
      && Fetch.Agrees(Fetch.Fetched(id.fault, id.instr, id.raw, id.compressed), Fetch.InstructionAt(w.id, pc))
      && fetchPc == Wrap(pc + Fetch.Length(id.compressed))
    else fetchPc == pc
  }

  ghost predicate MduOk(st: State) {
    Mdu.WordOwned(st.mdu, MduActive(st.ex), Funct3(st.ex.instr),
                  AluA(st.ex, OperandA(st)), AluB(st.ex, OperandB(st)))
  }

  predicate LatchOk(l: Latch, m: ExMem) {
    (l.complete ==> Requests(m)) && (!l.complete ==> !l.error)
  }

  predicate SleepOk(st: State) {
    st.sleep ==> !st.ex.valid && !st.id.valid && Fetch.Empty(st.fb) && !Requests(st.mem)
  }

  /** The parts of the simulation relation; `pc` is the one after the instruction in MEM. */
  ghost predicate RelatedAt(w: Flight, st: State, s: M.Arch, v: Csr.Volatile, pc: Word) {
    && s.x == Written(st.regs, st.wb)
    && MemOk(w, st.mem, st.wb, s, v)
    && CsrOk(w, st.csr, st.mem, st.wb, s, v)
    && ExOk(w, st.ex, st.mem, st.wb, st.regs, pc)
    && (!st.id.valid ==> st.id.instr == NOP)
    && (!Redirecting(st) ==> PathOk(w, st.id, st.pc, PcAfterEx(st.ex, pc)))
    && Fetch.Holds(w.fetch, st.pc, st.fb)
    && MduOk(st)
    && LatchOk(st.latch, st.mem)
    && SleepOk(st)
  }

  /** The simulation relation.  `s` is the reference state before the instruction in MEM, or before the
      next one if MEM is empty; `v` is what that instruction saw of the volatile CSRs.  Quantified over
      the PC, it unfolds only where a proof names that PC. */
  ghost predicate Related(w: Flight, st: State, s: M.Arch, v: Csr.Volatile) {
    forall pc: Word :: pc == PcAfterMem(w, st.mem, s, v) ==> RelatedAt(w, st, s, v, pc)
  }

  /** The reference machine's state after reset. */
  function Start(cfg: Config): M.Arch {
    M.Arch(cfg.reset, RegisterFile.ResetView(), Csr.RESET)
  }
}
