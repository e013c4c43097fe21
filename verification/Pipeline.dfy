/** The five-stage pipeline (tdrv32_pipeline.sv): its combinational equations and one clock edge. */
module Pipeline {
  import opened Words
  import opened Decode
  import opened Alu
  import opened Stages
  import opened Hazard
  import opened LoadStore
  import Fetch
  import Mdu
  import Csr
  import RegisterFile
  import M = Machine

  datatype Config = Config(reset: Word, ids: Csr.Ids)

  /** dmem_complete, dmem_error_pending and dmem_rdata_latched. */
  datatype Latch = Latch(complete: bool, error: bool, rdata: Word)

  datatype State = State(
    pc: Word, fb: Fetch.State, id: IfId, ex: IdEx, mem: ExMem, wb: MemWb, regs: RegFile,
    csr: Csr.State, mcycle: Dword, mdu: Mdu.State, sleep: bool, latch: Latch)

  /** The input pins of one cycle. */
  datatype Input = Input(imemReady: bool, beat: Fetch.Beat,
                         dmemReady: bool, dmemRdata: Word, dmemError: bool,
                         pins: Csr.Pins, time: Dword)

  // ---- Instruction side --------------------------------------------------------------------

  predicate ImemValid(st: State) { !st.sleep && Fetch.RequestValid(st.fb) }

  function Response(st: State, i: Input): Fetch.Response {
    Fetch.Response(ImemValid(st) && i.imemReady, i.beat)
  }

  function FetchOut(st: State, i: Input): Fetch.Output {
    Fetch.Outputs(st.fb, st.pc, Response(st, i))
  }

  predicate ImemWait(st: State, i: Input) { ImemValid(st) && !FetchOut(st, i).complete }

  // ---- Data side ---------------------------------------------------------------------------

  predicate Requests(m: ExMem) { m.memRead || m.memWrite }

  predicate DmemValid(st: State) { Requests(st.mem) && !st.latch.complete }

  predicate Accepted(st: State, i: Input) { DmemValid(st) && i.dmemReady }

  predicate DmemWait(st: State, i: Input) { DmemValid(st) && !i.dmemReady }

  function ResponseData(st: State, i: Input): Word {
    if st.latch.complete then st.latch.rdata else i.dmemRdata
  }

  /** The error that belongs to the access in MEM, latched or arriving now. */
  predicate ResponseError(st: State, i: Input) {
    st.latch.error || (Accepted(st, i) && i.dmemError)
  }

  // ---- One global hold ---------------------------------------------------------------------

  predicate MduActive(ex: IdEx) { ex.valid && !ex.fault && IsMulDiv(ex.instr) }

  predicate MduStall(st: State) { Mdu.WordStall(st.mdu, MduActive(st.ex), Funct3(st.ex.instr)) }

  predicate BusStall(st: State, i: Input) { ImemWait(st, i) || DmemWait(st, i) }

  predicate Advance(st: State, i: Input) { !BusStall(st, i) && !MduStall(st) }

  // ---- Forwarding --------------------------------------------------------------------------

  /** The architectural result in MEM; loads are excluded by the select and show the address. */
  function MemForward(m: ExMem): Word {
    match m.wbSel
    case WbAlu => m.alu
    case WbMem => m.alu
    case WbLink => m.link
    case WbImm => m.imm
  }

  function Operand(captured: Word, rs: Reg, m: ExMem, w: MemWb): Word {
    Pick(Forward(rs, m.rd, m.valid && m.regWrite && m.wbSel != WbMem, w.rd, w.valid && w.regWrite),
         captured, w.data, MemForward(m))
  }

  function OperandA(st: State): Word { Operand(st.ex.rs1Data, st.ex.rs1, st.mem, st.wb) }

  function OperandB(st: State): Word { Operand(st.ex.rs2Data, st.ex.rs2, st.mem, st.wb) }

  /** Store data repaired in MEM from the instruction ahead of it. */
  function StoreOperand(m: ExMem, w: MemWb): Word {
    if w.valid && w.regWrite && w.rd != 0 && w.rd == m.rs2 then w.data else m.rs2Data
  }

  // ---- Execute -----------------------------------------------------------------------------

  function AluA(ex: IdEx, a: Word): Word { if ex.ctrl.aluASel then ex.pc else a }

  function AluB(ex: IdEx, b: Word): Word { if ex.ctrl.aluSrc then ex.imm else b }

  predicate Taken(ex: IdEx, a: Word, b: Word) {
    ex.ctrl.branchEn && Condition(ex.ctrl.branchType, a, b)
  }

  function RelativeTarget(ex: IdEx): Word { Wrap(ex.pc + ex.imm) }

  function Jumping(ex: IdEx, a: Word): Word {
    JumpTarget(ex.ctrl.jal, ex.ctrl.jalr, ex.pc, a, ex.imm)
  }

  function Link(ex: IdEx): Word { Wrap(ex.pc + Fetch.Length(ex.compressed)) }

  function DataAddress(ex: IdEx, a: Word): Word { Wrap(a + ex.imm) }

  function CsrPort(cfg: Config, st: State, i: Input): Csr.Access {
    Csr.Read(st.csr, Csr.Volatile(st.mcycle, i.time, i.pins), cfg.ids, CsrField(st.ex.instr))
  }

  function CsrOperandOf(ex: IdEx, a: Word): Word {
    if ex.ctrl.csrImm then Rs1(ex.instr) else a
  }

  predicate CsrIntent(ex: IdEx) {
    ex.ctrl.csrEn && (ex.ctrl.csrOp == CsrAssign || ex.rs1 != 0)
  }

  predicate CsrIllegal(ex: IdEx, port: Csr.Access) {
    ex.valid && ex.ctrl.csrEn && (!port.valid || (CsrIntent(ex) && !port.writable))
  }

  function ExResult(ex: IdEx, a: Word, b: Word, mdu: Word, port: Csr.Access): Word {
    if MduActive(ex) then mdu
    else if ex.ctrl.csrEn then port.data
    else if ex.ctrl.memRead || ex.ctrl.memWrite then DataAddress(ex, a)
    else Compute(ex.ctrl.aluOp, AluA(ex, a), AluB(ex, b))
  }

  function TransferTarget(ex: IdEx, a: Word, b: Word): Word {
    if Taken(ex, a, b) then RelativeTarget(ex) else Jumping(ex, a)
  }

  predicate TargetMisaligned(ex: IdEx, a: Word, b: Word) {
    ex.valid && (Taken(ex, a, b) || ex.ctrl.jal || ex.ctrl.jalr) && TransferTarget(ex, a, b) % 2 == 1
  }

  predicate DataMisaligned(ex: IdEx, a: Word) {
    Misaligned(ex.ctrl.memType, DataAddress(ex, a))
  }

  predicate Illegal(ex: IdEx, port: Csr.Access) {
    ex.valid && (ex.ctrl.illegal || CsrIllegal(ex, port))
  }

  /** ex_sync_trap without its advance qualifier. */
  predicate Refused(ex: IdEx, a: Word, b: Word, port: Csr.Access) {
    ex.valid && (ex.fault || Illegal(ex, port) || TargetMisaligned(ex, a, b) || ex.ctrl.ebreak
                 || ((ex.ctrl.memRead || ex.ctrl.memWrite) && DataMisaligned(ex, a)) || ex.ctrl.ecall)
  }

  /** The cause and value of an EX-stage exception, in the source's priority order. */
  function RefusalCause(ex: IdEx, a: Word, b: Word, port: Csr.Access): (Word, Word) {
    if ex.fault then (M.FETCH_FAULT, ex.pc)
    else if Illegal(ex, port) then (M.ILLEGAL, ex.raw)
    else if TargetMisaligned(ex, a, b) then (0, TransferTarget(ex, a, b))
    else if ex.ctrl.ebreak then (M.BREAKPOINT, 0)
    else if ex.ctrl.memRead && DataMisaligned(ex, a) then (M.LOAD_MISALIGNED, DataAddress(ex, a))
    else if ex.ctrl.memWrite && DataMisaligned(ex, a) then (M.STORE_MISALIGNED, DataAddress(ex, a))
    else (M.ECALL_M, 0)
  }

  // ---- Traps and redirects; all of them require the pipeline to advance ----------------------

  predicate Redirecting(st: State) {
    ControlHazard(Taken(st.ex, OperandA(st), OperandB(st)), st.ex.ctrl)
  }

  predicate DataFault(st: State, i: Input) {
    Advance(st, i) && st.mem.valid && Requests(st.mem) && ResponseError(st, i)
  }

  predicate SyncTrap(cfg: Config, st: State, i: Input) {
    Advance(st, i) && Refused(st.ex, OperandA(st), OperandB(st), CsrPort(cfg, st, i))
  }

  predicate IrqTake(cfg: Config, st: State, i: Input) {
    st.ex.valid && Csr.IrqPending(st.csr, i.pins) && !DataFault(st, i) && !SyncTrap(cfg, st, i) && Advance(st, i)
  }

  predicate TrapEnter(cfg: Config, st: State, i: Input) {
    DataFault(st, i) || SyncTrap(cfg, st, i) || IrqTake(cfg, st, i)
  }

  predicate MretTaken(st: State, i: Input) {
    st.ex.valid && st.ex.ctrl.mret && !DataFault(st, i) && Advance(st, i)
  }

  predicate WfiSleep(cfg: Config, st: State, i: Input) {
    st.ex.valid && st.ex.ctrl.wfi && !TrapEnter(cfg, st, i) && Advance(st, i) && !Csr.WakePending(st.csr, i.pins)
  }

  predicate FenceITaken(cfg: Config, st: State, i: Input) {
    st.ex.valid && st.ex.ctrl.fenceI && !TrapEnter(cfg, st, i) && Advance(st, i)
  }

  predicate SystemRedirect(cfg: Config, st: State, i: Input) {
    TrapEnter(cfg, st, i) || MretTaken(st, i) || WfiSleep(cfg, st, i) || FenceITaken(cfg, st, i)
  }

  /** trap_pc, trap_cause and trap_value: a bus fault in MEM beats everything in EX. */
  function TrapRecord(cfg: Config, st: State, i: Input): M.Trap {
    if DataFault(st, i) then
      M.Trap(st.mem.pc, if st.mem.memRead then M.LOAD_FAULT else M.STORE_FAULT, st.mem.alu)
    else if IrqTake(cfg, st, i) then M.Trap(st.ex.pc, Csr.IrqCause(st.csr, i.pins), 0)
    else
      var (cause, value) := RefusalCause(st.ex, OperandA(st), OperandB(st), CsrPort(cfg, st, i));
      M.Trap(st.ex.pc, cause, value)
  }

  function TrapVector(cfg: Config, st: State, i: Input): Word {
    if IrqTake(cfg, st, i) then M.InterruptVector(st.csr, TrapRecord(cfg, st, i).cause)
    else M.DirectVector(st.csr)
  }

  function RedirectPc(cfg: Config, st: State, i: Input): Word {
    if TrapEnter(cfg, st, i) then TrapVector(cfg, st, i)
    else if MretTaken(st, i) then st.csr.mepc
    else Link(st.ex)
  }

  predicate CsrWrite(cfg: Config, st: State, i: Input) {
    var port := CsrPort(cfg, st, i);
    && st.ex.valid && CsrIntent(st.ex) && port.valid && port.writable && Advance(st, i) && !st.ex.fault
    && !TrapEnter(cfg, st, i)
  }

  function CsrCommand(cfg: Config, st: State, i: Input): Csr.Command {
    var trap := TrapRecord(cfg, st, i);
    Csr.Command(CsrWrite(cfg, st, i), CsrField(st.ex.instr),
                M.CsrResult(st.ex.ctrl.csrOp, CsrPort(cfg, st, i).data, CsrOperandOf(st.ex, OperandA(st))),
                TrapEnter(cfg, st, i), trap.pc, trap.cause, trap.value,
                MretTaken(st, i), st.wb.valid && Advance(st, i))
  }

  // ---- Stalls in front of EX -----------------------------------------------------------------

  predicate LoadUseStall(st: State) {
    LoadUse(st.ex, Control(st.id.instr), Rs1(st.id.instr), Rs2(st.id.instr))
  }

  /** A CSR instruction waits in ID until EX, MEM and WB are empty. */
  predicate CsrOrderStall(st: State) {
    st.id.valid && Control(st.id.instr).csrEn && (st.ex.valid || st.mem.valid || st.wb.valid)
  }

  predicate StallId(st: State) { LoadUseStall(st) || CsrOrderStall(st) }

  predicate FlushIfId(cfg: Config, st: State, i: Input) { SystemRedirect(cfg, st, i) || Redirecting(st) }

  predicate FlushIdEx(cfg: Config, st: State, i: Input) {
    SystemRedirect(cfg, st, i) || Redirecting(st) || StallId(st)
  }

  // ---- Program counter -----------------------------------------------------------------------

  function Sequential(st: State, i: Input): Word {
    Wrap(st.pc + Fetch.Length(FetchOut(st, i).fetched.compressed))
  }

  function NormalNext(st: State, i: Input): Word {
    match st.ex.ctrl.pcSel
    case PcNext => Sequential(st, i)
    case PcBranch => if Taken(st.ex, OperandA(st), OperandB(st)) then RelativeTarget(st.ex) else Sequential(st, i)
    case PcJal => Jumping(st.ex, OperandA(st))
    case PcJalr => Jumping(st.ex, OperandA(st))
  }

  predicate PcHold(cfg: Config, st: State, i: Input) {
    st.sleep || !Advance(st, i) || (StallId(st) && !SystemRedirect(cfg, st, i) && !Redirecting(st))
  }

  function NextPc(cfg: Config, st: State, i: Input): Word {
    if PcHold(cfg, st, i) then st.pc
    else if SystemRedirect(cfg, st, i) then RedirectPc(cfg, st, i)
    else NormalNext(st, i)
  }

  // ---- One clock edge, register by register --------------------------------------------------

  function NextFetch(cfg: Config, st: State, i: Input): Fetch.State {
    Fetch.Clock(st.fb, st.pc, Response(st, i), FlushIfId(cfg, st, i) && Advance(st, i),
                FetchOut(st, i).complete && !StallId(st) && Advance(st, i))
  }

  function IfIdInput(st: State, i: Input): IfId {
    var o := FetchOut(st, i);
    IfId(o.complete, o.fetched.fault, o.fetched.instr, o.fetched.compressed, st.pc, o.fetched.raw)
  }

  function NextId(cfg: Config, st: State, i: Input): IfId {
    NextIfId(st.id, StallId(st) || !Advance(st, i), FlushIfId(cfg, st, i), IfIdInput(st, i))
  }

  predicate WriteEnable(st: State, i: Input) { st.wb.valid && st.wb.regWrite && Advance(st, i) }

  function IdRead(st: State, i: Input, rs: Reg): Word {
    RegisterFile.Read(st.regs, WriteEnable(st, i), st.wb.rd, st.wb.data, rs)
  }

  function IdExInput(st: State, i: Input): IdEx {
    var n := st.id.instr;
    IdEx(st.id.valid, st.id.fault, st.id.compressed, Control(n), st.id.pc, n, st.id.raw,
         IdRead(st, i, Rs1(n)), IdRead(st, i, Rs2(n)), Immediate(n), Rs1(n), Rs2(n), Rd(n))
  }

  function NextEx(cfg: Config, st: State, i: Input): IdEx {
    NextIdEx(st.ex, !Advance(st, i), FlushIdEx(cfg, st, i), IdExInput(st, i))
  }

  function MduResult(st: State): Word {
    Mdu.WordResult(st.mdu, MduActive(st.ex), Funct3(st.ex.instr))
  }

  function ExMemInput(cfg: Config, st: State, i: Input): ExMem {
    var x, a, b := st.ex, OperandA(st), OperandB(st);
    ExMem(x.valid, x.ctrl.regWrite, x.ctrl.memRead, x.ctrl.memWrite, x.ctrl.wbSel, x.ctrl.memType,
          x.pc, x.raw, ExResult(x, a, b, MduResult(st), CsrPort(cfg, st, i)), b, Link(x), x.imm, x.rs2, x.rd)
  }

  function NextMem(cfg: Config, st: State, i: Input): ExMem {
    NextExMem(st.mem, !Advance(st, i), TrapEnter(cfg, st, i), ExMemInput(cfg, st, i))
  }

  function LoadValue(st: State, i: Input): Word {
    if st.mem.memRead then LoadData(st.mem.memType, st.mem.alu % 4, ResponseData(st, i)) else 0
  }

  function BusData(st: State): Word {
    if st.mem.memWrite then StoreData(st.mem.memType, st.mem.alu % 4, StoreOperand(st.mem, st.wb)) else 0
  }

  function BusStrobes(st: State): Strobes {
    if st.mem.memWrite then ByteEnable(st.mem.memType, st.mem.alu % 4) else 0
  }

  function WritebackData(st: State, i: Input): Word {
    match st.mem.wbSel
    case WbAlu => st.mem.alu
    case WbMem => LoadValue(st, i)
    case WbLink => st.mem.link
    case WbImm => st.mem.imm
  }

  function MemWbInput(st: State, i: Input): MemWb {
    var m := st.mem;
    MemWb(m.valid && !DataFault(st, i), m.regWrite, m.memWrite, m.pc, m.raw, WritebackData(st, i), m.rd,
          m.alu, BusData(st), BusStrobes(st))
  }

  function NextWb(st: State, i: Input): MemWb {
    NextMemWb(st.wb, !Advance(st, i), MemWbInput(st, i))
  }

  function NextRegs(st: State, i: Input): RegFile {
    RegisterFile.Clock(st.regs, WriteEnable(st, i), st.wb.rd, st.wb.data)
  }

  function NextMdu(st: State, i: Input): Mdu.State {
    Mdu.WordClock(st.mdu, MduActive(st.ex), Funct3(st.ex.instr),
                  AluA(st.ex, OperandA(st)), AluB(st.ex, OperandB(st)), !BusStall(st, i))
  }

  function NextSleep(cfg: Config, st: State, i: Input): bool {
    if st.sleep && Csr.WakePending(st.csr, i.pins) then false
    else if WfiSleep(cfg, st, i) then true
    else st.sleep
  }

  function NextLatch(st: State, i: Input): Latch {
    var rdata := if Accepted(st, i) && !Advance(st, i) then i.dmemRdata else st.latch.rdata;
    if !Requests(st.mem) || Advance(st, i) then Latch(false, false, rdata)
    else if Accepted(st, i) then Latch(true, i.dmemError, rdata)
    else Latch(st.latch.complete, st.latch.error, rdata)
  }

  function Step(cfg: Config, st: State, i: Input): State {
    var k := CsrCommand(cfg, st, i);
    State(NextPc(cfg, st, i), NextFetch(cfg, st, i), NextId(cfg, st, i), NextEx(cfg, st, i),
          NextMem(cfg, st, i), NextWb(st, i), NextRegs(st, i),
          Csr.Clock(st.csr, k), Csr.ClockCycle(st.mcycle, st.csr, k),
          NextMdu(st, i), NextSleep(cfg, st, i), NextLatch(st, i))
  }

  /** Control is cleared and the PC is `pc`; the payload registers are arbitrary. */
  ghost predicate Cleared(st: State, pc: Word) {
    && st.pc == pc && Fetch.Empty(st.fb)
    && ResetIfId(st.id) && ResetIdEx(st.ex) && ResetExMem(st.mem) && ResetMemWb(st.wb)
    && st.regs == RegisterFile.ResetView() && st.csr == Csr.RESET && st.mcycle == 0
    && Mdu.BothIdle(st.mdu) && !st.sleep && !st.latch.complete && !st.latch.error
  }

  /** The state an asynchronous reset leaves.  Quantified over the PC, it unfolds only where a proof
      names the reset vector. */
  ghost predicate Reset(cfg: Config, st: State) {
    forall pc: Word :: pc == cfg.reset ==> Cleared(st, pc)
  }

  // ---- What leaves the core in one cycle -----------------------------------------------------

  function CommitOf(w: MemWb): M.Commit {
    M.Commit(w.pc, w.raw, M.RegisterWrite(w.regWrite, w.rd, w.data),
             if w.memWrite then Some(M.MemWrite(w.memAddr, w.memData, w.memStrobes)) else None)
  }

  function Committing(st: State, i: Input): Option<M.Commit> {
    if st.wb.valid && Advance(st, i) then Some(CommitOf(st.wb)) else None
  }

  function Trapping(cfg: Config, st: State, i: Input): Option<M.Trap> {
    if TrapEnter(cfg, st, i) then Some(TrapRecord(cfg, st, i)) else None
  }

  /** The data-port request of this cycle, paired with a response. */
  function Request(st: State, rdata: Word, error: bool): M.Transfer {
    M.Transfer(st.mem.memWrite, st.mem.alu, BusData(st), BusStrobes(st), Size(st.mem.memType), rdata, error)
  }

  function Transferring(st: State, i: Input): Option<M.Transfer> {
    if Accepted(st, i) then Some(Request(st, i.dmemRdata, i.dmemError)) else None
  }
}
