/** The cycle in which the pipeline advances, second half: the instruction in EX departs or is
    trapped, and the younger stages follow, wait or are thrown away. */
module Departing {
  import opened Words
  import opened Decode
  import opened Stages
  import opened Pipeline
  import opened Relation
  import opened Stalling
  import opened Advancing
  import Fetch
  import Mdu
  import Csr
  import M = Machine
  import E = Execution

  // ---- Facts about decoded control ---------------------------------------------------------

  predicate Consistent(c: Ctrl) {
    && (c.branchEn <==> c.pcSel == PcBranch) && (c.jal <==> c.pcSel == PcJal) && (c.jalr <==> c.pcSel == PcJalr)
    && (c.mret || c.wfi || c.fenceI ==> !c.branchEn && !c.jal && !c.jalr && !c.memRead && !c.memWrite)
    && (c.csrEn ==> !c.mret) && (c.memRead ==> c.regWrite)
  }

  lemma ControlFacts(n: Word)
    ensures Consistent(Control(n))
  {
    hide Legal, Funct3, Funct7, Opcode, IntegerOp, MultiplyOp;
    var op := Opcode(n);
    if op == OP_LUI { }
    else if op == OP_AUIPC { }
    else if op == OP_JAL { }
    else if op == OP_JALR { }
    else if op == OP_BRANCH { }
    else if op == OP_LOAD { }
    else if op == OP_STORE { }
    else if op == OP_IMM { }
    else if op == OP_REG { }
    else if op == OP_MISC_MEM { }
    else { }
  }

  lemma NopIsBenign()
    ensures Benign(Control(NOP)) && !Control(NOP).csrEn
  {
    assert Opcode(NOP) == OP_IMM;
    hide Legal, Funct3, Funct7, Opcode, IntegerOp, MultiplyOp;
  }

  // ---- What every advancing cycle does -----------------------------------------------------

  /** A redirect empties everything younger than EX. */
  lemma Flushed(w: Flight, st: State, i: Input, pc: Word)
    requires Advance(st, i) && FlushIfId(w.cfg, st, i) && Fetch.Holds(w.fetch, st.pc, st.fb)
    ensures var t := Step(w.cfg, st, i);
      && !t.id.valid && t.id.instr == NOP
      && !t.ex.valid && Benign(t.ex.ctrl)
      && Fetch.Empty(t.fb) && Fetch.Holds(w.fetch, pc, t.fb)
  {
    Fetch.ClockEmpties(w.fetch, st.pc, st.fb, Response(st, i), true, FetchOut(st, i).complete && !StallId(st), pc);
    hide Advance, SystemRedirect, Redirecting, StallId, IfIdInput, IdExInput, FetchOut, Response, NextMem, NextWb,
         NextMdu, NextLatch, NextSleep, NextPc, CsrCommand, Csr.Clock, Fetch.Clock, Fetch.Holds;
  }

  /** The engines and the transfer latch start afresh for whatever enters EX and MEM next. */
  lemma Released(w: Flight, st: State, i: Input)
    requires Advance(st, i) && MduOk(st)
    ensures exists t {:trigger Outstanding(t)} ::
      && t == Step(w.cfg, st, i)
      && Mdu.BothIdle(t.mdu) && MduOk(t) && LatchOk(t.latch, t.mem) && Outstanding(t) == []
  {
    NoWaiting(st, i);
    var t := Step(w.cfg, st, i);
    assert t.mdu == NextMdu(st, i) && t.latch == NextLatch(st, i);
    var a, b := AluA(st.ex, OperandA(st)), AluB(st.ex, OperandB(st));
    hide Step, Advance, OperandA, OperandB, MduActive, BusStall, Mdu.WordOwned, Mdu.WordStall, Mdu.WordClock,
         Mdu.WordLeft, AluA, AluB;
    Mdu.WordClockKeepsOwnership(st.mdu, MduActive(st.ex), Funct3(st.ex.instr), a, b, !BusStall(st, i));
    Mdu.IdleIsOwned(t.mdu, MduActive(t.ex), Funct3(t.ex.instr), AluA(t.ex, OperandA(t)), AluB(t.ex, OperandB(t)));
    assert Outstanding(t) == [];
  }

  lemma CountedKeeps(c: Csr.State, valid: bool, p: Csr.Pins)
    ensures var d := Counted(c, valid);
      && Csr.IrqPending(d, p) == Csr.IrqPending(c, p) && Csr.IrqCause(d, p) == Csr.IrqCause(c, p)
      && d.mtvec == c.mtvec && d.mepc == c.mepc
  {
    Csr.RetireKeeps(c, p);
  }

  ghost predicate OlderOk(w: Flight, t: State, r: M.Arch, v: Csr.Volatile, pc: Word) {
    && r.x == Written(t.regs, t.wb)
    && MemOk(w, t.mem, t.wb, r, v)
    && CsrOk(w, t.csr, t.mem, t.wb, r, v)
    && PcAfterMem(w, t.mem, r, v) == pc
    && MduOk(t) && LatchOk(t.latch, t.mem)
  }

  /** The parts of the relation, put together. */
  lemma Relate(w: Flight, t: State, r: M.Arch, v: Csr.Volatile, pc: Word)
    ensures
      && OlderOk(w, t, r, v, pc)
      && ExOk(w, t.ex, t.mem, t.wb, t.regs, pc)
      && (!t.id.valid ==> t.id.instr == NOP)
      && PathOk(w, t.id, t.pc, PcAfterEx(t.ex, pc))
      && Fetch.Holds(w.fetch, t.pc, t.fb) && SleepOk(t)
      ==> Related(w, t, r, v)
  {
    hide MemOk, CsrOk, ExOk, PathOk, MduOk, LatchOk, SleepOk, Fetch.Holds, Written, PcAfterMem, PcAfterEx,
         Redirecting;
  }

  /** With EX and ID empty the path is the PC alone. */
  lemma EmptyPath(w: Flight, t: State, pc: Word)
    requires !t.ex.valid && Benign(t.ex.ctrl) && !t.id.valid && t.pc == pc && Fetch.Empty(t.fb)
    requires t.sleep ==> !Requests(t.mem)
    ensures ExOk(w, t.ex, t.mem, t.wb, t.regs, pc) && PathOk(w, t.id, t.pc, PcAfterEx(t.ex, pc)) && SleepOk(t)
  {
    hide Benign, Fetch.Empty, Requests;
  }

  // ---- Traps -------------------------------------------------------------------------------

  lemma NotSleeping(st: State, i: Input, cfg: Config)
    requires SleepOk(st) && TrapEnter(cfg, st, i)
    ensures !st.sleep && !NextSleep(cfg, st, i)
  {
    hide Advance, ResponseError, CsrPort, OperandA, OperandB, Illegal, TargetMisaligned, DataMisaligned, Fetch.Empty;
  }

  lemma TrapCsr(cfg: Config, st: State, i: Input, valid: bool, c: Csr.State)
    requires TrapEnter(cfg, st, i)
    requires c == Counted(Counted(st.csr, st.wb.valid), valid)
    ensures var r := TrapRecord(cfg, st, i);
      Counted(Step(cfg, st, i).csr, valid) == Csr.EnterTrap(c, r.pc, r.cause, r.value)
  {
    var r := TrapRecord(cfg, st, i);
    assert Advance(st, i) by { hide Advance, Refused; }
    Csr.RetireCommutes(Counted(st.csr, st.wb.valid), r.pc, r.cause, r.value);
    hide Advance, TrapEnter, TrapRecord, Csr.Retire, Csr.EnterTrap, CsrPort, NextPc, NextFetch, NextId, NextEx,
         NextMem, NextWb, NextRegs, NextMdu, NextSleep, NextLatch, Csr.ClockCycle, MretTaken, CsrOperandOf, OperandA;
  }

  lemma TrapMoves(cfg: Config, st: State, i: Input)
    requires TrapEnter(cfg, st, i) && SleepOk(st)
    ensures var t := Step(cfg, st, i);
      && Advance(st, i) && SystemRedirect(cfg, st, i)
      && t.pc == TrapVector(cfg, st, i) && t.wb == NextWb(st, i) && t.regs == NextRegs(st, i)
      && !t.mem.valid && !Requests(t.mem) && !t.sleep
  {
    assert Advance(st, i) by { hide Advance, Refused; }
    NotSleeping(st, i, cfg);
    hide Advance, TrapEnter, TrapVector, StallId, Redirecting, MretTaken, WfiSleep, FenceITaken, ExMemInput,
         NextSleep, NextWb, NextRegs, NextFetch, NextId, NextEx, NextMdu, NextLatch, CsrCommand, Csr.Clock,
         Csr.ClockCycle;
  }

  /** Trap entry: whatever was in EX, ID and IF is gone, and the reference has taken the same trap
      from the state the older instructions leave. */
  lemma TrapKeepsRelation(w: Flight, st: State, i: Input, base: M.Arch)
    requires TrapEnter(w.cfg, st, i) && Fetch.Holds(w.fetch, st.pc, st.fb) && MduOk(st) && SleepOk(st)
    requires base.x == Written(NextRegs(st, i), NextWb(st, i))
    requires base.csr == Counted(Counted(st.csr, st.wb.valid), NextWb(st, i).valid)
    ensures var r := TrapRecord(w.cfg, st, i);
      Related(Carried(w, st, i), Step(w.cfg, st, i),
              M.ToTrap(base, r.pc, r.cause, r.value, TrapVector(w.cfg, st, i)), Now(st, i))
  {
    hide Step, Advance, TrapEnter, TrapRecord, TrapVector, NextWb, NextRegs, Written, Counted, Csr.EnterTrap,
         OutcomeAt, MduOk, LatchOk, Fetch.Holds, Fetch.Empty, Benign, SystemRedirect, Now, Requests, Related, SleepOk,
         ExOk, PathOk, Redirecting, Outstanding;
    var t := Step(w.cfg, st, i);
    TrapMoves(w.cfg, st, i);
    Flushed(w, st, i, t.pc);
    Released(w, st, i);
    TrapCsr(w.cfg, st, i, t.wb.valid, base.csr);
    var r := TrapRecord(w.cfg, st, i);
    var after := M.ToTrap(base, r.pc, r.cause, r.value, TrapVector(w.cfg, st, i));
    EmptyPath(Carried(w, st, i), t, t.pc);
    Relate(Carried(w, st, i), t, after, Now(st, i), t.pc);
  }

  // ---- Departure from EX -------------------------------------------------------------------

  /** The reference outcome of the instruction in EX, in the advancing cycle. */
  function ExOutcome(w: Flight, st: State, i: Input, s: M.Arch, v: Csr.Volatile): M.Outcome {
    OutcomeAt(Carried(w, st, i), AfterMem(w, st, i, s, v), Now(st, i))
  }

  ghost predicate Departs(w: Flight, st: State, i: Input, s: M.Arch, v: Csr.Volatile) {
    Related(w, st, s, v) && Advance(st, i) && !TrapEnter(w.cfg, st, i)
  }

  lemma NotRefused(w: Flight, st: State, i: Input, s: M.Arch, v: Csr.Volatile)
    requires Departs(w, st, i, s, v) && st.ex.valid
    ensures ExOutcome(w, st, i, s, v).Done? && !DataFault(st, i)
    ensures !Refused(st.ex, OperandA(st), OperandB(st), CsrPort(w.cfg, st, i)) && !st.ex.fault
  {
    hide Related, Advance, DataFault, Illegal, TargetMisaligned, DataMisaligned, OutcomeAt, AfterMem, OperandA,
         OperandB, CsrPort, MduResult, E.Fetched, Fetch.InstructionAt, IrqTake;
    ExAgrees(w, st, i, s, v);
    hide Refused, RefusalCause, E.NextOf, E.CsrAfter, E.AccessAgrees;
  }

  lemma ForwardsResult(cfg: Config, st: State, i: Input)
    ensures MemForward(ExMemInput(cfg, st, i))
         == E.ForwardedResult(st.ex, OperandA(st), OperandB(st), MduResult(st), CsrPort(cfg, st, i))
  {
    hide ExResult, OperandA, OperandB, MduResult, CsrPort, Link;
  }

  /** An outcome EX agrees with is carried by the payload EX presents to EX/MEM. */
  lemma CarriesAgreement(cfg: Config, st: State, i: Input, wb: MemWb, s: M.Arch, o: M.Outcome)
    requires o.Done?
    requires E.Agrees(st.ex, OperandA(st), OperandB(st), MduResult(st), CsrPort(cfg, st, i), s, o)
    requires StoreOperand(ExMemInput(cfg, st, i), wb) == Get(s.x, st.ex.rs2)
    ensures Carries(ExMemInput(cfg, st, i), wb, o)
  {
    ForwardsResult(cfg, st, i);
    hide ExResult, OperandA, OperandB, MduResult, CsrPort, Link, MemForward, E.ForwardedResult, StoreOperand, Refused,
         RefusalCause, E.NextOf, E.CsrAfter;
  }

  /** The instruction enters MEM carrying the reference's outcome; store data is current there. */
  lemma EntersMem(w: Flight, st: State, i: Input, s: M.Arch, v: Csr.Volatile)
    requires Departs(w, st, i, s, v) && st.ex.valid
    ensures var t, r := Step(w.cfg, st, i), AfterMem(w, st, i, s, v);
      t.mem == ExMemInput(w.cfg, st, i) && t.mem.valid && MemOk(Carried(w, st, i), t.mem, t.wb, r, Now(st, i))
  {
    NotRefused(w, st, i, s, v);
    MemWbMove(w.cfg, st, i);
    hide Step, Related, Advance, DataFault, TrapEnter, Refused, NextWb, NextRegs, OutcomeAt, AfterMem, Written,
         Carries, E.Agrees, Counted, E.Fresh, Fetch.InstructionAt, StoreOperand, OperandA, OperandB, MduResult,
         CsrPort, ExResult, Link;
    ExAgrees(w, st, i, s, v);
    AfterMemIsBetween(w, st, i, s, v);
    OperandsFresh(w, st, i, s, v);
    CarriesAgreement(w.cfg, st, i, NextWb(st, i), AfterMem(w, st, i, s, v), ExOutcome(w, st, i, s, v));
  }

  lemma MemWbMove(cfg: Config, st: State, i: Input)
    requires Advance(st, i) && !TrapEnter(cfg, st, i)
    ensures var t := Step(cfg, st, i);
      && t.mem == ExMemInput(cfg, st, i) && t.wb == NextWb(st, i) && t.regs == NextRegs(st, i)
      && t.wb.valid == st.mem.valid && (t.sleep ==> st.sleep || WfiSleep(cfg, st, i))
  {
    hide Advance, ExMemInput, SyncTrap, IrqTake, DataFault, WritebackData, BusData, BusStrobes;
  }

  lemma ExIsDecoded(w: Flight, st: State, s: M.Arch, v: Csr.Volatile)
    requires Related(w, st, s, v)
    ensures if st.ex.valid then E.Decoded(st.ex) else Benign(st.ex.ctrl)
    ensures st.ex.valid && st.ex.ctrl.csrEn ==> !st.mem.valid && !st.wb.valid
  {
    assert RelatedAt(w, st, s, v, PcAfterMem(w, st.mem, s, v));
    hide MemOk, CsrOk, PathOk, MduOk, SleepOk, LatchOk, Fetch.Holds, E.Decoded, E.Fetched, PcAfterMem, NoLoadUse,
         Benign, Written, Redirecting;
  }

  lemma DecodedControl(ex: IdEx)
    requires E.Decoded(ex)
    ensures ex.ctrl == Control(ex.instr)
  {
    hide Control, Immediate, Rs1, Rs2, Rd;
  }

  lemma WfiDecodes(n: Word)
    ensures Control(n).wfi <==> n == 0x1050_0073
  {
    assert Opcode(0x1050_0073) == OP_SYSTEM && Funct3(0x1050_0073) == 0;
    hide Legal, Funct3, Funct7, Opcode, IntegerOp, MultiplyOp;
    var op := Opcode(n);
    if op == OP_LUI { }
    else if op == OP_AUIPC { }
    else if op == OP_JAL { }
    else if op == OP_JALR { }
    else if op == OP_BRANCH { }
    else if op == OP_LOAD { }
    else if op == OP_STORE { }
    else if op == OP_IMM { }
    else if op == OP_REG { }
    else if op == OP_MISC_MEM { }
    else { }
  }

  /** The CSRs after this edge are the reference's, updated once however long EX was held. */
  lemma CsrDeparts(w: Flight, st: State, i: Input, s: M.Arch, v: Csr.Volatile)
    requires Departs(w, st, i, s, v) && st.ex.valid
    ensures var t := Step(w.cfg, st, i);
      ExOutcome(w, st, i, s, v).Done? && Counted(t.csr, st.mem.valid) == ExOutcome(w, st, i, s, v).csr
  {
    var t, r := Step(w.cfg, st, i), AfterMem(w, st, i, s, v);
    NotRefused(w, st, i, s, v);
    AfterMemIsBetween(w, st, i, s, v);
    ExAgrees(w, st, i, s, v);
    ExIsDecoded(w, st, s, v);
    ControlFacts(st.ex.instr);
    assert t.csr == Csr.Clock(st.csr, CsrCommand(w.cfg, st, i));
    assert MretTaken(st, i) <==> st.ex.ctrl.mret;
    assert CsrWrite(w.cfg, st, i) <==> CsrIntent(st.ex) by {
      hide Related, Advance, TrapEnter, OutcomeAt, AfterMem, OperandA, OperandB, TargetMisaligned, DataMisaligned,
           Step;
    }
    Csr.RetireCommutes(Counted(st.csr, st.wb.valid), 0, 0, 0);
    hide Step, Related, Advance, TrapEnter, DataFault, Refused, OutcomeAt, AfterMem, OperandA, OperandB, TrapRecord,
         CsrWrite, MretTaken, CsrIntent, Csr.Retire, Csr.Return, Csr.WriteRegister, Csr.WriteInstret, M.CsrResult,
         CsrOperandOf, Control, MduResult, RefusalCause, E.NextOf, E.AccessAgrees, E.Decoded, Benign, E.Fetched,
         Fetch.InstructionAt, CsrPort, Written, NextWb, NextRegs, MainDecode;
  }

  // ---- The younger stages ------------------------------------------------------------------

  /** The state from which the younger stages continue: the next reference state's PC after MEM. */
  function NextPath(w: Flight, st: State, i: Input, s: M.Arch, v: Csr.Volatile): Word {
    if st.ex.valid then
      var o := ExOutcome(w, st, i, s, v);
      if o.Done? then o.next else AfterMem(w, st, i, s, v).pc
    else AfterMem(w, st, i, s, v).pc
  }

  /** EX names its successor: the redirect target if it redirects, and otherwise the next word. */
  lemma SuccessorOfEx(w: Flight, st: State, i: Input, s: M.Arch, v: Csr.Volatile)
    requires Departs(w, st, i, s, v) && st.ex.valid
    ensures NextPath(w, st, i, s, v) == E.NextOf(st.ex, OperandA(st), OperandB(st), st.csr)
    ensures Consistent(st.ex.ctrl)
  {
    NotRefused(w, st, i, s, v);
    AfterMemIsBetween(w, st, i, s, v);
    ExAgrees(w, st, i, s, v);
    ExIsDecoded(w, st, s, v);
    ControlFacts(st.ex.instr);
    CountedKeeps(st.csr, st.wb.valid, i.pins);
    CountedKeeps(Counted(st.csr, st.wb.valid), st.mem.valid, i.pins);
    hide Related, Advance, TrapEnter, DataFault, Refused, OutcomeAt, AfterMem, OperandA, OperandB, Control, MduResult,
         RefusalCause, E.CsrAfter, E.AccessAgrees, E.Fetched, Fetch.InstructionAt, CsrPort, Written, NextWb, NextRegs,
         Benign, Consistent, E.Hazardous, E.SelectedTarget, Link, Counted, E.Fresh;
  }

  lemma RedirectNeedsEx(cfg: Config, st: State, i: Input)
    requires FlushIfId(cfg, st, i) && !TrapEnter(cfg, st, i) && (!st.ex.valid ==> Benign(st.ex.ctrl))
    ensures st.ex.valid
  {
    hide Advance, TrapEnter, DataFault, OperandA, OperandB, Csr.WakePending;
  }

  lemma ExIsAwake(st: State)
    requires SleepOk(st) && st.ex.valid
    ensures !st.sleep
  {
    hide Fetch.Empty, Requests;
  }

  lemma RedirectedPc(w: Flight, st: State, i: Input, s: M.Arch, v: Csr.Volatile)
    requires Departs(w, st, i, s, v) && FlushIfId(w.cfg, st, i)
    ensures st.ex.valid && !st.sleep
    ensures Step(w.cfg, st, i).pc == NextPath(w, st, i, s, v)
  {
    hide Step, Related, Advance, TrapEnter, FlushIfId, NextPath, NextPc, SleepOk, MduOk, LatchOk, PathOk, Fetch.Holds,
         Redirecting, E.NextOf, Consistent, Benign, OperandA, OperandB, Refused, E.Decoded;
    ExIsDecoded(w, st, s, v);
    RedirectNeedsEx(w.cfg, st, i);
    Holds(w, st, s, v);
    ExIsAwake(st);
    SuccessorOfEx(w, st, i, s, v);
    NotRefused(w, st, i, s, v);
    RedirectTarget(w.cfg, st, i);
    PcIsNext(w.cfg, st, i);
  }

  lemma PcIsNext(cfg: Config, st: State, i: Input)
    ensures Step(cfg, st, i).pc == NextPc(cfg, st, i)
  {
    hide NextPc, NextFetch, NextId, NextEx, NextMem, NextWb, NextRegs, NextMdu, NextSleep, NextLatch, CsrCommand,
         Csr.Clock, Csr.ClockCycle;
  }

  /** The PC mux selects the successor EX names. */
  lemma RedirectTarget(cfg: Config, st: State, i: Input)
    requires Advance(st, i) && !TrapEnter(cfg, st, i) && !DataFault(st, i) && FlushIfId(cfg, st, i) && st.ex.valid
    requires !st.sleep
    requires Consistent(st.ex.ctrl)
    ensures NextPc(cfg, st, i) == E.NextOf(st.ex, OperandA(st), OperandB(st), st.csr)
  {
    hide Advance, TrapEnter, DataFault, OperandA, OperandB, Link, RelativeTarget, Jumping, Sequential, StallId,
         Csr.WakePending, TrapVector;
  }

  /** With EX empty no CSR command but the retirement count is issued. */
  lemma CsrIdles(cfg: Config, st: State, i: Input)
    requires Advance(st, i) && !TrapEnter(cfg, st, i) && !st.ex.valid
    ensures Step(cfg, st, i).csr == Counted(st.csr, st.wb.valid)
  {
    hide Advance, TrapEnter, Csr.Retire, TrapRecord, CsrPort, OperandA, CsrOperandOf, M.CsrResult, NextPc, NextFetch,
         NextId, NextEx, NextMem, NextWb, NextRegs, NextMdu, NextSleep, NextLatch, Csr.ClockCycle;
  }

  lemma NoFault(cfg: Config, st: State, i: Input)
    requires !TrapEnter(cfg, st, i)
    ensures !DataFault(st, i)
  {
    hide DataFault, SyncTrap, IrqTake;
  }

  /** After the edge the stages from MEM on are right for the state the instruction in MEM leaves. */
  ghost predicate OlderFollow(w: Flight, st: State, i: Input, s: M.Arch, v: Csr.Volatile) {
    exists t :: t == Step(w.cfg, st, i)
             && OlderOk(Carried(w, st, i), t, AfterMem(w, st, i, s, v), Now(st, i), NextPath(w, st, i, s, v))
  }

  lemma OlderEmpty(w: Flight, st: State, i: Input, s: M.Arch, v: Csr.Volatile)
    requires Departs(w, st, i, s, v) && !st.ex.valid
    ensures OlderFollow(w, st, i, s, v)
  {
    hide Step, Related, Advance, TrapEnter, DataFault, OutcomeAt, AfterMem, NextWb, NextRegs, Written, MduOk, LatchOk,
         SleepOk, PathOk, Fetch.Holds, Redirecting, Csr.Retire, ExResult, OperandA, OperandB, MduResult, CsrPort,
         Link, Now;
    NoFault(w.cfg, st, i);
    AfterMemIsBetween(w, st, i, s, v);
    MemWbMove(w.cfg, st, i);
    CsrIdles(w.cfg, st, i);
    ExIsDecoded(w, st, s, v);
    Holds(w, st, s, v);
    Released(w, st, i);
    assert OlderOk(Carried(w, st, i), Step(w.cfg, st, i), AfterMem(w, st, i, s, v), Now(st, i),
                   NextPath(w, st, i, s, v));
  }

  /** The stages from MEM on, and the engines and latch, after an instruction departed from EX. */
  lemma OlderFollows(w: Flight, st: State, i: Input, s: M.Arch, v: Csr.Volatile)
    requires Departs(w, st, i, s, v)
    ensures OlderFollow(w, st, i, s, v)
  {
    hide Step, Related, Advance, TrapEnter, DataFault, OutcomeAt, AfterMem, NextWb, NextRegs, Written, MduOk, LatchOk,
         Counted, ExMemInput, MemOk, OperandA, OperandB, CsrPort, Refused, Outstanding, SleepOk, PathOk,
         Fetch.Holds, Redirecting;
    if !st.ex.valid {
      OlderEmpty(w, st, i, s, v);
    } else {
      NotRefused(w, st, i, s, v);
      AfterMemIsBetween(w, st, i, s, v);
      MemWbMove(w.cfg, st, i);
      EntersMem(w, st, i, s, v);
      CsrDeparts(w, st, i, s, v);
      Holds(w, st, s, v);
      Released(w, st, i);
      assert OlderOk(Carried(w, st, i), Step(w.cfg, st, i), AfterMem(w, st, i, s, v), Now(st, i),
                     NextPath(w, st, i, s, v));
    }
  }

  lemma Holds(w: Flight, st: State, s: M.Arch, v: Csr.Volatile)
    requires Related(w, st, s, v)
    ensures Fetch.Holds(w.fetch, st.pc, st.fb) && SleepOk(st) && MduOk(st) && LatchOk(st.latch, st.mem)
    ensures !st.id.valid ==> st.id.instr == NOP
    ensures !Redirecting(st) ==> PathOk(w, st.id, st.pc, PcAfterEx(st.ex, PcAfterMem(w, st.mem, s, v)))
  {
    assert RelatedAt(w, st, s, v, PcAfterMem(w, st.mem, s, v));
    hide MduOk, LatchOk, SleepOk, Fetch.Holds, MemOk, CsrOk, ExOk, PathOk, Redirecting, Written, PcAfterMem,
         PcAfterEx;
  }

  lemma SleeperIsHarmless(w: Flight, st: State, i: Input, s: M.Arch, v: Csr.Volatile)
    requires Departs(w, st, i, s, v) && FlushIfId(w.cfg, st, i)
    ensures var t := Step(w.cfg, st, i);
      t.sleep ==> !Requests(t.mem)
  {
    RedirectedPc(w, st, i, s, v);
    SuccessorOfEx(w, st, i, s, v);
    MemWbMove(w.cfg, st, i);
    hide Step, Departs, Advance, TrapEnter, FlushIfId, NextPath, NextWb, NextRegs, Csr.WakePending, ExResult,
         OperandA, OperandB, MduResult, CsrPort, Link;
  }

  /** EX redirects: the younger stages are empty and fetch resumes at the reference's next PC. */
  lemma RedirectKeepsRelation(w: Flight, st: State, i: Input, s: M.Arch, v: Csr.Volatile)
    requires Departs(w, st, i, s, v) && FlushIfId(w.cfg, st, i)
    ensures Related(Carried(w, st, i), Step(w.cfg, st, i), AfterMem(w, st, i, s, v), Now(st, i))
  {
    var t := Step(w.cfg, st, i);
    Holds(w, st, s, v);
    OlderFollows(w, st, i, s, v);
    RedirectedPc(w, st, i, s, v);
    SleeperIsHarmless(w, st, i, s, v);
    Flushed(w, st, i, t.pc);
    hide Step, Departs, Advance, FlushIfId, NextPath, AfterMem, OlderOk, Fetch.Holds, Fetch.Empty, Requests, Benign,
         Now, PathOk, ExOk, SleepOk, Related;
    EmptyPath(Carried(w, st, i), t, NextPath(w, st, i, s, v));
    Relate(Carried(w, st, i), t, AfterMem(w, st, i, s, v), Now(st, i), NextPath(w, st, i, s, v));
  }

  /** When EX does not redirect, its successor is the fall-through the younger stages already follow. */
  lemma FallsThrough(w: Flight, st: State, i: Input, s: M.Arch, v: Csr.Volatile)
    requires Departs(w, st, i, s, v) && !FlushIfId(w.cfg, st, i)
    ensures NextPath(w, st, i, s, v) == PcAfterEx(st.ex, PcAfterMem(w, st.mem, s, v))
    ensures PathOk(w, st.id, st.pc, NextPath(w, st, i, s, v))
  {
    Holds(w, st, s, v);
    assert !DataFault(st, i) by { hide Advance, DataFault, Related; }
    if st.ex.valid {
      SuccessorOfEx(w, st, i, s, v);
      NotRefused(w, st, i, s, v);
      hide Related, Advance, TrapEnter, DataFault, NextPath, Link, OperandA, OperandB, Taken, PathOk, WfiSleep,
           FenceITaken, PcAfterMem;
    } else {
      AfterMemIsBetween(w, st, i, s, v);
      hide Related, Advance, TrapEnter, DataFault, AfterMem, OutcomeAt, OperandA, OperandB, Taken, PathOk, Written,
           Counted, NextWb, NextRegs, PcAfterMem, WfiSleep, FenceITaken, MretTaken;
    }
  }
}
