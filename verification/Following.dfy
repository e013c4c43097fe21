/** The advancing cycle without a redirect: ID waits or moves into EX, and fetch follows. */
module Following {
  import opened Words
  import opened Decode
  import opened Stages
  import opened Pipeline
  import opened Relation
  import opened Stalling
  import opened Advancing
  import opened Departing
  import Fetch
  import RegisterFile
  import Csr
  import M = Machine
  import E = Execution

  // ---- ID waits ----------------------------------------------------------------------------

  lemma WaitMoves(w: Flight, st: State, i: Input)
    requires Advance(st, i) && !FlushIfId(w.cfg, st, i) && StallId(st)
    requires Fetch.Holds(w.fetch, st.pc, st.fb) && Served(w.fetch, st, i)
    ensures var t := Step(w.cfg, st, i);
      && t.id == st.id && t.pc == st.pc && !t.ex.valid && Benign(t.ex.ctrl)
      && Fetch.Holds(w.fetch, st.pc, t.fb)
  {
    ResponseServed(w, st, i);
    Fetch.ClockHolds(w.fetch, st.pc, st.fb, Response(st, i), false);
    hide Advance, SystemRedirect, Redirecting, StallId, IfIdInput, IdExInput, FetchOut, Response, NextMem, NextWb,
         NextMdu, NextLatch, NextSleep, CsrCommand, Csr.Clock, Fetch.Clock, Fetch.Holds, NormalNext, RedirectPc;
  }

  lemma WaitIsAwake(st: State)
    requires SleepOk(st) && StallId(st) && (!st.ex.valid ==> Benign(st.ex.ctrl))
    ensures !st.sleep
  {
    hide Fetch.Empty, Control;
  }

  lemma NotFlushing(cfg: Config, st: State, i: Input)
    requires !FlushIfId(cfg, st, i)
    ensures !WfiSleep(cfg, st, i) && !Redirecting(st)
  {
    hide TrapEnter, WfiSleep, MretTaken, FenceITaken, Redirecting;
  }

  lemma SamePath(w: Flight, x: Flight, id: IfId, fetchPc: Word, pc: Word)
    requires PathOk(w, id, fetchPc, pc) && x.id == w.id
    ensures PathOk(x, id, fetchPc, pc)
  {
    hide Fetch.InstructionAt, Fetch.Agrees, Wrap, Fetch.Length;
  }

  lemma EmptyEx(w: Flight, t: State, pc: Word)
    requires !t.ex.valid && Benign(t.ex.ctrl)
    ensures ExOk(w, t.ex, t.mem, t.wb, t.regs, pc) && PcAfterEx(t.ex, pc) == pc
  {
    hide Benign;
  }

  /** A load-use bubble or a CSR drain: EX becomes empty, ID and the PC stand still. */
  lemma WaitKeepsRelation(w: Flight, st: State, i: Input, s: M.Arch, v: Csr.Volatile)
    requires Departs(w, st, i, s, v) && Served(w.fetch, st, i) && !FlushIfId(w.cfg, st, i) && StallId(st)
    ensures Related(Carried(w, st, i), Step(w.cfg, st, i), AfterMem(w, st, i, s, v), Now(st, i))
  {
    NotFlushing(w.cfg, st, i);
    var t, pc := Step(w.cfg, st, i), NextPath(w, st, i, s, v);
    hide Step, Advance, FlushIfId, NextPath, AfterMem, OlderOk, Related, PathOk, Fetch.Holds, Fetch.Empty,
         Redirecting, PcAfterMem, Requests, Benign, Now, StallId, ExMemInput, TrapEnter, WfiSleep, NextWb, NextRegs,
         E.Decoded, ExOk, MduOk, LatchOk;
    Holds(w, st, s, v);
    ExIsDecoded(w, st, s, v);
    WaitIsAwake(st);
    OlderFollows(w, st, i, s, v);
    FallsThrough(w, st, i, s, v);
    MemWbMove(w.cfg, st, i);
    WaitMoves(w, st, i);
    SamePath(w, Carried(w, st, i), st.id, st.pc, pc);
    EmptyEx(Carried(w, st, i), t, pc);
    Relate(Carried(w, st, i), t, AfterMem(w, st, i, s, v), Now(st, i), pc);
  }

  // ---- ID moves ----------------------------------------------------------------------------

  lemma MoveStages(cfg: Config, st: State, i: Input)
    requires Advance(st, i) && !FlushIfId(cfg, st, i) && !StallId(st)
    ensures var t := Step(cfg, st, i);
      && t.ex == IdExInput(st, i) && t.id == IfIdInput(st, i).(pc := st.pc)
      && t.fb == Fetch.Clock(st.fb, st.pc, Response(st, i), false, FetchOut(st, i).complete)
      && t.pc == (if st.sleep then st.pc else NormalNext(st, i))
  {
    hide Advance, SystemRedirect, Redirecting, StallId, IdExInput, FetchOut, Response, NextMem, NextWb, NextMdu,
         NextLatch, NextSleep, CsrCommand, Csr.Clock, Fetch.Clock, NormalNext, RedirectPc;
  }

  lemma FetchCompletes(st: State, i: Input)
    requires Advance(st, i) && !st.sleep
    ensures FetchOut(st, i).complete
  {
    hide MduStall, DmemWait, Fetch.Whole;
  }

  lemma NormalIsSequential(st: State, i: Input)
    requires !Redirecting(st)
    requires if st.ex.valid then Consistent(st.ex.ctrl) else Benign(st.ex.ctrl)
    ensures NormalNext(st, i) == Sequential(st, i)
  {
    hide OperandA, OperandB, Sequential, Jumping, RelativeTarget;
  }

  /** No load-use or CSR hazard is carried into EX. */
  lemma HazardFree(cfg: Config, st: State, i: Input)
    requires !StallId(st) && st.id.valid && (st.ex.valid ==> Consistent(st.ex.ctrl))
    ensures Control(st.id.instr).csrEn ==> !st.ex.valid && !st.mem.valid
    ensures NoLoadUse(IdExInput(st, i), ExMemInput(cfg, st, i))
  {
    hide Control, IdRead, ExResult, OperandA, OperandB, MduResult, CsrPort, Link, Immediate;
  }

  ghost predicate Entered(w: Flight, st: State, i: Input, pc: Word) {
    exists t {:trigger ExOk(Carried(w, st, i), t.ex, t.mem, t.wb, t.regs, pc)} ::
      t == Step(w.cfg, st, i) && ExOk(Carried(w, st, i), t.ex, t.mem, t.wb, t.regs, pc)
  }

  /** The instruction in ID enters EX decoded, with the operands the register file will hold. */
  lemma EntersEx(w: Flight, st: State, i: Input, s: M.Arch, v: Csr.Volatile, pc: Word)
    requires Departs(w, st, i, s, v) && !FlushIfId(w.cfg, st, i) && !StallId(st)
    requires PathOk(w, st.id, st.pc, pc)
    ensures Entered(w, st, i, pc)
  {
    hide Wrap, PcAfterMem, PcAfterEx, Fetch.Length, MduOk, LatchOk, SleepOk, Fetch.Holds, Redirecting, Related, Step,
         Advance, TrapEnter, FlushIfId, StallId, NextRegs, NextWb, Benign, IdExInput;
    MoveStages(w.cfg, st, i);
    MemWbMove(w.cfg, st, i);
    Holds(w, st, s, v);
    NopIsBenign();
    if st.id.valid {
      ExIsDecoded(w, st, s, v);
      if st.ex.valid {
        ControlFacts(st.ex.instr);
        DecodedControl(st.ex);
      }
      HazardFree(w.cfg, st, i);
      InputDecoded(w, st, i, pc);
      hide PathOk, E.Decoded, E.Fetched, NoLoadUse, Fetch.InstructionAt, Consistent, Control, ExResult, OperandA,
           OperandB, MduResult, CsrPort, Link;
    } else {
      InvalidInput(st, i);
    }
    var t := Step(w.cfg, st, i);
    assert ExOk(Carried(w, st, i), t.ex, t.mem, t.wb, t.regs, pc);
  }

  lemma InvalidInput(st: State, i: Input)
    requires !st.id.valid && st.id.instr == NOP
    ensures !IdExInput(st, i).valid && IdExInput(st, i).ctrl == Control(NOP)
  {
    hide IdRead, Control, Immediate, Rs1, Rs2, Rd;
  }

  lemma InputDecoded(w: Flight, st: State, i: Input, pc: Word)
    requires st.id.valid && PathOk(w, st.id, st.pc, pc)
    ensures var x := IdExInput(st, i);
      && x.valid && x.pc == pc && E.Decoded(x) && E.Fetched(x, Fetch.InstructionAt(w.id, pc))
      && x.rs1Data == Get(NextRegs(st, i), x.rs1) && x.rs2Data == Get(NextRegs(st, i), x.rs2)
      && x.ctrl == Control(st.id.instr)
  {
    var n, we := st.id.instr, WriteEnable(st, i);
    hide WriteEnable, Control, Immediate, Rs1, Rs2, Rd, Fetch.InstructionAt, RegisterFile.Read, RegisterFile.Clock,
         Wrap, Fetch.Length;
    RegisterFile.ReadSeesWrite(st.regs, we, st.wb.rd, st.wb.data, Rs1(n));
    RegisterFile.ReadSeesWrite(st.regs, we, st.wb.rd, st.wb.data, Rs2(n));
  }

  lemma AwakePath(w: Flight, st: State, i: Input, s: M.Arch, v: Csr.Volatile, pc: Word)
    requires Departs(w, st, i, s, v) && Served(w.fetch, st, i) && !FlushIfId(w.cfg, st, i) && !StallId(st) && !st.sleep
    requires PathOk(w, st.id, st.pc, pc)
    ensures exists t {:trigger PathOk(Carried(w, st, i), t.id, t.pc, PcAfterEx(t.ex, pc))} ::
      && t == Step(w.cfg, st, i)
      && PathOk(Carried(w, st, i), t.id, t.pc, PcAfterEx(t.ex, pc))
      && t.id.valid
      && Fetch.Holds(w.fetch, t.pc, t.fb)
  {
    Holds(w, st, s, v);
    ExIsDecoded(w, st, s, v);
    if st.ex.valid { ControlFacts(st.ex.instr); }
    MoveStages(w.cfg, st, i);
    FetchCompletes(st, i);
    assert !Redirecting(st);
    NormalIsSequential(st, i);
    ResponseServed(w, st, i);
    PathAdvances(w, Carried(w, st, i), st, i, pc);
    var t := Step(w.cfg, st, i);
    Fetch.ClockEmpties(w.fetch, st.pc, st.fb, Response(st, i), false, true, t.pc);
    hide Step, Departs, Advance, FlushIfId, StallId, NormalNext, Sequential, Response, Fetch.Outputs, Fetch.Clock,
         Fetch.Holds, Fetch.Empty, IdExInput, Redirecting, Consistent, Benign, E.Decoded, PathOk, PcAfterEx;
    assert PathOk(Carried(w, st, i), t.id, t.pc, PcAfterEx(t.ex, pc));
  }

  /** Fetch appends the next instruction of the straight-line path. */
  lemma PathAdvances(w: Flight, x: Flight, st: State, i: Input, pc: Word)
    requires x.id == w.fetch
    requires PathOk(w, st.id, st.pc, pc) && Served(w.fetch, st, i) && Fetch.Holds(w.fetch, st.pc, st.fb)
    requires FetchOut(st, i).complete
    ensures PathOk(x, IfIdInput(st, i).(pc := st.pc), Sequential(st, i), PcAfterEx(IdExInput(st, i), pc))
  {
    hide Response, Fetch.Outputs, Fetch.InstructionAt, Fetch.Holds, IdRead, Control, Immediate, Rs1, Rs2, Rd, Wrap,
         Fetch.Length, Served, Fetch.Served;
    ResponseServed(w, st, i);
    Fetch.CompleteIsReference(w.fetch, st.pc, st.fb, Response(st, i));
  }

  lemma AsleepPath(w: Flight, st: State, i: Input, s: M.Arch, v: Csr.Volatile, pc: Word)
    requires Departs(w, st, i, s, v) && !FlushIfId(w.cfg, st, i) && !StallId(st) && st.sleep
    requires PathOk(w, st.id, st.pc, pc)
    ensures exists t {:trigger PathOk(Carried(w, st, i), t.id, t.pc, PcAfterEx(t.ex, pc))} ::
      && t == Step(w.cfg, st, i)
      && PathOk(Carried(w, st, i), t.id, t.pc, PcAfterEx(t.ex, pc))
      && !t.id.valid && t.id.instr == NOP && !t.ex.valid && !Requests(t.mem)
      && Fetch.Empty(t.fb) && Fetch.Holds(w.fetch, t.pc, t.fb)
  {
    Holds(w, st, s, v);
    ExIsDecoded(w, st, s, v);
    MoveStages(w.cfg, st, i);
    MemWbMove(w.cfg, st, i);
    var t := Step(w.cfg, st, i);
    assert !FetchOut(st, i).complete && FetchOut(st, i).fetched.instr == NOP && t.fb == st.fb by {
      hide Step, Departs, Advance, FlushIfId, StallId, NormalNext, IdRead, Control, Redirecting;
    }
    hide Step, Departs, Advance, FlushIfId, StallId, NormalNext, Response, FetchOut, Fetch.Clock, NextWb, NextRegs,
         IdRead, Control, Immediate, Redirecting, E.Decoded, Rs1, Rs2, Rd, TrapEnter, ExResult, OperandA, OperandB,
         MduResult, CsrPort, Link, WfiSleep;
    assert PathOk(Carried(w, st, i), t.id, t.pc, PcAfterEx(t.ex, pc));
  }

  /** ID moves into EX and the fetched instruction into ID. */
  lemma MoveKeepsRelation(w: Flight, st: State, i: Input, s: M.Arch, v: Csr.Volatile)
    requires Departs(w, st, i, s, v) && Served(w.fetch, st, i) && !FlushIfId(w.cfg, st, i) && !StallId(st)
    ensures Related(Carried(w, st, i), Step(w.cfg, st, i), AfterMem(w, st, i, s, v), Now(st, i))
  {
    NotFlushing(w.cfg, st, i);
    var t, pc := Step(w.cfg, st, i), NextPath(w, st, i, s, v);
    hide Step, Advance, FlushIfId, NextPath, AfterMem, OlderOk, Related, PathOk, ExOk, Fetch.Holds, Fetch.Empty,
         Redirecting, PcAfterMem, PcAfterEx, Requests, Now, StallId, ExMemInput, TrapEnter, WfiSleep, NextWb,
         NextRegs, Served;
    OlderFollows(w, st, i, s, v);
    FallsThrough(w, st, i, s, v);
    MemWbMove(w.cfg, st, i);
    EntersEx(w, st, i, s, v, pc);
    if st.sleep { AsleepPath(w, st, i, s, v, pc); } else { AwakePath(w, st, i, s, v, pc); }
    Relate(Carried(w, st, i), t, AfterMem(w, st, i, s, v), Now(st, i), pc);
  }
}
