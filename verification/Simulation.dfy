/** Whole runs: whatever the wait states, interrupts and bus errors, what the pipeline commits,
    traps and transfers is what the reference machine commits, traps and transfers. */
module Simulation {
  import opened Words
  import opened Pipeline
  import opened Relation
  import opened Stalling
  import opened Advancing
  import opened Departing
  import opened Following
  import Fetch
  import Csr
  import M = Machine
  import E = Execution

  // ---- One cycle ---------------------------------------------------------------------------

  /** The reference step taken by the instruction in EX itself: only an exception or an interrupt. */
  function ExChoice(cfg: Config, st: State, i: Input): Option<M.Choice> {
    if DataFault(st, i) then None
    else if SyncTrap(cfg, st, i) then Some(M.Proceed(Now(st, i), 0, false))
    else if IrqTake(cfg, st, i) then Some(M.Interrupt(i.pins))
    else None
  }

  /** The reference steps one pipeline cycle stands for, in program order. */
  function Choices(cfg: Config, st: State, i: Input, v: Csr.Volatile): seq<M.Choice> {
    if !Advance(st, i) then []
    else M.AsSeq(MemChoice(st, i, v)) + M.AsSeq(ExChoice(cfg, st, i))
  }

  /** What the instruction now in MEM saw of the volatile CSRs when it was in EX. */
  function Seen(st: State, i: Input, v: Csr.Volatile): Csr.Volatile {
    if Advance(st, i) then Now(st, i) else v
  }

  function AfterEx(w: Flight, st: State, i: Input, s: M.Arch): M.Arch {
    match ExChoice(w.cfg, st, i)
    case Some(c) => M.Step(w.ex, w.cfg.ids, s, c).0
    case None => s
  }

  /** An EX-stage exception is the exception of the reference's next instruction. */
  lemma SyncTrapIsReference(w: Flight, st: State, i: Input, s: M.Arch, v: Csr.Volatile)
    requires Related(w, st, s, v) && SyncTrap(w.cfg, st, i) && !DataFault(st, i)
    ensures var r, rec := AfterMem(w, st, i, s, v), TrapRecord(w.cfg, st, i);
      M.Step(w.ex, w.cfg.ids, r, M.Proceed(Now(st, i), 0, false))
        == (M.ToTrap(r, rec.pc, rec.cause, rec.value, TrapVector(w.cfg, st, i)),
            M.TrapEvent(rec.pc, rec.cause, rec.value, None))
  {
    hide Related, Advance, DataFault, OutcomeAt, AfterMem, OperandA, OperandB, CsrPort, MduResult, E.Fetched,
         Fetch.InstructionAt, RefusalCause, Written, Counted, NextWb, NextRegs, Csr.EnterTrap, Align, Now;
    assert Advance(st, i) && st.ex.valid && !IrqTake(w.cfg, st, i);
    ExAgrees(w, st, i, s, v);
    AfterMemIsBetween(w, st, i, s, v);
    CountedKeeps(st.csr, st.wb.valid, i.pins);
    CountedKeeps(Counted(st.csr, st.wb.valid), st.mem.valid, i.pins);
    hide Refused, E.NextOf, E.CsrAfter, E.AccessAgrees;
    assert OutcomeAt(Carried(w, st, i), AfterMem(w, st, i, s, v), Now(st, i)).Except?;
    OutcomeIsExecute(Carried(w, st, i), AfterMem(w, st, i, s, v), Now(st, i));
  }

  lemma OutcomeIsExecute(w: Flight, s: M.Arch, v: Csr.Volatile)
    ensures OutcomeAt(w, s, v) == M.Execute(w.cfg.ids, Fetch.InstructionAt(w.mem, s.pc), s, v)
  {
    hide M.Execute, Fetch.InstructionAt;
  }

  /** An interrupt is taken before the instruction in EX, only when the reference may take it. */
  lemma IrqIsReference(w: Flight, st: State, i: Input, s: M.Arch, v: Csr.Volatile)
    requires Related(w, st, s, v) && IrqTake(w.cfg, st, i)
    ensures var r, rec := AfterMem(w, st, i, s, v), TrapRecord(w.cfg, st, i);
      && M.Possible(r, M.Interrupt(i.pins))
      && M.Step(w.ex, w.cfg.ids, r, M.Interrupt(i.pins))
        == (M.ToTrap(r, rec.pc, rec.cause, rec.value, TrapVector(w.cfg, st, i)),
            M.TrapEvent(rec.pc, rec.cause, rec.value, None))
  {
    hide Related, Advance, DataFault, SyncTrap, OutcomeAt, AfterMem, Written, Counted, NextWb, NextRegs,
         Csr.EnterTrap, Align, Csr.IrqPending, Csr.IrqCause, Fetch.InstructionAt, E.Agrees, E.Fetched, MduResult,
         OperandA, OperandB, CsrPort;
    AfterMemIsBetween(w, st, i, s, v);
    ExAgrees(w, st, i, s, v);
    CountedKeeps(st.csr, st.wb.valid, i.pins);
    CountedKeeps(Counted(st.csr, st.wb.valid), st.mem.valid, i.pins);
  }

  /** A trapping cycle, whichever instruction it belongs to. */
  lemma TrapCycle(w: Flight, st: State, i: Input, s: M.Arch, v: Csr.Volatile)
    requires Related(w, st, s, v) && TrapEnter(w.cfg, st, i)
    ensures Related(Carried(w, st, i), Step(w.cfg, st, i), AfterEx(w, st, i, AfterMem(w, st, i, s, v)), Now(st, i))
  {
    hide Related, Advance, DataFault, SyncTrap, IrqTake, AfterMem, Written, Counted, NextWb, NextRegs, M.Step,
         M.ToTrap, TrapRecord, TrapVector, Now, Step, MduOk, SleepOk, LatchOk, Fetch.Holds, Redirecting, PathOk,
         Csr.IrqPending, M.Possible;
    Holds(w, st, s, v);
    if DataFault(st, i) {
      FaultBase(w, st, i, s, v);
      TrapKeepsRelation(w, st, i, s);
    } else {
      assert Advance(st, i) by { TrapAdvances(w.cfg, st, i); }
      AfterMemIsBetween(w, st, i, s, v);
      if SyncTrap(w.cfg, st, i) { SyncTrapIsReference(w, st, i, s, v); } else { IrqIsReference(w, st, i, s, v); }
      TrapKeepsRelation(w, st, i, AfterMem(w, st, i, s, v));
    }
  }

  lemma TrapAdvances(cfg: Config, st: State, i: Input)
    requires TrapEnter(cfg, st, i)
    ensures Advance(st, i) && (st.ex.valid || DataFault(st, i))
  {
    hide Advance, Illegal, TargetMisaligned, DataMisaligned, CsrPort, OperandA, OperandB, Csr.IrqPending,
         ResponseError, Requests;
  }

  /** On a bus error the faulting instruction changed nothing, so the trap is taken from the state
      before it. */
  lemma FaultBase(w: Flight, st: State, i: Input, s: M.Arch, v: Csr.Volatile)
    requires Related(w, st, s, v) && DataFault(st, i)
    ensures s.x == Written(NextRegs(st, i), NextWb(st, i))
    ensures s.csr == Counted(Counted(st.csr, st.wb.valid), NextWb(st, i).valid)
    ensures var rec := TrapRecord(w.cfg, st, i);
      AfterMem(w, st, i, s, v) == M.ToTrap(s, rec.pc, rec.cause, rec.value, TrapVector(w.cfg, st, i))
  {
    MemFaults(w, st, i, s, v);
    FaultRegisters(st, i);
    CountedKeeps(st.csr, st.wb.valid, i.pins);
    RelatedCore(w, st, s, v);
    hide Related, Advance, OutcomeAt, Written, Counted, NextWb, NextRegs, M.Step, M.ToTrap, TrapRecord,
         Csr.IrqPending, Csr.IrqCause, ResponseData, ResponseError, Requests, SyncTrap, Align, Carries,
         Fetch.InstructionAt;
  }

  lemma RelatedCore(w: Flight, st: State, s: M.Arch, v: Csr.Volatile)
    requires Related(w, st, s, v)
    ensures s.x == Written(st.regs, st.wb) && MemOk(w, st.mem, st.wb, s, v) && CsrOk(w, st.csr, st.mem, st.wb, s, v)
  {
    assert RelatedAt(w, st, s, v, PcAfterMem(w, st.mem, s, v));
    hide MemOk, CsrOk, ExOk, PathOk, MduOk, LatchOk, SleepOk, Fetch.Holds, Written, PcAfterMem, PcAfterEx,
         Redirecting;
  }

  lemma FaultRegisters(st: State, i: Input)
    requires DataFault(st, i)
    ensures !NextWb(st, i).valid && NextRegs(st, i) == Written(st.regs, st.wb)
    ensures Written(NextRegs(st, i), NextWb(st, i)) == Written(st.regs, st.wb)
  {
    hide Advance, WritebackData, BusData, BusStrobes, ResponseError, Requests;
  }

  /** The simulation, one cycle at a time. */
  lemma CycleKeepsRelation(w: Flight, st: State, i: Input, s: M.Arch, v: Csr.Volatile)
    requires Related(w, st, s, v) && Served(w.fetch, st, i)
    ensures Related(Carried(w, st, i), Step(w.cfg, st, i),
                    if Advance(st, i) then AfterEx(w, st, i, AfterMem(w, st, i, s, v)) else s, Seen(st, i, v))
  {
    hide Related, Served, Advance, DataFault, SyncTrap, IrqTake, AfterMem, Step, FlushIfId, StallId, Now, M.Step;
    if !Advance(st, i) {
      StallKeepsRelation(w, st, i, s, v);
    } else if TrapEnter(w.cfg, st, i) {
      TrapCycle(w, st, i, s, v);
    } else if FlushIfId(w.cfg, st, i) {
      RedirectKeepsRelation(w, st, i, s, v);
    } else if StallId(st) {
      WaitKeepsRelation(w, st, i, s, v);
    } else {
      MoveKeepsRelation(w, st, i, s, v);
    }
  }
}
