/** Cycles in which the pipeline does not advance: everything architectural stands still, while
    fetch, data transfer and multiply/divide each make their own progress. */
module Stalling {
  import opened Words
  import opened Decode
  import opened Pipeline
  import opened Relation
  import Fetch
  import Mdu
  import Csr
  import M = Machine

  /** The retirement waiting in WB. */
  function Pending(st: State): seq<M.Commit> {
    if st.wb.valid then [CommitOf(st.wb)] else []
  }

  /** The transfer the instruction in MEM has already completed. */
  function Outstanding(st: State): seq<M.Transfer> {
    if st.latch.complete then [Request(st, st.latch.rdata, st.latch.error)] else []
  }

  lemma NoDecisions(cfg: Config, st: State, i: Input)
    requires !Advance(st, i)
    ensures !SystemRedirect(cfg, st, i) && !TrapEnter(cfg, st, i) && !CsrWrite(cfg, st, i)
    ensures !MretTaken(st, i) && !WfiSleep(cfg, st, i)
  {
    hide Advance, Refused;
  }

  /** The architectural registers hold, so nothing can be written, redirected or retired twice. */
  lemma Frozen(cfg: Config, st: State, i: Input)
    requires !Advance(st, i)
    ensures var t := Step(cfg, st, i);
      && t.pc == st.pc && t.ex == st.ex && t.mem == st.mem && t.wb == st.wb && t.regs == st.regs && t.csr == st.csr
      && t.fb == Fetch.Clock(st.fb, st.pc, Response(st, i), false, false)
      && (t.id == st.id || (Redirecting(st) && !t.id.valid && t.id.instr == NOP))
      && (t.sleep ==> st.sleep)
    ensures Committing(st, i) == None && Trapping(cfg, st, i) == None
  {
    NoDecisions(cfg, st, i);
    hide Advance, SystemRedirect, TrapEnter, CsrWrite, MretTaken, WfiSleep, Redirecting, StallId, IfIdInput,
         IdExInput, ExMemInput, MemWbInput, FetchOut, Response, Fetch.Clock, TrapRecord, CsrPort, OperandA, NextMdu,
         NextLatch, Csr.ClockCycle, NormalNext, RedirectPc;
  }

  /** A transfer accepted during a stall is remembered exactly once. */
  lemma StallTransfers(cfg: Config, st: State, i: Input)
    requires !Advance(st, i) && LatchOk(st.latch, st.mem)
    ensures var t := Step(cfg, st, i);
      && LatchOk(t.latch, st.mem)
      && Outstanding(t) == Outstanding(st) + M.AsSeq(Transferring(st, i))
  {
    hide Advance, Step, BusData, BusStrobes, DmemValid, Redirecting, Requests;
    Frozen(cfg, st, i);
    LatchIsNext(cfg, st, i);
    StallRequests(cfg, st, i);
    LatchStalls(st, i);
  }

  lemma LatchIsNext(cfg: Config, st: State, i: Input)
    ensures Step(cfg, st, i).latch == NextLatch(st, i)
  {
    hide NextPc, NextFetch, NextId, NextEx, NextMem, NextWb, NextRegs, NextMdu, NextSleep, NextLatch, CsrCommand,
         Csr.Clock, Csr.ClockCycle;
  }

  /** The request in MEM does not change in a stall. */
  lemma StallRequests(cfg: Config, st: State, i: Input)
    requires !Advance(st, i)
    ensures var t := Step(cfg, st, i); BusData(t) == BusData(st) && BusStrobes(t) == BusStrobes(st) && t.mem == st.mem
  {
    hide Advance, Step, StoreOperand, Redirecting;
    Frozen(cfg, st, i);
  }

  lemma LatchStalls(st: State, i: Input)
    requires !Advance(st, i) && LatchOk(st.latch, st.mem)
    ensures var l := NextLatch(st, i);
      && LatchOk(l, st.mem)
      && (Accepted(st, i) ==> l == Latch(true, i.dmemError, i.dmemRdata) && !st.latch.complete)
      && (!Accepted(st, i) ==> l == st.latch)
  {
    hide Advance;
  }

  lemma StallMdu(cfg: Config, st: State, i: Input)
    requires !Advance(st, i) && MduOk(st)
    ensures MduOk(Step(cfg, st, i))
  {
    Frozen(cfg, st, i);
    var t := Step(cfg, st, i);
    assert t.mdu == NextMdu(st, i);
    assert OperandA(t) == OperandA(st) && OperandB(t) == OperandB(st) by { hide Step, Advance; }
    var a, b := AluA(st.ex, OperandA(st)), AluB(st.ex, OperandB(st));
    hide Step, OperandA, OperandB, MduActive, BusStall, Mdu.WordOwned, Mdu.WordStall, Mdu.WordClock, Mdu.WordLeft,
         AluA, AluB;
    Mdu.WordClockKeepsOwnership(st.mdu, MduActive(st.ex), Funct3(st.ex.instr), a, b, !BusStall(st, i));
  }

  lemma ResponseServed(w: Flight, st: State, i: Input)
    requires Served(w.fetch, st, i)
    ensures Fetch.Served(w.fetch, st.pc, st.fb, Response(st, i))
  {
  }

  lemma StallFetch(w: Flight, st: State, i: Input)
    requires !Advance(st, i) && Served(w.fetch, st, i) && Fetch.Holds(w.fetch, st.pc, st.fb) && SleepOk(st)
    ensures var t := Step(w.cfg, st, i); Fetch.Holds(w.fetch, st.pc, t.fb) && SleepOk(t)
  {
    Frozen(w.cfg, st, i);
    ResponseServed(w, st, i);
    Fetch.ClockHolds(w.fetch, st.pc, st.fb, Response(st, i), false);
    hide Step, Advance, Fetch.Holds, Fetch.Whole, Redirecting;
  }

  /** A stalled cycle keeps the simulation relation with the same reference state. */
  lemma StallKeepsRelation(w: Flight, st: State, i: Input, s: M.Arch, v: Csr.Volatile)
    requires Related(w, st, s, v) && Served(w.fetch, st, i) && !Advance(st, i)
    ensures Related(w, Step(w.cfg, st, i), s, v)
  {
    assert RelatedAt(w, st, s, v, PcAfterMem(w, st.mem, s, v));
    Frozen(w.cfg, st, i);
    StallTransfers(w.cfg, st, i);
    StallMdu(w.cfg, st, i);
    StallFetch(w, st, i);
    var t := Step(w.cfg, st, i);
    assert Redirecting(t) == Redirecting(st) by { hide Step, Advance; }
    hide Step, Advance, Redirecting, MemOk, CsrOk, ExOk, PathOk, MduOk, LatchOk, SleepOk, Fetch.Holds, PcAfterMem,
         PcAfterEx, Written, OutcomeAt;
  }
}
