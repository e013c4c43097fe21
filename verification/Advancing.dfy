/** The cycle in which the pipeline advances, first half: the instruction in MEM leaves, and the
    instruction in EX is found to compute what the reference computes next. */
module Advancing {
  import opened Words
  import opened Decode
  import opened Stages
  import opened Pipeline
  import opened Relation
  import opened Stalling
  import Fetch
  import LoadStore
  import Mdu
  import Csr
  import M = Machine
  import E = Execution

  function Now(st: State, i: Input): Csr.Volatile {
    Csr.Volatile(st.mcycle, i.time, i.pins)
  }

  /** The reference step that the instruction in MEM completes when the pipeline advances. */
  function MemChoice(st: State, i: Input, v: Csr.Volatile): Option<M.Choice> {
    if st.mem.valid then Some(M.Proceed(v, ResponseData(st, i), ResponseError(st, i))) else None
  }

  function AfterMem(w: Flight, st: State, i: Input, s: M.Arch, v: Csr.Volatile): M.Arch {
    match MemChoice(st, i, v)
    case Some(c) => M.Step(w.mem, w.cfg.ids, s, c).0
    case None => s
  }

  // ---- MEM to WB ---------------------------------------------------------------------------

  lemma NoWaiting(st: State, i: Input)
    requires Advance(st, i)
    ensures Requests(st.mem) ==> st.latch.complete || Accepted(st, i)
    ensures !MduStall(st) && !BusStall(st, i)
  {
    hide ImemWait, MduStall;
  }

  /** The value written back is the value the reference loads or computes. */
  lemma WritebackIsLoaded(st: State, i: Input, o: M.Outcome)
    requires o.Done? && Carries(st.mem, st.wb, o) && o.writes
    ensures WritebackData(st, i) == M.Loaded(o, ResponseData(st, i))
  {
    hide LoadStore.LoadData, ResponseData, StoreOperand;
  }

  /** The transfer of the instruction in MEM is the reference's, accepted exactly once: either
      before this cycle, and remembered, or in it. */
  lemma TransferOnce(st: State, i: Input, o: M.Outcome)
    requires Advance(st, i) && LatchOk(st.latch, st.mem) && o.Done? && Carries(st.mem, st.wb, o)
    ensures Outstanding(st) + M.AsSeq(Transferring(st, i))
         == M.AsSeq(M.TransferOf(o.access, ResponseData(st, i), ResponseError(st, i)))
    ensures o.access == M.NoAccess <==> !Requests(st.mem)
  {
    NoWaiting(st, i);
    hide Advance, LoadStore.StoreData, LoadStore.ByteEnable, LoadStore.Size, StoreOperand, MemForward;
  }

  lemma RegistersFollow(st: State, i: Input, s: M.Arch, o: M.Outcome)
    requires Advance(st, i) && !DataFault(st, i) && st.mem.valid
    requires o.Done? && Carries(st.mem, st.wb, o) && s.x == Written(st.regs, st.wb)
    ensures M.Retired(s, o, ResponseData(st, i)).x == Written(NextRegs(st, i), NextWb(st, i))
    ensures NextRegs(st, i) == s.x
  {
    if o.writes { WritebackIsLoaded(st, i, o); }
    hide Advance, DataFault, M.Loaded, WritebackData, ResponseData, MemForward, StoreOperand, BusData, BusStrobes;
  }

  /** What WB will retire is the reference's commit record. */
  lemma CommitFollows(st: State, i: Input, s: M.Arch, f: Fetch.Fetched, o: M.Outcome)
    requires Advance(st, i) && !DataFault(st, i) && st.mem.valid
    requires st.mem.pc == s.pc && st.mem.raw == f.raw && o.Done? && Carries(st.mem, st.wb, o)
    ensures M.CommitEvent(s, f, o, ResponseData(st, i)).commit == Some(CommitOf(NextWb(st, i)))
    ensures NextWb(st, i).valid
  {
    if o.writes { WritebackIsLoaded(st, i, o); }
    hide Advance, DataFault, M.Loaded, WritebackData, ResponseData, MemForward, StoreOperand, LoadStore.StoreData,
         LoadStore.ByteEnable;
  }

  /** MEM retires without a bus error: one reference step, one commit record, one transfer. */
  lemma MemRetires(w: Flight, st: State, i: Input, s: M.Arch, v: Csr.Volatile)
    requires Related(w, st, s, v) && Advance(st, i) && !DataFault(st, i) && st.mem.valid
    ensures var (t, e) := M.Step(w.mem, w.cfg.ids, s, M.Proceed(v, ResponseData(st, i), ResponseError(st, i)));
      && e.commit == Some(CommitOf(NextWb(st, i))) && e.trap == None
      && M.AsSeq(e.transfer) == Outstanding(st) + M.AsSeq(Transferring(st, i))
      && NextWb(st, i).valid
      && t.x == Written(NextRegs(st, i), NextWb(st, i))
      && t.pc == PcAfterMem(w, st.mem, s, v)
      && t.csr == Csr.Retire(Counted(st.csr, st.wb.valid))
  {
    assert RelatedAt(w, st, s, v, PcAfterMem(w, st.mem, s, v));
    var f, o := Fetch.InstructionAt(w.mem, s.pc), OutcomeAt(w, s, v);
    hide M.Execute, Fetch.InstructionAt, ExOk, PathOk, MduOk, SleepOk, Fetch.Holds, Redirecting, Advance, Written,
         Counted, Carries, ResponseData, NextWb, NextRegs, Transferring, Outstanding, LatchOk;
    TransferOnce(st, i, o);
    RegistersFollow(st, i, s, o);
    CommitFollows(st, i, s, f, o);
    hide M.TransferOf, CommitOf, Csr.Retire, M.Loaded, M.RegisterWrite, M.MemoryWrite, ResponseError, Requests;
    assert DataFault(st, i) <==> Requests(st.mem) && ResponseError(st, i);
  }

  /** A bus error in MEM is the reference's access fault on that instruction. */
  lemma MemFaults(w: Flight, st: State, i: Input, s: M.Arch, v: Csr.Volatile)
    requires Related(w, st, s, v) && DataFault(st, i)
    ensures var (t, e) := M.Step(w.mem, w.cfg.ids, s, M.Proceed(v, ResponseData(st, i), ResponseError(st, i)));
      && e.commit == None && e.trap == Some(TrapRecord(w.cfg, st, i))
      && M.AsSeq(e.transfer) == Outstanding(st) + M.AsSeq(Transferring(st, i))
      && s.csr == OutcomeAt(w, s, v).csr
      && t == M.ToTrap(s, e.trap.value.pc, e.trap.value.cause, e.trap.value.value, M.DirectVector(s.csr))
  {
    assert RelatedAt(w, st, s, v, PcAfterMem(w, st.mem, s, v));
    var o := OutcomeAt(w, s, v);
    AccessKeepsCsr(w, s, v);
    TransferOnce(st, i, o);
    hide M.Execute, Fetch.InstructionAt, ExOk, PathOk, MduOk, SleepOk, Fetch.Holds, Redirecting, Advance, Written,
         CsrOk, ResponseData, Transferring, Outstanding, LatchOk, ResponseError, M.TransferOf, StoreOperand;
  }

  /** A load or store has no effect on the CSRs. */
  lemma AccessKeepsCsr(w: Flight, s: M.Arch, v: Csr.Volatile)
    ensures var o := OutcomeAt(w, s, v); o.Done? && o.access != M.NoAccess ==> o.csr == s.csr
  {
    hide Fetch.InstructionAt, Legal, LoadStore.Misaligned, Wrap, M.RegisterOp, M.ImmediateOp, Csr.Read, Csr.Write,
         M.CsrResult, Csr.Return;
  }

  // ---- Between MEM and EX ------------------------------------------------------------------

  /** The reference state the instruction in EX starts from. */
  ghost predicate Between(st: State, i: Input, pc: Word, t: M.Arch) {
    && t.x == Written(NextRegs(st, i), NextWb(st, i))
    && t.pc == pc
    && t.csr == Counted(Counted(st.csr, st.wb.valid), st.mem.valid)
    && NextWb(st, i).valid == st.mem.valid
  }

  lemma AfterMemIsBetween(w: Flight, st: State, i: Input, s: M.Arch, v: Csr.Volatile)
    requires Related(w, st, s, v) && Advance(st, i) && !DataFault(st, i)
    ensures Between(st, i, PcAfterMem(w, st.mem, s, v), AfterMem(w, st, i, s, v))
  {
    if st.mem.valid {
      MemRetires(w, st, i, s, v);
      hide Related, M.Step, Advance, DataFault, NextWb, NextRegs, ResponseData, ResponseError, PcAfterMem, Written;
    } else {
      assert RelatedAt(w, st, s, v, PcAfterMem(w, st.mem, s, v));
      hide M.Execute, Fetch.InstructionAt, ExOk, PathOk, MduOk, SleepOk, Fetch.Holds, Redirecting, Advance, DataFault,
           LatchOk, WritebackData, BusData, BusStrobes;
    }
  }

  // ---- Operands of EX ----------------------------------------------------------------------

  /** Forwarding delivers the youngest older writer's value, unless that writer is a load in MEM;
      and a store's data is current once it is in MEM even then. */
  lemma ForwardingIsFresh(captured: Word, rs: Reg, m: ExMem, wb: MemWb, regs: RegFile, data: Word, m': ExMem,
                          wb': MemWb)
    requires captured == Get(regs, rs)
    requires m.wbSel != WbMem ==> data == MemForward(m)
    requires wb'.valid == m.valid && wb'.regWrite == m.regWrite && wb'.rd == m.rd && wb'.data == data
    requires m'.rs2 == rs && m'.rs2Data == Operand(captured, rs, m, wb)
    ensures var x := Written(Written(regs, wb), wb');
      && StoreOperand(m', wb') == Get(x, rs)
      && (!(m.valid && m.regWrite && m.wbSel == WbMem && m.rd != 0 && m.rd == rs) ==>
            Operand(captured, rs, m, wb) == Get(x, rs))
  {
    hide MemForward;
  }

  /** A register-writing instruction whose result comes from memory is a load. */
  lemma OnlyLoadsReadMemory(m: ExMem, wb: MemWb, o: M.Outcome)
    requires o.Done? && Carries(m, wb, o) && m.regWrite && m.wbSel == WbMem
    ensures m.memRead
  {
  }

  lemma OperandsFresh(w: Flight, st: State, i: Input, s: M.Arch, v: Csr.Volatile)
    requires Related(w, st, s, v) && Advance(st, i) && !DataFault(st, i) && st.ex.valid
    ensures var x := Written(NextRegs(st, i), NextWb(st, i));
      && E.Fresh(st.ex, OperandA(st), OperandB(st), x)
      && StoreOperand(ExMemInput(w.cfg, st, i), NextWb(st, i)) == Get(x, st.ex.rs2)
  {
    assert RelatedAt(w, st, s, v, PcAfterMem(w, st.mem, s, v));
    var wb', data := NextWb(st, i), WritebackData(st, i);
    var m' := ExMemInput(w.cfg, st, i);
    assert NextRegs(st, i) == Written(st.regs, st.wb) by { hide Advance; }
    if st.mem.valid && st.mem.regWrite && st.mem.wbSel == WbMem {
      OnlyLoadsReadMemory(st.mem, st.wb, OutcomeAt(w, s, v));
    }
    hide Advance, DataFault, Redirecting, ExResult, OutcomeAt, MemOk, CsrOk, PathOk, MduOk, SleepOk, Fetch.Holds,
         Written, StoreOperand, Operand, PcAfterMem, NextRegs, LoadValue, Link, BusData, BusStrobes, E.Decoded,
         E.Fetched, LatchOk;
    ForwardingIsFresh(st.ex.rs1Data, st.ex.rs1, st.mem, st.wb, st.regs, data,
                      m'.(rs2 := st.ex.rs1, rs2Data := Operand(st.ex.rs1Data, st.ex.rs1, st.mem, st.wb)), wb');
    ForwardingIsFresh(st.ex.rs2Data, st.ex.rs2, st.mem, st.wb, st.regs, data, m', wb');
  }

  // ---- EX against the reference ------------------------------------------------------------

  lemma MduDelivers(st: State, i: Input)
    requires Advance(st, i) && MduOk(st) && MduActive(st.ex)
    ensures MduResult(st) == Mdu.WordExpected(Funct3(st.ex.instr), AluA(st.ex, OperandA(st)), AluB(st.ex, OperandB(st)))
  {
    NoWaiting(st, i);
    hide Advance, OperandA, OperandB, AluA, AluB, MduActive, Mdu.WordOwned, Mdu.WordStall, Mdu.WordResult,
         Mdu.WordExpected;
    Mdu.WordOwnedResult(st.mdu, Funct3(st.ex.instr), AluA(st.ex, OperandA(st)), AluB(st.ex, OperandB(st)));
  }

  /** In the advancing cycle EX refuses or computes exactly what the reference does from the
      state the older instructions leave. */
  lemma ExAgrees(w: Flight, st: State, i: Input, s: M.Arch, v: Csr.Volatile)
    requires Related(w, st, s, v) && Advance(st, i) && !DataFault(st, i) && st.ex.valid
    ensures var t := AfterMem(w, st, i, s, v);
      && st.ex.pc == t.pc
      && Fetch.InstructionAt(w.ex, t.pc).fault == st.ex.fault
      && E.Fetched(st.ex, Fetch.InstructionAt(w.ex, t.pc))
      && E.Agrees(st.ex, OperandA(st), OperandB(st), MduResult(st), CsrPort(w.cfg, st, i), t,
                  OutcomeAt(Carried(w, st, i), t, Now(st, i)))
  {
    assert RelatedAt(w, st, s, v, PcAfterMem(w, st.mem, s, v));
    AfterMemIsBetween(w, st, i, s, v);
    OperandsFresh(w, st, i, s, v);
    if MduActive(st.ex) { MduDelivers(st, i); }
    var t := AfterMem(w, st, i, s, v);
    hide AfterMem, Advance, DataFault, Redirecting, MemOk, CsrOk, PathOk, MduOk, SleepOk, Fetch.Holds, Written,
         OperandA, OperandB, PcAfterMem, NextRegs, NextWb, StoreOperand, ExMemInput, MduActive, MduResult, AluA, AluB,
         E.Fresh, E.Decoded, E.Agrees, M.Execute, Fetch.InstructionAt, Mdu.WordExpected, NoLoadUse, LatchOk, Csr.Read;
    E.ExecuteAgrees(st.ex, OperandA(st), OperandB(st), MduResult(st), CsrPort(w.cfg, st, i), w.cfg.ids,
                    Fetch.InstructionAt(w.ex, t.pc), t, Now(st, i));
  }
}
