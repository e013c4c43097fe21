/** What the simulation gives in every reachable state: precise traps, counted retirements,
    requests that hold still, ordered CSR access, FENCE.I and sleep. */
module Guarantees {
  import opened Words
  import opened Decode
  import opened Pipeline
  import opened Relation
  import opened Stalling
  import opened Advancing
  import opened Departing
  import opened Simulation
  import opened Runs
  import opened Software
  import Execution
  import Fetch
  import Mdu
  import Csr
  import M = Machine

  lemma PlayExtends(cfg: Config, st0: State, inputs: seq<Input>, i: Input)
    ensures var h := Play(cfg, st0, inputs);
      Play(cfg, st0, inputs + [i])
        == History(Step(cfg, h.st, i), Observe(cfg, h.st, i, h.log), Seen(h.st, i, h.seen),
                   h.choices + Choices(cfg, h.st, i, h.seen))
  {
    hide Step, Observe, Seen, Choices;
    assert (inputs + [i])[..|inputs|] == inputs;
  }

  lemma ServedExtends(w: World, st0: State, inputs: seq<Input>, i: Input)
    ensures AllServed(w, st0, inputs + [i])
        <==> AllServed(w, st0, inputs) && Served(w.imem, Play(w.cfg, st0, inputs).st, i)
  {
    hide Served, Play;
    assert (inputs + [i])[..|inputs|] == inputs;
  }

  // ---- The start ---------------------------------------------------------------------------

  /** Out of reset execution starts at the reset vector, x1, x2, x4 and x5 hold their fixed values and every
      other register zero, and the CSRs are as Software.ResetReads says. */
  lemma StartIsFixed(cfg: Config)
    ensures var s := Start(cfg);
      && s.pc == cfg.reset && s.csr == Csr.RESET
      && s.x[1] == 0x10 && s.x[2] == 0x20 && s.x[4] == 0x40 && s.x[5] == 0x50
      && forall r: Reg :: r !in {1, 2, 4, 5} ==> s.x[r] == 0
  {
  }

  // ---- Precise traps -----------------------------------------------------------------------

  /** The choice that is the trap, and the ones before it. */
  lemma TrapChoiceIsLast(cfg: Config, st: State, i: Input, v: Csr.Volatile)
    requires TrapEnter(cfg, st, i)
    ensures var c := Choices(cfg, st, i, v);
      && |c| > 0
      && (DataFault(st, i) ==> c == [M.Proceed(v, ResponseData(st, i), ResponseError(st, i))])
      && (!DataFault(st, i) ==>
            && ExChoice(cfg, st, i).Some?
            && c == M.AsSeq(MemChoice(st, i, v)) + [ExChoice(cfg, st, i).value])
  {
    TrapAdvances(cfg, st, i);
    hide Advance, Requests, ResponseError, SyncTrap, ResponseData;
  }

  /** The reference run up to but not including the trap of this cycle. */
  function BeforeTrap(cfg: Config, st: State, i: Input, v: Csr.Volatile, choices: seq<M.Choice>): seq<M.Choice> {
    if DataFault(st, i) then choices else choices + M.AsSeq(MemChoice(st, i, v))
  }

  /** Precise traps.  At every trap entry of every run, the trap is the reference's next event; the
      instructions older than the one at its PC, and no others, have committed or are about to; the
      registers and CSRs are the reference's just before it, but for the trap itself; and nothing
      younger is left in any stage, so none will ever write or issue a data request. */
  lemma TrapsArePrecise(w: World, st0: State, inputs: seq<Input>, i: Input)
    requires Reset(w.cfg, st0) && AllServed(w, st0, inputs + [i])
    requires TrapEnter(w.cfg, Play(w.cfg, st0, inputs).st, i)
    ensures var b, h := Play(w.cfg, st0, inputs), Play(w.cfg, st0, inputs + [i]);
      var rec := TrapRecord(w.cfg, b.st, i);
      var older := M.Run(M.Fixed(w.imem), w.cfg.ids, Start(w.cfg), BeforeTrap(w.cfg, b.st, i, b.seen, b.choices));
      var all := M.Run(M.Fixed(w.imem), w.cfg.ids, Start(w.cfg), h.choices);
      && rec.pc == older.final.pc
      && h.log.traps == b.log.traps + [rec]
      && h.log.commits + Pending(h.st) == M.Commits(older.events)
      && |all.events| > 0 && all.events[..|all.events| - 1] == older.events
      && Written(h.st.regs, h.st.wb) == older.final.x
      && Counted(h.st.csr, h.st.wb.valid) == Csr.EnterTrap(older.final.csr, rec.pc, rec.cause, rec.value)
      && Trapped(older.final.csr, Counted(h.st.csr, h.st.wb.valid), rec.pc, rec.cause, rec.value)
      && !h.st.mem.valid && !Requests(h.st.mem) && !h.st.ex.valid && !h.st.id.valid && Fetch.Empty(h.st.fb)
      && h.st.pc == TrapVector(w.cfg, b.st, i)
  {
    hide Reset, Step, Served, Choices, Seen, Related, M.Run, M.Admissible, M.Possible, Start, Outstanding, M.Commits,
         M.Traps, M.Transfers, M.Step, M.DirectVector, TrapVector, Fetch.Empty, Requests, Written, Counted,
         Csr.EnterTrap, Play, AllServed, Committing, Transferring, CommitOf, Advance, NextWb, NextRegs,
         ResponseData, ResponseError, MemChoice, SyncTrap, IrqTake, RefusalCause, CsrPort, Now, OutcomeAt, OperandA,
         OperandB, MduResult, Csr.IrqCause, CsrOk, Carries, Fetch.InstructionAt, AfterMem, Execution.Agrees, Trapped;
    ServedExtends(w, st0, inputs, i);
    PlayExtends(w.cfg, st0, inputs, i);
    PipelineRefinesMachine(w, st0, inputs);
    PipelineRefinesMachine(w, st0, inputs + [i]);
    var b, x := Play(w.cfg, st0, inputs), Steady(w);
    var st, v := b.st, b.seen;
    var s := M.Run(M.Fixed(w.imem), w.cfg.ids, Start(w.cfg), b.choices).final;
    TrapAdvances(w.cfg, st, i);
    TrapChoiceIsLast(w.cfg, st, i, v);
    if DataFault(st, i) {
      FaultBase(x, st, i, s, v);
      MemFaults(x, st, i, s, v);
      RelatedCore(x, st, s, v);
      M.RunExtends(M.Fixed(w.imem), w.cfg.ids, Start(w.cfg), b.choices,
                   M.Proceed(v, ResponseData(st, i), ResponseError(st, i)));
    } else {
      var mid, c := b.choices + M.AsSeq(MemChoice(st, i, v)), ExChoice(w.cfg, st, i).value;
      MemAppends(M.Fixed(w.imem), x, st, i, v, b.choices);
      ExAgrees(x, st, i, s, v);
      if SyncTrap(w.cfg, st, i) { SyncTrapIsReference(x, st, i, s, v); } else { IrqIsReference(x, st, i, s, v); }
      M.RunExtends(M.Fixed(w.imem), w.cfg.ids, Start(w.cfg), mid, c);
      assert b.choices + Choices(w.cfg, st, i, v) == mid + [c];
    }
    var all := M.Run(M.Fixed(w.imem), w.cfg.ids, Start(w.cfg), b.choices + Choices(w.cfg, st, i, v));
    NoCommitInTrap(all.events);
    var older := M.Run(M.Fixed(w.imem), w.cfg.ids, Start(w.cfg), BeforeTrap(w.cfg, st, i, v, b.choices));
    var rec := TrapRecord(w.cfg, st, i);
    TrapIsSeen(older.final.csr, rec.pc, rec.cause, rec.value);
    TrapEmpties(x, st, i, s, v);
    TrappedState(x, Play(w.cfg, st0, inputs + [i]).st, all.final, Play(w.cfg, st0, inputs + [i]).seen);
  }

  lemma NoCommitInTrap(events: seq<M.Event>)
    requires |events| > 0 && events[|events| - 1].commit == None
    ensures M.Commits(events) == M.Commits(events[..|events| - 1])
  {
  }

  lemma TrapEmpties(w: Flight, st: State, i: Input, s: M.Arch, v: Csr.Volatile)
    requires Related(w, st, s, v) && TrapEnter(w.cfg, st, i)
    ensures var t := Step(w.cfg, st, i);
      && !t.mem.valid && !Requests(t.mem) && !t.ex.valid && !t.id.valid && Fetch.Empty(t.fb)
      && t.pc == TrapVector(w.cfg, st, i)
  {
    hide Related, Step, Advance, Fetch.Empty, Requests, Fetch.Holds, TrapVector, TrapEnter, MduOk, LatchOk, SleepOk,
         PathOk, Redirecting, Benign;
    Holds(w, st, s, v);
    TrapMoves(w.cfg, st, i);
    Flushed(w, st, i, 0);
  }

  lemma TrappedState(w: Flight, t: State, s: M.Arch, v: Csr.Volatile)
    requires Related(w, t, s, v) && !t.mem.valid
    ensures s.x == Written(t.regs, t.wb) && s.csr == Counted(t.csr, t.wb.valid)
  {
    hide Related, MemOk, Written, Counted, OutcomeAt;
    RelatedCore(w, t, s, v);
  }

  /** A bus fault in MEM beats everything in EX: the trap is the older instruction's, and the younger
      one's exception, interrupt, return or CSR write has no effect. */
  lemma FaultBeatsEx(cfg: Config, st: State, i: Input)
    requires DataFault(st, i)
    ensures var r := TrapRecord(cfg, st, i);
      && r == M.Trap(st.mem.pc, if st.mem.memRead then M.LOAD_FAULT else M.STORE_FAULT, st.mem.alu)
      && !IrqTake(cfg, st, i) && !MretTaken(st, i) && !CsrWrite(cfg, st, i)
      && Step(cfg, st, i).csr == Csr.EnterTrap(Counted(st.csr, st.wb.valid), r.pc, r.cause, r.value)
  {
    hide Step, DataFault, SyncTrap, Csr.EnterTrap, Csr.Retire, CsrPort, OperandA, CsrOperandOf, Advance;
    assert TrapEnter(cfg, st, i);
    TrapAdvances(cfg, st, i);
    CsrIsNext(cfg, st, i);
  }

  // ---- What the handler finds --------------------------------------------------------------

  lemma TrapClocks(cfg: Config, st: State, i: Input)
    requires TrapEnter(cfg, st, i)
    ensures var rec := TrapRecord(cfg, st, i);
      Step(cfg, st, i).csr == Csr.EnterTrap(Counted(st.csr, st.wb.valid), rec.pc, rec.cause, rec.value)
  {
    hide Step, TrapEnter, TrapRecord, Csr.EnterTrap, Csr.Retire, CsrPort, OperandA, CsrOperandOf, Advance, M.CsrResult;
    TrapAdvances(cfg, st, i);
    CsrIsNext(cfg, st, i);
  }

  lemma ExceptionCauses(cfg: Config, st: State, i: Input)
    requires TrapEnter(cfg, st, i)
    ensures TrapRecord(cfg, st, i).cause < 0x8000_0000 <==> !IrqTake(cfg, st, i)
    ensures TrapRecord(cfg, st, i).cause < 0x8000_0010
    ensures IrqTake(cfg, st, i) ==>
      TrapRecord(cfg, st, i) == M.Trap(st.ex.pc, CauseOf(st.csr.enables, i.pins), 0)
  {
    hide Advance, OperandA, OperandB, CsrPort, Refused, ResponseError;
  }

  /** What the handler finds, at every trap entry of every run: mcause, mtval and mepc are those of the trap
      just taken, MPIE is the MIE before it and MIE is clear, and execution goes on where mtvec says.  An
      interrupt is reported with the first enabled and raised line's number and comes before the
      instruction in EX. */
  lemma TrapIsReported(cfg: Config, st0: State, inputs: seq<Input>, i: Input, v: Csr.Volatile, ids: Csr.Ids)
    requires Reset(cfg, st0)
    ensures var b, h := Play(cfg, st0, inputs), Play(cfg, st0, inputs + [i]);
      TrapEnter(cfg, b.st, i) ==>
      |h.log.traps| == |b.log.traps| + 1 &&
      var rec := h.log.traps[|b.log.traps|];
      && See(h.st.csr, v, ids, 0x342) == rec.cause
      && See(h.st.csr, v, ids, 0x343) == rec.value
      && See(h.st.csr, v, ids, 0x341) == rec.pc - rec.pc % 2
      && See(h.st.csr, v, ids, 0x300) == 0x1800 + 0x80 * ((See(b.st.csr, v, ids, 0x300) / 8) % 2)
      && h.st.pc == Target(See(b.st.csr, v, ids, 0x305), rec.cause)
      && (IrqTake(cfg, b.st, i) ==> rec == M.Trap(b.st.ex.pc, CauseOf(See(b.st.csr, v, ids, 0x304), i.pins), 0))
  {
    hide Reset, Play, Step, TrapEnter, IrqTake, TrapRecord, Csr.EnterTrap, Committing, Transferring, Seen, Choices,
         Related, Counted, Csr.IrqCause, Target, CauseOf, NextWb, NextRegs, Requests, MduOk, PathOk, Redirecting,
         LatchOk, M.InterruptVector, M.DirectVector, Advance, SystemRedirect, See;
    PlayExtends(cfg, st0, inputs, i);
    var st := Play(cfg, st0, inputs).st;
    if !TrapEnter(cfg, st, i) { return; }
    var rec := TrapRecord(cfg, st, i);
    AlwaysDescribed(cfg, st0, inputs);
    var x: Flight, s: M.Arch, w: Csr.Volatile :| Related(x, st, s, w) && x.cfg == cfg;
    Holds(x, st, s, w);
    TrapMoves(cfg, st, i);
    TrapClocks(cfg, st, i);
    ExceptionCauses(cfg, st, i);
    TrapIsSeen(Counted(st.csr, st.wb.valid), rec.pc, rec.cause, rec.value);
    CountedIsSeen(st.csr, st.wb.valid, v, ids);
    VectorsAreSeen(st.csr, v, ids, rec.cause);
  }

  lemma CountedIsSeen(c: Csr.State, valid: bool, v: Csr.Volatile, ids: Csr.Ids)
    ensures See(Counted(c, valid), v, ids, 0x300) == See(c, v, ids, 0x300)
    ensures See(c, v, ids, 0x304) == c.enables
  {
  }

  // ---- Engine ownership --------------------------------------------------------------------

  /** In every reachable state an engine is busy only for the multiply or divide now in EX, with that
      instruction's operands; without one both engines are idle. */
  lemma EnginesAreOwned(cfg: Config, st0: State, inputs: seq<Input>)
    requires Reset(cfg, st0)
    ensures var st := Play(cfg, st0, inputs).st;
      && Mdu.WordOwned(st.mdu, MduActive(st.ex), Funct3(st.ex.instr), AluA(st.ex, OperandA(st)),
                       AluB(st.ex, OperandB(st)))
      && (!MduActive(st.ex) ==> Mdu.BothIdle(st.mdu))
  {
    hide Reset, Play, Related, Fetch.Holds, PathOk, Redirecting, SleepOk, LatchOk, MduActive, AluA, AluB, OperandA,
         OperandB;
    AlwaysDescribed(cfg, st0, inputs);
    var x, s, v :| Related(x, Play(cfg, st0, inputs).st, s, v) && x.cfg == cfg;
    Holds(x, Play(cfg, st0, inputs).st, s, v);
  }

  // ---- Retired-instruction counting --------------------------------------------------------

  /** No instruction wrote the retirement counter or its inhibit bit. */
  predicate CounterUntouched(cfg: Config, st: State, i: Input) {
    CsrWrite(cfg, st, i) ==> CsrField(st.ex.instr) !in {0xB02, 0xB82, 0x320}
  }

  predicate NeverTouched(cfg: Config, st0: State, inputs: seq<Input>) {
    if inputs == [] then true
    else
      var n := |inputs| - 1;
      NeverTouched(cfg, st0, inputs[..n]) && CounterUntouched(cfg, Play(cfg, st0, inputs[..n]).st, inputs[n])
  }

  predicate Counts(c: Csr.State, commits: nat) {
    c.inhibit == 0 && c.minstret == commits % 0x1_0000_0000_0000_0000
  }

  lemma RetirementsCount(c: Csr.State, k: Csr.Command, commits: nat)
    requires Counts(c, commits) && (k.write ==> k.addr !in {0xB02, 0xB82, 0x320})
    ensures Counts(Csr.Clock(c, k), commits + if k.retire then 1 else 0)
  {
    hide Align;
    assert !Csr.Enabled(c.inhibit, 4);
    if k.retire { assert (c.minstret + 1) % 0x1_0000_0000_0000_0000 == (commits + 1) % 0x1_0000_0000_0000_0000; }
    hide Csr.Enabled, Csr.Bit;
  }

  lemma CsrIsNext(cfg: Config, st: State, i: Input)
    ensures Step(cfg, st, i).csr == Csr.Clock(st.csr, CsrCommand(cfg, st, i))
  {
    hide CsrCommand, Csr.Clock, NextPc, NextFetch, NextId, NextEx, NextMem, NextWb, NextRegs, NextMdu, NextSleep,
         NextLatch, Csr.ClockCycle;
  }

  /** minstret counts exactly the commits seen since reset, modulo 2^64. */
  lemma {:induction false} InstretCountsCommits(cfg: Config, st0: State, inputs: seq<Input>)
    requires Reset(cfg, st0) && NeverTouched(cfg, st0, inputs)
    ensures var h := Play(cfg, st0, inputs);
      h.st.csr.inhibit == 0 && h.st.csr.minstret == |h.log.commits| % 0x1_0000_0000_0000_0000
  {
    hide Step, Choices, Seen, CsrWrite, Csr.Clock, Advance, TrapRecord, TrapEnter, MretTaken, CsrPort, OperandA,
         Trapping, Transferring, CommitOf;
    if inputs == [] {
      assert Cleared(st0, cfg.reset);
    } else {
      var n := |inputs| - 1;
      InstretCountsCommits(cfg, st0, inputs[..n]);
      hide Reset;
      var h := Play(cfg, st0, inputs[..n]);
      RetirementsCount(h.st.csr, CsrCommand(cfg, h.st, inputs[n]), |h.log.commits|);
      CsrIsNext(cfg, h.st, inputs[n]);
    }
  }

  // ---- Cycles and pins -----------------------------------------------------------------------

  /** No instruction wrote the cycle counter or its inhibit bit. */
  predicate CyclesUntouched(cfg: Config, st0: State, inputs: seq<Input>) {
    inputs == [] ||
    var n := |inputs| - 1;
    var st := Play(cfg, st0, inputs[..n]).st;
    && CyclesUntouched(cfg, st0, inputs[..n])
    && (CsrWrite(cfg, st, inputs[n]) ==> CsrField(st.ex.instr) !in {0xB00, 0xB80, 0x320})
  }

  lemma ClockCounts(c: Csr.State, k: Csr.Command, mcycle: Dword)
    requires c.inhibit % 2 == 0 && (k.write ==> k.addr !in {0xB00, 0xB80, 0x320})
    ensures Csr.ClockCycle(mcycle, c, k) == (mcycle + 1) % 0x1_0000_0000_0000_0000
    ensures Csr.Clock(c, k).inhibit == c.inhibit
  {
    hide Csr.Enabled, Csr.Bit, Align;
  }

  lemma MCycleIsNext(cfg: Config, st: State, i: Input)
    ensures Step(cfg, st, i).mcycle == Csr.ClockCycle(st.mcycle, st.csr, CsrCommand(cfg, st, i))
  {
    hide CsrCommand, Csr.Clock, NextPc, NextFetch, NextId, NextEx, NextMem, NextWb, NextRegs, NextMdu, NextSleep,
         NextLatch, Csr.ClockCycle;
  }

  /** mcycle is the number of cycles since reset, modulo 2^64. */
  lemma {:induction false} CyclesAreCounted(cfg: Config, st0: State, inputs: seq<Input>)
    requires Reset(cfg, st0) && CyclesUntouched(cfg, st0, inputs)
    ensures var st := Play(cfg, st0, inputs).st;
      st.mcycle == |inputs| % 0x1_0000_0000_0000_0000 && st.csr.inhibit % 2 == 0
  {
    hide Step, Observe, Choices, Seen, CsrWrite, Csr.Clock, Csr.ClockCycle, Advance, TrapRecord, TrapEnter, MretTaken,
         CsrPort, OperandA;
    if inputs == [] {
      assert Cleared(st0, cfg.reset);
    } else {
      hide Reset;
      var n := |inputs| - 1;
      CyclesAreCounted(cfg, st0, inputs[..n]);
      var st := Play(cfg, st0, inputs[..n]).st;
      ClockCounts(st.csr, CsrCommand(cfg, st, inputs[n]), st.mcycle);
      CsrIsNext(cfg, st, inputs[n]);
      MCycleIsNext(cfg, st, inputs[n]);
    }
  }

  /** The cycle counter, the time and the pins of one cycle of the run, in which the pipeline advanced. */
  ghost predicate OfACycle(cfg: Config, st0: State, inputs: seq<Input>, v: Csr.Volatile) {
    exists n: nat :: n < |inputs| && Advance(Play(cfg, st0, inputs[..n]).st, inputs[n])
                  && v == Csr.Volatile(Play(cfg, st0, inputs[..n]).st.mcycle, inputs[n].time, inputs[n].pins)
  }

  /** An interrupt taken in one cycle of the run, for the pins of that cycle. */
  ghost predicate Interrupted(cfg: Config, st0: State, inputs: seq<Input>, p: Csr.Pins) {
    exists n: nat :: n < |inputs| && IrqTake(cfg, Play(cfg, st0, inputs[..n]).st, inputs[n]) && p == inputs[n].pins
  }

  /** All choices of the first k cycles. */
  ghost predicate AllSampled(cfg: Config, st0: State, inputs: seq<Input>, k: nat)
    requires k <= |inputs|
  {
    exists h ::
      && h == Play(cfg, st0, inputs[..k])
      && (h.st.mem.valid ==> OfACycle(cfg, st0, inputs, h.seen))
      && forall c <- h.choices :: match c
           case Proceed(v, _, _) => OfACycle(cfg, st0, inputs, v)
           case Interrupt(p) => Interrupted(cfg, st0, inputs, p)
  }

  /** What the reference run is told of the volatile CSRs is what the pins and the cycle counter were in a
      cycle of this run, and an interrupt it takes was taken for the pins of its cycle. */
  lemma {:induction false} ChoicesAreSampled(cfg: Config, st0: State, inputs: seq<Input>, k: nat)
    requires Reset(cfg, st0) && k <= |inputs|
    ensures AllSampled(cfg, st0, inputs, k)
  {
    hide Step, Observe, Advance, IrqTake, Choices, Seen;
    var all := Play(cfg, st0, inputs[..k]);
    if k == 0 {
      assert Cleared(st0, cfg.reset);
    } else {
      hide Reset;
      ChoicesAreSampled(cfg, st0, inputs, k - 1);
      assert inputs[..k][..k - 1] == inputs[..k - 1];
      var h, i := Play(cfg, st0, inputs[..k - 1]), inputs[k - 1];
      ChoicesOfCycle(cfg, h.st, i, h.seen);
      assert Advance(h.st, i) ==> OfACycle(cfg, st0, inputs, Csr.Volatile(h.st.mcycle, i.time, i.pins));
      assert IrqTake(cfg, h.st, i) ==> Interrupted(cfg, st0, inputs, i.pins);
    }
    assert all.st.mem.valid ==> OfACycle(cfg, st0, inputs, all.seen);
  }

  /** One cycle's choices saw what MEM's instruction saw, or what EX sees now. */
  lemma ChoicesOfCycle(cfg: Config, st: State, i: Input, v: Csr.Volatile)
    ensures forall c <- Choices(cfg, st, i, v) :: match c
              case Proceed(u, _, _) =>
                (u == v && st.mem.valid) || (u == Csr.Volatile(st.mcycle, i.time, i.pins) && Advance(st, i))
              case Interrupt(p) => p == i.pins && IrqTake(cfg, st, i)
    ensures Step(cfg, st, i).mem.valid ==>
      if Advance(st, i) then Seen(st, i, v) == Csr.Volatile(st.mcycle, i.time, i.pins)
      else Seen(st, i, v) == v && st.mem.valid
  {
    hide Step, Advance, IrqTake, SyncTrap, DataFault, ResponseData, ResponseError, Redirecting;
    if !Advance(st, i) { Frozen(cfg, st, i); }
  }

  /** A CSR instruction in EX is alone: every older instruction has left the pipeline, so the count
      it reads is the number of instructions the reference retired before it. */
  lemma CsrReadsAreOrdered(w: World, st0: State, inputs: seq<Input>)
    requires Reset(w.cfg, st0) && AllServed(w, st0, inputs)
    ensures var h := Play(w.cfg, st0, inputs);
      var run := M.Run(M.Fixed(w.imem), w.cfg.ids, Start(w.cfg), h.choices);
      h.st.ex.valid && h.st.ex.ctrl.csrEn ==>
        && !h.st.mem.valid && !h.st.wb.valid
        && h.log.commits == M.Commits(run.events)
        && h.st.csr == run.final.csr && h.st.regs == run.final.x
        && (NeverTouched(w.cfg, st0, inputs) ==>
              h.st.csr.minstret == |M.Commits(run.events)| % 0x1_0000_0000_0000_0000)
  {
    hide Reset, Play, AllServed, NeverTouched, M.Run, Start, M.Admissible, M.Commits, M.Traps, M.Transfers, Related,
         Outstanding;
    PipelineRefinesMachine(w, st0, inputs);
    var h := Play(w.cfg, st0, inputs);
    var s := M.Run(M.Fixed(w.imem), w.cfg.ids, Start(w.cfg), h.choices).final;
    ExIsDecoded(Steady(w), h.st, s, h.seen);
    if !h.st.mem.valid { TrappedState(Steady(w), h.st, s, h.seen); }
    if NeverTouched(w.cfg, st0, inputs) { InstretCountsCommits(w.cfg, st0, inputs); }
  }

  // ---- Requests hold still -----------------------------------------------------------------

  /** A data request that was not accepted is presented again, unchanged in every field, however
      long fetch or the multiply/divide unit is meanwhile stalled or busy. */
  lemma DataRequestIsStable(cfg: Config, st: State, i: Input)
    requires DmemValid(st) && !i.dmemReady
    ensures var t := Step(cfg, st, i);
      DmemValid(t) && forall rdata, error :: Request(t, rdata, error) == Request(st, rdata, error)
  {
    assert !Advance(st, i) by { hide ImemWait, MduStall; }
    Frozen(cfg, st, i);
    assert Step(cfg, st, i).latch == NextLatch(st, i);
    hide Step, Advance, BusData, BusStrobes, Redirecting;
    var t := Step(cfg, st, i);
    assert BusData(t) == BusData(st) && BusStrobes(t) == BusStrobes(st) by { DataFollowsStages(t, st); }
  }

  lemma DataFollowsStages(t: State, st: State)
    requires t.mem == st.mem && t.wb == st.wb
    ensures BusData(t) == BusData(st) && BusStrobes(t) == BusStrobes(st)
  {
    hide StoreOperand;
  }

  /** A fetch request that was not accepted is presented again at the same address. */
  lemma FetchRequestIsStable(cfg: Config, st: State, i: Input)
    requires ImemValid(st) && !i.imemReady
    ensures var t := Step(cfg, st, i);
      ImemValid(t) && Fetch.BusAddress(t.fb, t.pc) == Fetch.BusAddress(st.fb, st.pc)
  {
    assert !Advance(st, i) by { hide MduStall, DmemWait; }
    Frozen(cfg, st, i);
    hide Step, Advance, Redirecting;
  }

  // ---- Sleep and FENCE.I -------------------------------------------------------------------

  /** A sleeping core asks for nothing, whatever it was fed before. */
  lemma SleepIsQuiet(cfg: Config, st0: State, inputs: seq<Input>)
    requires Reset(cfg, st0)
    ensures var st := Play(cfg, st0, inputs).st;
      st.sleep ==> !ImemValid(st) && !DmemValid(st) && !st.ex.valid && !st.id.valid && !st.latch.complete
  {
    hide Reset, Play, Related, Fetch.Holds, MduOk, PathOk, Redirecting;
    AlwaysDescribed(cfg, st0, inputs);
    var x, s, v :| Related(x, Play(cfg, st0, inputs).st, s, v) && x.cfg == cfg;
    Holds(x, Play(cfg, st0, inputs).st, s, v);
  }

  /** When a FENCE.I takes effect every older data transfer has been accepted, the next fetch is the
      instruction after it, and nothing fetched before this edge survives. */
  lemma FenceIOrders(w: Flight, st: State, i: Input, s: M.Arch, v: Csr.Volatile)
    requires Related(w, st, s, v) && FenceITaken(w.cfg, st, i)
    ensures Requests(st.mem) ==> st.latch.complete || Accepted(st, i)
    ensures var t := Step(w.cfg, st, i);
      && !Requests(t.mem) && !t.ex.valid && !t.id.valid && Fetch.Empty(t.fb)
      && t.pc == Link(st.ex) && Outstanding(t) == []
  {
    assert Advance(st, i) && !TrapEnter(w.cfg, st, i) && st.ex.valid && st.ex.ctrl.fenceI;
    assert FlushIfId(w.cfg, st, i);
    NoWaiting(st, i);
    hide Related, Step, Advance, TrapEnter, Fetch.Empty, Fetch.Holds, MduOk, LatchOk, SleepOk, PathOk, Redirecting,
         Benign, NextWb, NextRegs, Outstanding, Accepted, ExResult, OperandA, OperandB, Link, NextPath, MretTaken,
         WfiSleep, Execution.Decoded, Control, Execution.SelectedTarget, StallId;
    Holds(w, st, s, v);
    ExIsDecoded(w, st, s, v);
    DecodedControl(st.ex);
    ControlFacts(st.ex.instr);
    FenceIsNotMret(st.ex.instr);
    MemWbMove(w.cfg, st, i);
    Flushed(w, st, i, 0);
    Released(w, st, i);
    RedirectedPc(w, st, i, s, v);
    SuccessorOfEx(w, st, i, s, v);
  }

  lemma FenceIsNotMret(n: Word)
    ensures Control(n).fenceI ==> !Control(n).mret
  {
    hide Legal, Funct3, Funct7, Opcode, IntegerOp, MultiplyOp;
    var op := Opcode(n);
    if op == OP_LUI { }
    else if op == OP_AUIPC { }
    else if op == OP_JAL { }
    else if op == OP_JALR { }
    else if op == OP_BRANCH { }
    else if op == OP_LOAD { }
    else if op == OP_STORE { }
    else if op == OP_IMM { }
    else if op == OP_REG { }
    else if op == OP_MISC_MEM { }
    else { }
  }
}
