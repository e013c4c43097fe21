/** Whole runs from reset: for every input sequence, whatever the wait states, bus errors and
    interrupts, what the pipeline commits, traps and transfers is what the reference machine
    commits, traps and transfers. */
module Runs {
  import opened Words
  import opened Decode
  import opened Pipeline
  import opened Relation
  import opened Stalling
  import opened Advancing
  import opened Departing
  import opened Simulation
  import Fetch
  import Csr
  import Mdu
  import RegisterFile
  import M = Machine
  import E = Execution

  /** What an outside observer has seen so far, in order. */
  datatype Log = Log(commits: seq<M.Commit>, traps: seq<M.Trap>, transfers: seq<M.Transfer>)

  const SILENT: Log := Log([], [], [])

  function Observe(cfg: Config, st: State, i: Input, log: Log): Log {
    Log(log.commits + M.AsSeq(Committing(st, i)), log.traps + M.AsSeq(Trapping(cfg, st, i)),
        log.transfers + M.AsSeq(Transferring(st, i)))
  }

  /** A run of the pipeline: its state, what was observed, and the decisions of the environment as
      the reference machine is to see them. */
  datatype History = History(st: State, log: Log, seen: Csr.Volatile, choices: seq<M.Choice>)

  function Play(cfg: Config, st0: State, inputs: seq<Input>): History {
    if inputs == [] then History(st0, SILENT, Csr.Volatile(0, 0, Csr.Pins(false, false, false)), [])
    else
      var n := |inputs| - 1;
      var h, i := Play(cfg, st0, inputs[..n]), inputs[n];
      History(Step(cfg, h.st, i), Observe(cfg, h.st, i, h.log), Seen(h.st, i, h.seen),
              h.choices + Choices(cfg, h.st, i, h.seen))
  }

  /** The instruction port returned the contents of the instruction memory throughout. */
  predicate AllServed(w: World, st0: State, inputs: seq<Input>) {
    if inputs == [] then true
    else
      var n := |inputs| - 1;
      AllServed(w, st0, inputs[..n]) && Served(w.imem, Play(w.cfg, st0, inputs[..n]).st, inputs[n])
  }

  /** The observations against the reference's events: every retirement has been seen but the one
      still in WB, every trap has been seen, and the only transfer seen early is the one that the
      instruction in MEM has completed and not yet retired. */
  predicate Accounts(st: State, log: Log, events: seq<M.Event>) {
    && log.commits + Pending(st) == M.Commits(events)
    && log.traps == M.Traps(events)
    && log.transfers == M.Transfers(events) + Outstanding(st)
  }

  // ---- One cycle's events ------------------------------------------------------------------

  function FaultTraps(cfg: Config, st: State, i: Input): seq<M.Trap> {
    if DataFault(st, i) then [TrapRecord(cfg, st, i)] else []
  }

  lemma NoRequestNoTransfer(st: State, i: Input)
    requires LatchOk(st.latch, st.mem) && !Requests(st.mem)
    ensures Outstanding(st) == [] && Transferring(st, i) == None && !DataFault(st, i)
  {
    hide Advance, ResponseError, Request, Requests;
  }

  lemma EmptyMem(w: Flight, st: State, i: Input, s: M.Arch, v: Csr.Volatile)
    requires Related(w, st, s, v) && Advance(st, i) && !st.mem.valid
    ensures !DataFault(st, i) && !NextWb(st, i).valid
    ensures Outstanding(st) == [] && Transferring(st, i) == None
  {
    RelatedCore(w, st, s, v);
    Holds(w, st, s, v);
    assert !Requests(st.mem) by { hide Related, Requests, CsrOk, PcAfterEx, PcAfterMem, PathOk, MduOk, LatchOk,
                                 SleepOk, Redirecting; }
    NoRequestNoTransfer(st, i);
    hide Related, Advance, DataFault, LatchOk, Requests, MemOk, CsrOk, WritebackData, BusData, BusStrobes, MduOk,
         SleepOk, PathOk;
  }

  /** The reference step of the instruction in MEM produces this cycle's commit record, its bus
      fault if any, and the transfer it made. */
  lemma MemEvent(w: Flight, st: State, i: Input, s: M.Arch, v: Csr.Volatile)
    requires Related(w, st, s, v) && Advance(st, i) && st.mem.valid
    ensures var e := M.Step(w.mem, w.cfg.ids, s, M.Proceed(v, ResponseData(st, i), ResponseError(st, i))).1;
      && M.AsSeq(e.commit) == (if NextWb(st, i).valid then [CommitOf(NextWb(st, i))] else [])
      && M.AsSeq(e.trap) == FaultTraps(w.cfg, st, i)
      && M.AsSeq(e.transfer) == Outstanding(st) + M.AsSeq(Transferring(st, i))
  {
    hide Related, Advance, DataFault, M.Step, NextWb, NextRegs, ResponseData, ResponseError, Outstanding,
         Transferring, TrapRecord, CommitOf, PcAfterMem, Written, Counted, OutcomeAt, M.ToTrap;
    if DataFault(st, i) {
      MemFaults(w, st, i, s, v);
      FaultRegisters(st, i);
    } else {
      MemRetires(w, st, i, s, v);
    }
  }

  /** The EX-stage trap of this cycle, if it has one. */
  lemma ExEvent(w: Flight, st: State, i: Input, s: M.Arch, v: Csr.Volatile)
    requires Related(w, st, s, v) && Advance(st, i)
    ensures match ExChoice(w.cfg, st, i)
      case Some(c) =>
        && M.Possible(AfterMem(w, st, i, s, v), c)
        && M.Step(w.ex, w.cfg.ids, AfterMem(w, st, i, s, v), c).1 == M.Event(None, Trapping(w.cfg, st, i), None)
        && Trapping(w.cfg, st, i).Some? && !DataFault(st, i)
      case None => M.AsSeq(Trapping(w.cfg, st, i)) == FaultTraps(w.cfg, st, i)
  {
    hide Related, Advance, DataFault, SyncTrap, IrqTake, AfterMem, M.Step, TrapRecord, M.ToTrap, TrapVector, Now,
         Csr.IrqPending;
    if DataFault(st, i) {
    } else if SyncTrap(w.cfg, st, i) {
      SyncTrapIsReference(w, st, i, s, v);
    } else if IrqTake(w.cfg, st, i) {
      IrqIsReference(w, st, i, s, v);
    }
  }

  /** What the observer sees in an advancing cycle, split by the instruction it belongs to. */
  lemma AdvanceObserves(w: Flight, st: State, i: Input, s: M.Arch, v: Csr.Volatile)
    requires Related(w, st, s, v) && Advance(st, i)
    ensures M.AsSeq(Committing(st, i)) == Pending(st)
    ensures Step(w.cfg, st, i).wb == NextWb(st, i) && Outstanding(Step(w.cfg, st, i)) == []
  {
    hide Related, Advance, MduOk, LatchOk, SleepOk, Outstanding, NextWb, Step, PathOk, CommitOf, Redirecting,
         Fetch.Holds;
    Holds(w, st, s, v);
    Released(w, st, i);
    WbIsNext(w.cfg, st, i);
  }

  lemma WbIsNext(cfg: Config, st: State, i: Input)
    ensures Step(cfg, st, i).wb == NextWb(st, i)
  {
    hide NextWb, NextPc, NextFetch, NextId, NextEx, NextMem, NextRegs, NextMdu, NextSleep, NextLatch, CsrCommand,
         Csr.Clock, Csr.ClockCycle;
  }

  // ---- One cycle of a run ------------------------------------------------------------------

  /** The reference run so far explains the pipeline's state and everything observed. */
  ghost predicate Explained(code: M.Code, x: Flight, st: State, log: Log, v: Csr.Volatile, choices: seq<M.Choice>) {
    var run := M.Run(code, x.cfg.ids, Start(x.cfg), choices);
    && M.Admissible(code, x.cfg.ids, Start(x.cfg), choices)
    && Related(x, st, run.final, v)
    && Accounts(st, log, run.events)
  }

  /** Two memories hold the same instruction at a PC. */
  predicate Alike(a: Fetch.Imem, b: Fetch.Imem, pc: Word) {
    Fetch.InstructionAt(a, pc) == Fetch.InstructionAt(b, pc)
  }

  /** The instructions this cycle executes, the n-th and perhaps the next one of the reference's run, were
      fetched as the reference's memory has them. */
  ghost predicate OnPath(code: M.Code, n: nat, x: Flight, st: State, i: Input, s: M.Arch, v: Csr.Volatile) {
    Advance(st, i) ==>
      && (st.mem.valid ==> Alike(x.mem, code(n), s.pc))
      && (SyncTrap(x.cfg, st, i) && !DataFault(st, i) ==>
            Alike(x.ex, code(n + |M.AsSeq(MemChoice(st, i, v))|), AfterMem(x, st, i, s, v).pc))
  }

  lemma SteadyIsOnPath(w: World, n: nat, st: State, i: Input, s: M.Arch, v: Csr.Volatile)
    ensures OnPath(M.Fixed(w.imem), n, Steady(w), st, i, s, v) && Carried(Steady(w), st, i) == Steady(w)
  {
    hide Advance, SyncTrap, DataFault, AfterMem, Fetch.InstructionAt, StallId;
  }

  lemma StepReads(a: Fetch.Imem, b: Fetch.Imem, ids: Csr.Ids, s: M.Arch, c: M.Choice)
    requires c.Proceed? ==> Alike(a, b, s.pc)
    ensures M.Step(a, ids, s, c) == M.Step(b, ids, s, c)
  {
    hide Fetch.InstructionAt, M.Execute, M.Retired, M.CommitEvent, M.ToTrap, M.TrapEvent, M.TransferOf;
  }

  lemma MemAppends(code: M.Code, x: Flight, st: State, i: Input, v: Csr.Volatile, choices: seq<M.Choice>)
    requires var s := M.Run(code, x.cfg.ids, Start(x.cfg), choices).final;
      && Related(x, st, s, v) && Advance(st, i) && M.Admissible(code, x.cfg.ids, Start(x.cfg), choices)
      && (st.mem.valid ==> Alike(x.mem, code(|choices|), s.pc))
    ensures var before := M.Run(code, x.cfg.ids, Start(x.cfg), choices);
      var mid := choices + M.AsSeq(MemChoice(st, i, v));
      var after := M.Run(code, x.cfg.ids, Start(x.cfg), mid);
      && M.Admissible(code, x.cfg.ids, Start(x.cfg), mid)
      && after.final == AfterMem(x, st, i, before.final, v)
      && M.Commits(after.events)
           == M.Commits(before.events) + (if NextWb(st, i).valid then [CommitOf(NextWb(st, i))] else [])
      && M.Traps(after.events) == M.Traps(before.events) + FaultTraps(x.cfg, st, i)
      && M.Transfers(after.events) == M.Transfers(before.events) + Outstanding(st) + M.AsSeq(Transferring(st, i))
  {
    hide Related, Advance, DataFault, M.Step, NextWb, Outstanding, Transferring, TrapRecord, CommitOf, M.Run,
         M.Admissible, M.Commits, M.Traps, M.Transfers, Start, ResponseData, ResponseError, Alike;
    var before := M.Run(code, x.cfg.ids, Start(x.cfg), choices);
    match MemChoice(st, i, v) {
      case Some(c) =>
        MemEvent(x, st, i, before.final, v);
        StepReads(x.mem, code(|choices|), x.cfg.ids, before.final, c);
        M.RunExtends(code, x.cfg.ids, Start(x.cfg), choices, c);
        M.ProjectionsExtend(before.events, M.Step(code(|choices|), x.cfg.ids, before.final, c).1);
      case None =>
        EmptyMem(x, st, i, before.final, v);
        assert choices + [] == choices;
    }
  }

  /** One clock edge of any run, whatever was fetched for instructions that are not executed. */
  lemma CycleExplained(code: M.Code, x: Flight, st: State, i: Input, log: Log, v: Csr.Volatile, choices: seq<M.Choice>)
    requires Explained(code, x, st, log, v, choices) && Served(x.fetch, st, i)
    requires OnPath(code, |choices|, x, st, i, M.Run(code, x.cfg.ids, Start(x.cfg), choices).final, v)
    ensures Explained(code, Carried(x, st, i), Step(x.cfg, st, i), Observe(x.cfg, st, i, log), Seen(st, i, v),
                      choices + Choices(x.cfg, st, i, v))
  {
    hide Related, Served, Advance, Step, M.Run, M.Admissible, M.Possible, M.Step, M.Commits, M.Traps, M.Transfers,
         Start, Outstanding, Committing, Trapping, Transferring, MemChoice, AfterMem, CommitOf, Now, StallId, DataFault,
         SyncTrap, IrqTake, NextWb, TrapRecord, ResponseData, ResponseError, Alike, LatchOk, MduOk, SleepOk, PathOk,
         Redirecting, Fetch.Holds, Response;
    var ids, s0 := x.cfg.ids, Start(x.cfg);
    var before := M.Run(code, ids, s0, choices);
    var s, all := before.final, choices + Choices(x.cfg, st, i, v);
    if !Advance(st, i) {
      Holds(x, st, s, v);
      StallKeepsRelation(x, st, i, s, v);
      Frozen(x.cfg, st, i);
      StallTransfers(x.cfg, st, i);
      assert all == choices;
    } else {
      MemAppends(code, x, st, i, v, choices);
      var mid := choices + M.AsSeq(MemChoice(st, i, v));
      assert all == mid + M.AsSeq(ExChoice(x.cfg, st, i));
      ExEvent(x, st, i, s, v);
      match ExChoice(x.cfg, st, i) {
        case Some(c) =>
          var r := M.Run(code, ids, s0, mid);
          StepReads(x.ex, code(|mid|), ids, r.final, c);
          M.RunExtends(code, ids, s0, mid, c);
          M.ProjectionsExtend(r.events, M.Step(code(|mid|), ids, r.final, c).1);
        case None =>
          assert all == mid;
      }
      AdvanceObserves(x, st, i, s, v);
      CycleKeepsRelation(x, st, i, s, v);
    }
  }

  /** Reset with arbitrary payload registers is the reference's start, before anything was observed. */
  lemma ResetExplained(code: M.Code, x: Flight, st: State, v: Csr.Volatile)
    requires Reset(x.cfg, st)
    ensures Explained(code, x, st, SILENT, v, [])
  {
    hide OutcomeAt, Mdu.WordOwned, RegisterFile.ResetView, OperandA, OperandB, MduActive, AluA, AluB;
    assert Cleared(st, x.cfg.reset);
    Mdu.IdleIsOwned(st.mdu, MduActive(st.ex), Funct3(st.ex.instr), AluA(st.ex, OperandA(st)),
                    AluB(st.ex, OperandB(st)));
    assert RelatedAt(x, st, Start(x.cfg), v, PcAfterMem(x, st.mem, Start(x.cfg), v));
  }

  // ---- A memory that changes ---------------------------------------------------------------

  /** What fetch may still read can be replaced at any time; the beats it already has cannot. */
  function Refilled(w: Flight, st: State, now: Fetch.Imem): Flight {
    var next := Fetch.BusAddress(st.fb, st.pc);
    if st.fb.held then w
    else if st.fb.crossPending then w.(fetch := (a: Word) => if a == next then now(a) else w.fetch(a))
    else w.(fetch := now)
  }

  lemma RefillServes(w: Flight, st: State, i: Input, now: Fetch.Imem)
    requires Served(now, st, i)
    ensures Served(Refilled(w, st, now).fetch, st, i)
  {
    hide Fetch.BusAddress;
  }

  lemma RefillHolds(w: Flight, st: State, now: Fetch.Imem)
    requires Fetch.Holds(w.fetch, st.pc, st.fb)
    ensures Fetch.Holds(Refilled(w, st, now).fetch, st.pc, st.fb)
  {
    if !st.fb.held { hide Fetch.Outputs, Fetch.InstructionAt; }
  }

  /** The relation speaks of the memory behind fetch only through what the buffer holds. */
  lemma OnlyFetchDiffers(w: Flight, m: Fetch.Imem, st: State, s: M.Arch, v: Csr.Volatile)
    requires Related(w, st, s, v) && Fetch.Holds(m, st.pc, st.fb)
    ensures Related(w.(fetch := m), st, s, v)
  {
    assert RelatedAt(w, st, s, v, PcAfterMem(w, st.mem, s, v));
    hide Fetch.Holds, MduOk, LatchOk, SleepOk, Written, Redirecting, Carries, M.Execute, Fetch.InstructionAt,
         E.Decoded, E.Fetched, NoLoadUse, Benign, Requests, Counted, Fetch.Agrees, Wrap, Fetch.Length, PcAfterEx;
  }

  lemma RefillKeepsRelation(w: Flight, st: State, now: Fetch.Imem, s: M.Arch, v: Csr.Volatile)
    requires Related(w, st, s, v)
    ensures Related(Refilled(w, st, now), st, s, v)
  {
    hide Related, Fetch.Holds, Fetch.BusAddress;
    Holds(w, st, s, v);
    RefillHolds(w, st, now);
    OnlyFetchDiffers(w, Refilled(w, st, now).fetch, st, s, v);
  }

  /** Some reference state, some memory for each instruction in flight: the relation describes the state. */
  ghost predicate Described(cfg: Config, st: State) {
    exists x: Flight, s: M.Arch, v: Csr.Volatile :: Related(x, st, s, v) && x.cfg == cfg
  }

  /** In every run, whatever the instruction port returns and however what it returns changes, the
      pipeline's state is one the simulation relation describes. */
  lemma {:induction false} AlwaysDescribed(cfg: Config, st0: State, inputs: seq<Input>)
    requires Reset(cfg, st0)
    ensures Described(cfg, Play(cfg, st0, inputs).st)
  {
    hide Reset, Related, Step, Observe, Seen, Choices, AfterEx, AfterMem, Advance, StallId, Served, Fetch.BusAddress;
    if inputs == [] {
      var none: Fetch.Imem := (a: Word) => Fetch.Beat(0, true);
      var x := Flight(none, none, none, none, cfg);
      ResetExplained(M.Fixed(none), x, st0, Csr.Volatile(0, 0, Csr.Pins(false, false, false)));
    } else {
      var n := |inputs| - 1;
      AlwaysDescribed(cfg, st0, inputs[..n]);
      var st, i := Play(cfg, st0, inputs[..n]).st, inputs[n];
      var y, s, v :| Related(y, st, s, v) && y.cfg == cfg;
      var now: Fetch.Imem := (a: Word) => i.beat;
      var z := Refilled(y, st, now);
      RefillKeepsRelation(y, st, now, s, v);
      ConstantServes(st, i);
      RefillServes(y, st, i, now);
      CycleKeepsRelation(z, st, i, s, v);
    }
  }

  lemma ConstantServes(st: State, i: Input)
    ensures Served((a: Word) => i.beat, st, i)
  {
  }

  // ---- The main theorem --------------------------------------------------------------------

  /** From reset, for every instruction memory and every sequence of inputs, the reference machine,
      given the environment's decisions in the order instructions met them, explains the pipeline:
      it commits exactly the reference's commits, in order, with at most the youngest still in WB;
      it takes exactly the reference's traps; and every load and store made exactly one accepted
      transfer with the reference's address, data, strobes and size. */
  lemma {:induction false} PipelineRefinesMachine(w: World, st0: State, inputs: seq<Input>)
    requires Reset(w.cfg, st0) && AllServed(w, st0, inputs)
    ensures var h := Play(w.cfg, st0, inputs);
      var run := M.Run(M.Fixed(w.imem), w.cfg.ids, Start(w.cfg), h.choices);
      && M.Admissible(M.Fixed(w.imem), w.cfg.ids, Start(w.cfg), h.choices)
      && h.log.commits + Pending(h.st) == M.Commits(run.events)
      && h.log.traps == M.Traps(run.events)
      && h.log.transfers == M.Transfers(run.events) + Outstanding(h.st)
      && Related(Steady(w), h.st, run.final, h.seen)
      && Explained(M.Fixed(w.imem), Steady(w), h.st, h.log, h.seen, h.choices)
  {
    hide Reset, Step, Observe, Served, Choices, Seen, Related, M.Run, M.Admissible, Start, Outstanding, Pending,
         M.Commits, M.Traps, M.Transfers;
    if inputs == [] {
      ResetExplained(M.Fixed(w.imem), Steady(w), st0, Play(w.cfg, st0, []).seen);
    } else {
      var n := |inputs| - 1;
      PipelineRefinesMachine(w, st0, inputs[..n]);
      var h := Play(w.cfg, st0, inputs[..n]);
      var s := M.Run(M.Fixed(w.imem), w.cfg.ids, Start(w.cfg), h.choices).final;
      SteadyIsOnPath(w, |h.choices|, h.st, inputs[n], s, h.seen);
      CycleExplained(M.Fixed(w.imem), Steady(w), h.st, inputs[n], h.log, h.seen, h.choices);
    }
  }
}
