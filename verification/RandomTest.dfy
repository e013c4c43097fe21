/** The random-program test: the pipeline, its ports and a data memory, running a generated program,
    retires exactly the writes the generator predicted, and in time. */
module RandomTest {
  import opened Words
  import opened Decode
  import opened Memory
  import opened Pipeline
  import opened Stages
  import opened Relation
  import opened Stalling
  import opened Advancing
  import opened Departing
  import opened Progress
  import opened Simulation
  import opened Runs
  import opened Coherence
  import opened Generator
  import A = Assembler
  import Fetch
  import Csr
  import E = Execution
  import M = Machine

  /** No interrupt line is raised and no data transfer fails. */
  predicate Calm(i: Input) { !i.dmemError && i.pins == Csr.Pins(false, false, false) }

  lemma CalmIrq(cfg: Config, st: State, i: Input)
    requires Calm(i)
    ensures !IrqTake(cfg, st, i)
  {
    hide Advance, SyncTrap, DataFault, Csr.Enabled;
  }

  /** The sequential machine saw no interrupt and no error, and none waits in the latch. */
  ghost predicate RunsQuiet(cfg: Config, st0: State, inputs: seq<Input>) {
    exists h :: h == Play(cfg, st0, inputs) && !h.st.latch.error && Quiet(EnvsOf(h.choices))
  }

  lemma {:induction false} CalmRun(cfg: Config, st0: State, inputs: seq<Input>)
    requires Reset(cfg, st0) && forall i <- inputs :: Calm(i)
    ensures RunsQuiet(cfg, st0, inputs)
  {
    hide Step, Advance, SyncTrap, DataFault, IrqTake, ResponseData, DmemValid, Now, Requests, Observe, Seen;
    if inputs == [] {
      assert Cleared(st0, cfg.reset);
    } else {
      hide Reset;
      var n := |inputs| - 1;
      CalmRun(cfg, st0, inputs[..n]);
      var h := Play(cfg, st0, inputs[..n]);
      LatchIsNext(cfg, h.st, inputs[n]);
      CalmIrq(cfg, h.st, inputs[n]);
      EnvsAppend(h.choices, Choices(cfg, h.st, inputs[n], h.seen));
    }
    assert Quiet(EnvsOf(Play(cfg, st0, inputs).choices));
  }

  // ---- Shorter runs show prefixes ----------------------------------------------------------

  lemma {:induction false} CommitsGrow(code: M.Code, ids: Csr.Ids, s: Whole, envs: seq<Env>, n: nat)
    requires n <= |envs|
    ensures WholeRun(code, ids, s, envs[..n]).shown.commits <= WholeRun(code, ids, s, envs).shown.commits
    ensures WholeRun(code, ids, s, envs[..n]).shown.traps <= WholeRun(code, ids, s, envs).shown.traps
    decreases |envs|
  {
    hide WholeStep;
    if n == |envs| {
      assert envs[..n] == envs;
    } else {
      var e := |envs| - 1;
      CommitsGrow(code, ids, s, envs[..e], n);
      assert envs[..e][..n] == envs[..n];
    }
  }

  lemma {:induction false} WritesGrow(a: seq<M.Commit>, b: seq<M.Commit>)
    requires a <= b
    ensures WritesOf(a) <= WritesOf(b)
    decreases |b|
  {
    if a != b { WritesGrow(a, b[..|b| - 1]); } else { assert a == b; }
  }

  /** No interrupt, no bus error: n plain steps. */
  function Idles(n: nat): seq<Env> { seq(n, _ => Go(Csr.Volatile(0, 0, Csr.Pins(false, false, false)), false)) }

  // ---- The program on the sequential machine -----------------------------------------------

  /** The test: a generated program in instruction memory and a data area of zeros. */
  ghost predicate Testing(mem: Fetch.Imem, s: Whole, values: seq<Word>, draws: seq<Draw>) {
    && |values| == 12 && (forall d <- draws :: Drawable(d)) && Startable(s)
    && Holding(mem, Generated(values, draws).words)
  }

  /** The number of instructions up to and including the completion marker. */
  function Length(draws: seq<Draw>): nat { 26 + |draws| }

  lemma {:induction false} OneEventEach(code: M.Code, ids: Csr.Ids, s: Whole, envs: seq<Env>)
    ensures var shown := WholeRun(code, ids, s, envs).shown; |shown.commits| + |shown.traps| == |envs|
  {
    if envs != [] {
      OneEventEach(code, ids, s, envs[..|envs| - 1]);
      hide M.Execute, Fetch.InstructionAt, Result, AfterAccess, M.ToTrap, M.InterruptVector, M.DirectVector;
    }
  }

  lemma PrefixIsTame(a: seq<M.Commit>, b: seq<M.Commit>, last: nat)
    requires a <= b && Tame(b, last)
    ensures Tame(a, last)
  {
    forall c | c in a ensures c in b {
      var k :| 0 <= k < |a| && a[k] == c;
      assert b[k] == c;
    }
  }

  /** After any number of steps: no trap, one retirement for each step, all within the program, and a
      prefix of the predicted writes; from the completion marker on, all of them, the predicted memory,
      and the final jump next. */
  lemma ProgramRuns(mem: Fetch.Imem, ids: Csr.Ids, s: Whole, values: seq<Word>, draws: seq<Draw>, envs: seq<Env>)
    requires Testing(mem, s, values, draws) && Quiet(envs)
    ensures var p, run := Generated(values, draws), WholeRun(M.Fixed(mem), ids, s, envs);
      && run.shown.traps == [] && |run.shown.commits| == |envs| && Tame(run.shown.commits, 4 * Length(draws))
      && WritesOf(run.shown.commits) <= p.writes
      && (|envs| >= Length(draws) ==>
            && WritesOf(run.shown.commits) == p.writes && SlotsMatch(run.final.ram, p.memory)
            && run.final.arch.pc == 4 * Length(draws))
  {
    hide Startable, WholeRun, SlotsMatch, WritesOf, Drawable, Body, Holding, Emit, A.Assemble, Tame;
    OneEventEach(M.Fixed(mem), ids, s, envs);
    BodyLengths(values, draws);
    var m := Length(draws);
    var body := if |envs| >= m then envs else envs + Idles(m - |envs|);
    assert body[..|envs|] == envs;
    FinishedRun(mem, ids, s, values, draws, body);
    MarkedLength(values, draws);
    CommitsGrow(M.Fixed(mem), ids, s, body, |envs|);
    var shorter, longer := WholeRun(M.Fixed(mem), ids, s, envs).shown, WholeRun(M.Fixed(mem), ids, s, body).shown;
    WritesGrow(shorter.commits, longer.commits);
    PrefixIsTame(shorter.commits, longer.commits, 4 * m);
  }

  lemma MarkedLength(values: seq<Word>, draws: seq<Draw>)
    requires |values| == 12 && forall d <- draws :: Drawable(d)
    ensures var b := Marked(values, draws);
      |b.words| == Length(draws) && b.writes == Generated(values, draws).writes
      && b.memory == Generated(values, draws).memory
  {
    hide A.Assemble, Body, Drawable;
    BodyLengths(values, draws);
  }

  lemma GoCommits(mem: Fetch.Imem, ids: Csr.Ids, s: Whole, v: Csr.Volatile)
    requires WholeStep(mem, ids, s, Go(v, false)).1.traps == []
    ensures var f := Fetch.InstructionAt(mem, s.arch.pc);
      && !f.fault
      && exists c :: WholeStep(mem, ids, s, Go(v, false)).1.commits == [c] && c.pc == s.arch.pc && c.raw == f.raw
  {
    var f := Fetch.InstructionAt(mem, s.arch.pc);
    FaultsTrap(ids, f, s.arch, v);
    hide M.Execute, Fetch.InstructionAt, Result, AfterAccess, M.ToTrap, M.InterruptVector, M.DirectVector,
         M.MemoryWrite, M.RegisterWrite, Csr.Retire;
    var o := M.Execute(ids, f, s.arch, v);
    if o.Done? {
      var c := M.Commit(s.arch.pc, f.raw, M.RegisterWrite(o.writes, o.rd, Result(s.ram, o)), M.MemoryWrite(o.access));
      assert WholeStep(mem, ids, s, Go(v, false)).1.commits == [c];
    }
  }

  lemma FaultsTrap(ids: Csr.Ids, f: Fetch.Fetched, s: M.Arch, v: Csr.Volatile)
    ensures f.fault ==> M.Execute(ids, f, s, v).Except?
  {
    hide Legal;
  }

  /** The next instruction, however far the run got, is a full-size one of the program and not a WFI. */
  lemma NextIsTame(mem: Fetch.Imem, ids: Csr.Ids, s: Whole, values: seq<Word>, draws: seq<Draw>, envs: seq<Env>)
    requires Testing(mem, s, values, draws) && Quiet(envs)
    ensures var pc := WholeRun(M.Fixed(mem), ids, s, envs).final.arch.pc;
      var f := Fetch.InstructionAt(mem, pc);
      && pc % 4 == 0 && pc <= 4 * Length(draws)
      && !f.fault && f.instr == f.raw && f.raw % 4 == 3 && f.instr != WFI
  {
    hide Testing, WholeRun, SlotsMatch, WritesOf, Generated, WholeStep, Fetch.InstructionAt, Length;
    var v := Csr.Volatile(0, 0, Csr.Pins(false, false, false));
    var run := WholeRun(M.Fixed(mem), ids, s, envs);
    assert Quiet(envs + [Go(v, false)]);
    MoreRuns(mem, ids, s, values, draws, envs + [Go(v, false)]);
    WholeRunExtends(M.Fixed(mem), ids, s, envs, Go(v, false));
    var commits := WholeRun(M.Fixed(mem), ids, s, envs + [Go(v, false)]).shown.commits;
    GoCommits(mem, ids, run.final, v);
    var c :| WholeStep(mem, ids, run.final, Go(v, false)).1.commits == [c] && c.pc == run.final.arch.pc
          && c.raw == Fetch.InstructionAt(mem, run.final.arch.pc).raw;
    assert c == commits[|commits| - 1] && c in commits;
    RawIsInstruction(mem, c.pc);
  }

  lemma MoreRuns(mem: Fetch.Imem, ids: Csr.Ids, s: Whole, values: seq<Word>, draws: seq<Draw>, envs: seq<Env>)
    requires Testing(mem, s, values, draws) && Quiet(envs)
    ensures var shown := WholeRun(M.Fixed(mem), ids, s, envs).shown;
      shown.traps == [] && Tame(shown.commits, 4 * Length(draws))
  {
    hide Testing, WholeRun, SlotsMatch, WritesOf, Generated, Length, Tame, Quiet;
    ProgramRuns(mem, ids, s, values, draws, envs);
  }

  lemma RawIsInstruction(mem: Fetch.Imem, pc: Word)
    ensures var f := Fetch.InstructionAt(mem, pc); !f.fault && f.raw % 4 == 3 ==> f.instr == f.raw
  {
    hide Fetch.Canonical, Align, UpperHalf, Wrap;
  }

  // ---- The pipeline stays awake ------------------------------------------------------------

  lemma CalmMem(st: State, i: Input, v: Csr.Volatile)
    requires Calm(i) && !st.latch.error
    ensures Quiet(EnvsOf(M.AsSeq(MemChoice(st, i, v)))) && !DataFault(st, i)
  {
    hide Advance, ResponseData, DmemValid, Requests;
  }

  /** What the rest of the test takes from the fetch side: the instructions in MEM and EX that the
      reference executes next are the program's. */
  ghost predicate FetchedInTime(w: World, x: Flight, st: State, i: Input, s: M.Arch, v: Csr.Volatile) {
    Advance(st, i) ==>
      && (st.mem.valid ==> Alike(x.mem, w.imem, s.pc))
      && (st.ex.valid ==> Alike(x.ex, w.imem, AfterMem(x, st, i, s, v).pc))
  }

  lemma QuietTogether(a: seq<Env>, b: seq<Env>)
    requires Quiet(a) && Quiet(b)
    ensures Quiet(a + b)
  {
  }

  lemma CalmStaysAwake(w: World, x: Flight, st: State, i: Input, log: Log, v: Csr.Volatile, choices: seq<M.Choice>,
                       ram: Ram, values: seq<Word>, draws: seq<Draw>)
    requires Testing(w.imem, Whole(Start(w.cfg), ram), values, draws) && Quiet(EnvsOf(choices)) && Calm(i)
    requires x.cfg == w.cfg && Explained(M.Fixed(w.imem), x, st, log, v, choices) && !st.latch.error && !st.sleep
    requires Coherent(ram, Observe(w.cfg, st, i, log).transfers)
    requires FetchedInTime(w, x, st, i, M.Run(M.Fixed(w.imem), w.cfg.ids, Start(w.cfg), choices).final, v)
    ensures !Step(w.cfg, st, i).sleep
  {
    hide Related, Testing, M.Run, M.Admissible, M.Transfers, M.Commits, M.Traps, Coherent, Contents, WholeRun, Start,
         Advance, AfterMem, EnvsOf, Outstanding, Pending, Committing, Trapping, Transferring, MemChoice, Calm,
         DataFault, Fetch.InstructionAt, Quiet, E.Agrees, OutcomeAt, E.Decoded, Step, Redirecting, Carried, Benign,
         Control, Response, NextWb, CommitOf, LatchOk;
    if Advance(st, i) {
      if st.ex.valid {
        var s, more := M.Run(M.Fixed(w.imem), w.cfg.ids, Start(w.cfg), choices).final, M.AsSeq(MemChoice(st, i, v));
        CalmMem(st, i, v);
        EnvsAppend(choices, more);
        QuietTogether(EnvsOf(choices), EnvsOf(more));
        MemAppends(M.Fixed(w.imem), x, st, i, v, choices);
        RunAgrees(M.Fixed(w.imem), w.cfg.ids, Start(w.cfg), ram, choices + more);
        NextIsTame(w.imem, w.cfg.ids, Whole(Start(w.cfg), ram), values, draws, EnvsOf(choices + more));
        ExAgrees(x, st, i, s, v);
        ExIsDecoded(x, st, s, v);
        DecodedControl(st.ex);
        WfiDecodes(st.ex.instr);
      }
      StaysAwake(w.cfg, st, i);
    } else {
      Frozen(w.cfg, st, i);
    }
  }

  // ---- The outcome -------------------------------------------------------------------------

  lemma LoopIsFetched(mem: Fetch.Imem, values: seq<Word>, draws: seq<Draw>)
    requires |values| == 12 && (forall d <- draws :: Drawable(d)) && Holding(mem, Generated(values, draws).words)
    ensures A.Assemble(A.Jal, 0, 0, 0, 0).Some? && 4 * Length(draws) < 0x1_0000_0000
    ensures Fetch.InstructionAt(mem, 4 * Length(draws)) == Whole32(A.Assemble(A.Jal, 0, 0, 0, 0).value)
  {
    hide A.Assemble, Fetch.InstructionAt, Body, Drawable, Emit;
    MarkedLength(values, draws);
    LoopWord();
    var words, w := Generated(values, draws).words, A.Assemble(A.Jal, 0, 0, 0, 0).value;
    assert words == Marked(values, draws).words + [w];
    assert mem(4 * Length(draws)) == Fetch.Beat(words[Length(draws)], false);
    WordsAreFull(w);
    FetchesWord(mem, 4 * Length(draws), w);
  }

  /** The final jump uses no data transfer, so once it is next none is under way. */
  lemma JumpTransfersNothing(w: World, x: Flight, st: State, s: M.Arch, v: Csr.Volatile, values: seq<Word>,
                             draws: seq<Draw>)
    requires |values| == 12 && (forall d <- draws :: Drawable(d)) && Holding(w.imem, Generated(values, draws).words)
    requires Related(x, st, s, v) && s.pc == 4 * Length(draws) && (st.mem.valid ==> Alike(x.mem, w.imem, s.pc))
    ensures !st.latch.complete
  {
    hide A.Assemble, Generated, Drawable, Holding, Fetch.InstructionAt, M.Execute, Length, Related, ExOk, PathOk,
         MduOk, CsrOk, SleepOk, Fetch.Holds, Redirecting, Written, MemForward, StoreOperand, PcAfterMem, PcAfterEx,
         M.Following, Requests;
    RelatedCore(x, st, s, v);
    Holds(x, st, s, v);
    LoopIsFetched(w.imem, values, draws);
    LoopOutcome(x.cfg.ids, s, v);
    if st.mem.valid { assert OutcomeAt(x, s, v).Done? && OutcomeAt(x, s, v).access == M.NoAccess; }
    CarriesNoRequest(x, st.mem, st.wb, s, v);
  }

  lemma CarriesNoRequest(w: Flight, m: ExMem, wb: MemWb, s: M.Arch, v: Csr.Volatile)
    requires MemOk(w, m, wb, s, v) && (m.valid ==> OutcomeAt(w, s, v).Done? && OutcomeAt(w, s, v).access == M.NoAccess)
    ensures !Requests(m)
  {
    hide OutcomeAt, MemForward, StoreOperand, Fetch.InstructionAt;
  }

  /** What a run the reference explains has shown, whichever memory it was fetched from. */
  lemma TestOutcome(w: World, x: Flight, st: State, log: Log, v: Csr.Volatile, choices: seq<M.Choice>, ram: Ram,
                    values: seq<Word>, draws: seq<Draw>)
    requires Testing(w.imem, Whole(Start(w.cfg), ram), values, draws) && Quiet(EnvsOf(choices))
    requires x.cfg == w.cfg && Explained(M.Fixed(w.imem), x, st, log, v, choices) && Coherent(ram, log.transfers)
    requires st.mem.valid ==> Alike(x.mem, w.imem, M.Run(M.Fixed(w.imem), w.cfg.ids, Start(w.cfg), choices).final.pc)
    ensures var p := Generated(values, draws);
      && log.traps == [] && WritesOf(log.commits) <= p.writes
      && (|log.commits| >= Length(draws) ==>
            WritesOf(log.commits) == p.writes && SlotsMatch(Contents(ram, log.transfers), p.memory))
  {
    hide Startable, SlotsMatch, WritesOf, Holding, Generated, Drawable, WholeRun, EnvsOf, Start, Quiet, Coherent,
         Contents, M.Run, M.Admissible, M.Commits, M.Traps, M.Transfers, Related, Tame, Length, Outstanding, Alike;
    var ids, s, envs := w.cfg.ids, Whole(Start(w.cfg), ram), EnvsOf(choices);
    var run, m := WholeRun(M.Fixed(w.imem), ids, s, envs), |log.commits|;
    ExplainedWithMemory(M.Fixed(w.imem), x, st, log, v, choices, ram);
    ProgramRuns(w.imem, ids, s, values, draws, envs);
    WritesGrow(log.commits, run.shown.commits);
    if m >= Length(draws) {
      QuietPrefix(envs, m);
      ProgramRuns(w.imem, ids, s, values, draws, envs[..m]);
      CommitsGrow(M.Fixed(w.imem), ids, s, envs, m);
      assert WholeRun(M.Fixed(w.imem), ids, s, envs[..m]).shown.commits == log.commits;
      JumpTransfersNothing(w, x, st, M.Run(M.Fixed(w.imem), ids, Start(w.cfg), choices).final, v, values, draws);
    }
  }

  lemma QuietPrefix(envs: seq<Env>, m: nat)
    requires Quiet(envs) && m <= |envs|
    ensures Quiet(envs[..m])
  {
  }

  // ---- Separate memories -------------------------------------------------------------------

  /** A zeroed data area and the program, from reset. */
  ghost predicate TestSetup(w: World, st0: State, ram: Ram, values: seq<Word>, draws: seq<Draw>) {
    && |values| == 12 && (forall d <- draws :: Drawable(d)) && Reset(w.cfg, st0) && w.cfg.reset == 0
    && SlotsMatch(ram, map[]) && Holding(w.imem, Generated(values, draws).words)
  }

  lemma SetupTests(w: World, st0: State, ram: Ram, values: seq<Word>, draws: seq<Draw>)
    requires TestSetup(w, st0, ram, values, draws)
    ensures Testing(w.imem, Whole(Start(w.cfg), ram), values, draws)
  {
    hide SlotsMatch, Generated, Drawable, Holding, Reset;
  }

  lemma SteadyFetches(w: World, st: State, i: Input, s: M.Arch, v: Csr.Volatile)
    ensures FetchedInTime(w, Steady(w), st, i, s, v) && Alike(Steady(w).mem, w.imem, s.pc)
  {
    hide Advance, AfterMem, Fetch.InstructionAt;
  }

  lemma CoherentPrefix(d: Ram, cfg: Config, st: State, i: Input, log: Log)
    requires Coherent(d, Observe(cfg, st, i, log).transfers)
    ensures Coherent(d, log.transfers)
  {
    hide Coherent, Transferring, Committing, Trapping;
    TransfersExtend(d, log.transfers, Transferring(st, i));
  }

  lemma {:induction false} TestStaysAwake(w: World, st0: State, inputs: seq<Input>, ram: Ram, values: seq<Word>,
                                          draws: seq<Draw>)
    requires TestSetup(w, st0, ram, values, draws) && AllServed(w, st0, inputs) && (forall i <- inputs :: Calm(i))
    requires Coherent(ram, Play(w.cfg, st0, inputs).log.transfers)
    ensures AlwaysAwake(w.cfg, st0, inputs)
  {
    hide TestSetup, Testing, Explained, Observe, Coherent, EnvsOf, Calm, Quiet, Step, FetchedInTime, M.Run,
         M.Admissible, Start, Seen, Choices, Served, Related, Outstanding, Pending, M.Commits, M.Traps, M.Transfers;
    if inputs == [] {
      ResetIsAwake(w, st0, ram, values, draws);
    } else {
      var n := |inputs| - 1;
      var h, i := Play(w.cfg, st0, inputs[..n]), inputs[n];
      CoherentPrefix(ram, w.cfg, h.st, i, h.log);
      TestStaysAwake(w, st0, inputs[..n], ram, values, draws);
      SetupTests(w, st0, ram, values, draws);
      ResetIsAwake(w, st0, ram, values, draws);
      CalmRun(w.cfg, st0, inputs[..n]);
      PipelineRefinesMachine(w, st0, inputs[..n]);
      SteadyFetches(w, h.st, i, M.Run(M.Fixed(w.imem), w.cfg.ids, Start(w.cfg), h.choices).final, h.seen);
      CalmStaysAwake(w, Steady(w), h.st, i, h.log, h.seen, h.choices, ram, values, draws);
    }
  }

  lemma ResetIsAwake(w: World, st0: State, ram: Ram, values: seq<Word>, draws: seq<Draw>)
    requires TestSetup(w, st0, ram, values, draws)
    ensures Reset(w.cfg, st0) && !st0.sleep
  {
    assert Cleared(st0, w.cfg.reset);
    hide SlotsMatch, Generated, Drawable, Holding;
  }

  /** For every generated program, every schedule of ready signals and every data memory that starts with
      zeros in the program's slots: the pipeline takes no trap and what it has retired is a prefix of the
      predicted writes; once the completion marker has retired, it is all of them and memory holds
      exactly the predicted words; and if each port accepts within K cycles the marker retires within
      5(max(2K, 32) + 1) cycles for each instruction. */
  lemma PipelineMeetsPrediction(w: World, K: nat, st0: State, inputs: seq<Input>, ram: Ram, values: seq<Word>,
                                draws: seq<Draw>)
    requires TestSetup(w, st0, ram, values, draws) && AllServed(w, st0, inputs) && (forall i <- inputs :: Calm(i))
    requires Coherent(ram, Play(w.cfg, st0, inputs).log.transfers)
    ensures var p, h := Generated(values, draws), Play(w.cfg, st0, inputs);
      && h.log.traps == [] && WritesOf(h.log.commits) <= p.writes
      && (|h.log.commits| >= Length(draws) ==>
            WritesOf(h.log.commits) == p.writes && SlotsMatch(Contents(ram, h.log.transfers), p.memory))
      && (K > 0 && AllPrompt(K, w.cfg, st0, inputs) && |inputs| >= Length(draws) * (5 * (Bound(K) + 1)) ==>
            |h.log.commits| >= Length(draws))
  {
    hide TestSetup, Testing, Reset, AllServed, Calm, Coherent, Contents, Play, SlotsMatch, Generated, WritesOf, Start,
         EnvsOf, Quiet, Explained, Related, M.Run, M.Admissible, M.Commits, M.Traps, M.Transfers, Pending, Outstanding,
         AllPrompt, AlwaysAwake, Length, Bound, Alike;
    var h := Play(w.cfg, st0, inputs);
    ResetIsAwake(w, st0, ram, values, draws);
    SetupTests(w, st0, ram, values, draws);
    CalmRun(w.cfg, st0, inputs);
    PipelineRefinesMachine(w, st0, inputs);
    var s := M.Run(M.Fixed(w.imem), w.cfg.ids, Start(w.cfg), h.choices).final;
    var none := Input(false, Fetch.Beat(0, false), false, 0, false, Csr.Pins(false, false, false), 0);
    SteadyFetches(w, h.st, none, s, h.seen);
    TestOutcome(w, Steady(w), h.st, h.log, h.seen, h.choices, ram, values, draws);
    TestStaysAwake(w, st0, inputs, ram, values, draws);
    if K > 0 && AllPrompt(K, w.cfg, st0, inputs) && |inputs| >= Length(draws) * (5 * (Bound(K) + 1)) {
      EventsKeepPace(K, w.cfg, st0, inputs);
    }
  }
}
