/** The random-program test as test_core.py runs it: program and data in the one native memory, on the
    closed bench, with any wait states. */
module SharedTest {
  import opened Words
  import opened Decode
  import opened Memory
  import opened Pipeline
  import opened Relation
  import opened Stalling
  import opened Advancing
  import opened Simulation
  import opened Runs
  import opened Guarantees
  import opened Coherence
  import opened Progress
  import opened Harness
  import opened SharedMemory
  import opened Generator
  import opened Predicted
  import opened RandomTest
  import A = Assembler
  import LoadStore
  import Fetch
  import Csr
  import M = Machine

  // ---- The program stores into its data area only --------------------------------------------

  lemma StoreAbove(ram: Ram, ty: nat, addr: Word, data: Word, a: nat)
    requires BASE <= addr && a < BASE && a < |ram|
    ensures var after := StoreTo(ram, ty, addr, data); |after| == |ram| && after[a] == ram[a]
  {
    if Mapped(ram, addr) && InRange(ram, addr, ty) { FlatAt(ram, ty, addr, data, a); }
    hide FlatStore, Mapped, InRange;
  }

  predicate LowerSame(ram: Ram, after: Ram) {
    |after| == |ram| && forall a: nat :: a < BASE && a < |ram| ==> after[a] == ram[a]
  }

  lemma StepKeepsLower(mem: Fetch.Imem, ids: Csr.Ids, s: Whole, c: Env)
    requires forall k <- WholeStep(mem, ids, s, c).1.commits :: k.mem.Some? ==> BASE <= k.mem.value.addr
    ensures LowerSame(s.ram, WholeStep(mem, ids, s, c).0.ram)
  {
    hide M.Execute, Fetch.InstructionAt, Result, M.ToTrap, M.InterruptVector, M.DirectVector, M.RegisterWrite,
         Csr.Retire, StoreTo, LoadStore.StoreData, LoadStore.ByteEnable;
    if c.Go? {
      var f := Fetch.InstructionAt(mem, s.arch.pc);
      var o := M.Execute(ids, f, s.arch, c.v);
      if o.Done? && !(o.access != M.NoAccess && c.error) && o.access.Store? {
        var commits := WholeStep(mem, ids, s, c).1.commits;
        assert commits[0] in commits && commits[0].mem == M.MemoryWrite(o.access);
        forall a: nat | a < BASE && a < |s.ram|
          ensures var after := StoreTo(s.ram, o.access.ty, o.access.addr, o.access.data);
            |after| == |s.ram| && after[a] == s.ram[a]
        {
          StoreAbove(s.ram, o.access.ty, o.access.addr, o.access.data, a);
        }
        KeepsSize(s.ram, o.access.ty, o.access.addr, o.access.data);
      }
    }
  }

  lemma KeepsSize(ram: Ram, ty: nat, addr: Word, data: Word)
    ensures |StoreTo(ram, ty, addr, data)| == |ram|
  {
    hide Mapped;
  }

  lemma {:induction false} RunKeepsLower(mem: Fetch.Imem, ids: Csr.Ids, s: Whole, envs: seq<Env>, last: nat)
    requires Tame(WholeRun(M.Fixed(mem), ids, s, envs).shown.commits, last)
    ensures LowerSame(s.ram, WholeRun(M.Fixed(mem), ids, s, envs).final.ram)
  {
    hide WholeStep;
    if envs != [] {
      var n := |envs| - 1;
      var before := WholeRun(M.Fixed(mem), ids, s, envs[..n]);
      var commits := WholeRun(M.Fixed(mem), ids, s, envs).shown.commits;
      var shown := WholeStep(mem, ids, before.final, envs[n]).1.commits;
      assert commits == before.shown.commits + shown;
      PrefixIsTame(before.shown.commits, commits, last);
      RunKeepsLower(mem, ids, s, envs[..n], last);
      assert forall k <- shown :: k in commits;
      StepKeepsLower(mem, ids, before.final, envs[n]);
    }
  }

  lemma LowerWords(ram: Ram, after: Ram, pc: Word)
    requires LowerSame(ram, after) && pc % 4 == 0 && pc < BASE
    ensures Align(pc) == pc && Align(Wrap(pc + 2)) == pc && ReadWord(after, pc) == ReadWord(ram, pc)
  {
    assert Align(pc) == pc && Align(Wrap(pc + 2)) == pc;
    hide Align, Wrap;
  }

  /** With at most 229 draws no instruction is ever overwritten. */
  lemma ProgramKeepsCode(cfg: Config, u: Setup, ram: Ram, values: seq<Word>, draws: seq<Draw>, envs: seq<Env>)
    requires Testing(Code(u, ram), Whole(Start(cfg), ram), values, draws) && Quiet(envs) && |draws| <= 229
    ensures CodeKept(cfg, u, ram, envs)
  {
    hide Testing, Quiet, WholeRun, ReadWord, SameWords, Start, Fetch.InstructionAt;
    var mem, code := Code(u, ram), M.Fixed(Code(u, ram));
    forall k: nat, n: nat | k <= n < |envs| && envs[n].Go?
      ensures SameWords(Code(u, After(code, cfg, ram, envs, k).ram), mem, After(code, cfg, ram, envs, n).arch.pc)
    {
      QuietPrefix(envs, k);
      QuietPrefix(envs, n);
      var s := Whole(Start(cfg), ram);
      NextIsTame(mem, cfg.ids, s, values, draws, envs[..n]);
      MoreRuns(mem, cfg.ids, s, values, draws, envs[..k]);
      RunKeepsLower(mem, cfg.ids, s, envs[..k], 4 * Length(draws));
      SameBelow(u, ram, After(code, cfg, ram, envs, k).ram, After(code, cfg, ram, envs, n).arch.pc);
    }
  }

  lemma SameBelow(u: Setup, ram: Ram, now: Ram, pc: Word)
    requires LowerSame(ram, now) && pc % 4 == 0 && pc < BASE
    ensures SameWords(Code(u, now), Code(u, ram), pc)
  {
    LowerWords(ram, now, pc);
    hide LowerSame, Wide, ReadWord, Align, Wrap;
  }

  // ---- One memory for both -------------------------------------------------------------------

  /** A memory image with the program from address 0 and zeros in the data area. */
  predicate Holds(ram: Ram, words: seq<Word>) {
    && 4 * |words| <= |ram| && |words| <= ROOM
    && (forall k: nat :: k < |words| ==> WordAt(ram, 4 * k) == words[k])
    && SlotsMatch(ram, map[])
  }

  lemma DrawnIsFull(b: Program, d: Draw)
    requires Drawable(d)
    ensures var words := Drawn(b, d).words; |words| == |b.words| + 1 && words[|b.words|] % 4 == 3
  {
    hide A.Assemble, Opcode, A.F3, A.F7, RegisterValue, ImmediateValue, Legal, Funct3, Funct7, Rd, Rs1, Rs2, ImmI,
         ImmS, A.KindOf, A.Fits, Lookup;
    match d {
      case Registers(m, rd, rs1, rs2) =>
        RegisterWord(m, rd, rs1, rs2);
        WordsAreFull(A.Assemble(m, rd, rs1, rs2, 0).value);
      case Immediates(m, rd, rs1, imm) =>
        ImmediateWord(m, rd, rs1, imm);
        WordsAreFull(A.Assemble(m, rd, rs1, 0, imm).value);
      case LoadSlot(rd, slot) =>
        SlotWords(rd, 0, slot);
        WordsAreFull(A.Assemble(A.Lw, rd, 31, 0, 4 * slot).value);
      case StoreSlot(rs2, slot) =>
        SlotWords(0, rs2, slot);
        WordsAreFull(A.Assemble(A.Sw, 0, 31, rs2, 4 * slot).value);
    }
  }

  lemma {:induction false} BodyIsFull(values: seq<Word>, draws: seq<Draw>, k: nat)
    requires |values| == 12 && (forall d <- draws :: Drawable(d)) && 25 <= k < 25 + |draws|
    ensures |Body(values, draws).words| == 25 + |draws| && Body(values, draws).words[k] % 4 == 3
  {
    hide Drawn, Drawable, Seeds;
    var n := |draws| - 1;
    BodyLengths(values, draws);
    BodyLengths(values, draws[..n]);
    DrawnIsFull(Body(values, draws[..n]), draws[n]);
    if k < 25 + n { BodyIsFull(values, draws[..n], k); }
  }

  /** Every word after the seeds is a full-size instruction, so it is not zero. */
  lemma ProgramIsFull(values: seq<Word>, draws: seq<Draw>, k: nat)
    requires |values| == 12 && (forall d <- draws :: Drawable(d)) && 25 <= k < 27 + |draws|
    ensures |Generated(values, draws).words| == 27 + |draws| && Generated(values, draws).words[k] % 4 == 3
  {
    hide Body, Drawable, A.Assemble, Opcode, Legal, Funct3, Rd, Rs1, ImmI, ImmJ;
    BodyLengths(values, draws);
    ImmediateWord(A.Addi, 30, 0, 0x55A);
    WordsAreFull(A.Assemble(A.Addi, 30, 0, 0, 0x55A).value);
    LoopWord();
    WordsAreFull(A.Assemble(A.Jal, 0, 0, 0, 0).value);
    if k < 25 + |draws| { BodyIsFull(values, draws, k); }
  }

  /** The image that holds a program and is zero elsewhere. */
  function Laid(words: seq<Word>): Ram {
    seq(0x480, (a: nat) => if a / 4 < |words| then LoadStore.Byte(words[a / 4], a % 4) else 0)
  }

  lemma LaidWord(words: seq<Word>, k: nat)
    requires k < 0x120
    ensures WordAt(Laid(words), 4 * k) == if k < |words| then words[k] else 0
  {
    assert Align(4 * k) == 4 * k;
    if k < |words| { BytesOf(words[k]); }
    hide LoadStore.Byte, Align;
  }

  lemma LaidHolds(words: seq<Word>)
    requires 4 * |words| <= BASE
    ensures Holds(Laid(words), words)
  {
    hide Laid, WordAt;
    LaidSize(words);
    forall k: nat | k < |words| ensures WordAt(Laid(words), 4 * k) == words[k] { LaidWord(words, k); }
    forall slot: nat | slot < SLOTS ensures WordAt(Laid(words), Address(slot)) == Lookup(map[], slot) {
      LaidWord(words, 0x100 + slot);
    }
  }

  lemma LaidSize(words: seq<Word>)
    ensures |Laid(words)| == 0x480
  {
    hide LoadStore.Byte;
  }

  lemma FirstSlotIsZero(ram: Ram, words: seq<Word>)
    requires Holds(ram, words) && |words| > 0x100
    ensures words[0x100] == 0
  {
    assert WordAt(ram, Address(0)) == Lookup(map[], 0);
    assert WordAt(ram, 4 * 0x100) == words[0x100];
    hide WordAt;
  }

  /** One memory can hold a program and its zeroed data area exactly up to 229 draws: beyond that an
      instruction lies where the first data word has to be zero. */
  lemma FitsIffSmall(values: seq<Word>, draws: seq<Draw>)
    requires |values| == 12 && forall d <- draws :: Drawable(d)
    ensures (exists ram: Ram :: Holds(ram, Generated(values, draws).words)) <==> |draws| <= 229
  {
    hide Generated, Drawable, WordAt;
    var words := Generated(values, draws).words;
    CodeAndDataApart(values, draws);
    if |draws| <= 229 {
      LaidHolds(words);
    } else {
      ProgramIsFull(values, draws, 0x100);
      forall ram: Ram ensures !Holds(ram, words) {
        if Holds(ram, words) { FirstSlotIsZero(ram, words); }
      }
    }
  }

  // ---- On the bench --------------------------------------------------------------------------

  predicate NoInterrupts(pins: seq<Pins>) {
    forall p <- pins :: p.irq == Csr.Pins(false, false, false)
  }

  lemma InputIsCalm(u: Setup, b: Bench, p: Pins)
    requires u.dataErrors == {} && p.irq == Csr.Pins(false, false, false)
    ensures Calm(InputOf(u, b, p))
  {
    hide DrivenI, DrivenD, ReadWord;
  }

  /** The test bench before the first cycle. */
  ghost predicate BenchSetup(cfg: Config, u: Setup, core0: State, ram: Ram, values: seq<Word>, draws: seq<Draw>) {
    && |values| == 12 && (forall d <- draws :: Drawable(d)) && Reset(cfg, core0) && cfg.reset == 0
    && Holds(ram, Generated(values, draws).words)
    && u.instructionErrors == {} && u.dataErrors == {}
  }

  lemma SetupTests(cfg: Config, u: Setup, core0: State, ram: Ram, values: seq<Word>, draws: seq<Draw>)
    requires BenchSetup(cfg, u, core0, ram, values, draws)
    ensures Reset(cfg, core0) && !core0.sleep && u.dataErrors == {}
    ensures Testing(Image(cfg, u, ram).imem, Whole(Start(cfg), ram), values, draws)
  {
    hide Generated, Drawable, Reset, SlotsMatch, WordAt;
    ImageHolds(u, ram, Generated(values, draws).words);
    assert !core0.sleep by { ResetAwake(cfg, core0); }
  }

  lemma ResetAwake(cfg: Config, core0: State)
    requires Reset(cfg, core0)
    ensures !core0.sleep
  {
    assert Cleared(core0, cfg.reset);
  }

  lemma ImageHolds(u: Setup, ram: Ram, words: seq<Word>)
    requires Holds(ram, words) && u.instructionErrors == {}
    ensures Holding(Code(u, ram), words)
  {
    hide SlotsMatch, WordAt;
    forall k: nat | k < |words| ensures Code(u, ram)(4 * k) == Fetch.Beat(words[k], false) { }
  }

  /** The world of the loaded image. */
  function Image(cfg: Config, u: Setup, ram: Ram): World { World(Code(u, ram), cfg) }

  function Idle(): M.Choice { M.Proceed(Csr.Volatile(0, 0, Csr.Pins(false, false, false)), 0, false) }

  lemma ProgramSettles(w: World, u: Setup, ram: Ram, choices: seq<M.Choice>, values: seq<Word>, draws: seq<Draw>)
    requires w.imem == Code(u, ram) && Testing(w.imem, Whole(Start(w.cfg), ram), values, draws) && |draws| <= 229
    requires Quiet(EnvsOf(choices))
    ensures Settled(M.Fixed(w.imem), w.cfg, u, ram, EnvsOf(choices))
    ensures Settled(M.Fixed(w.imem), w.cfg, u, ram, EnvsOf(choices + [Idle()]))
  {
    hide Testing, Start, Code, CodeKept, EnvsOf, Quiet, Settled;
    OneMoreQuiet(choices);
    ProgramKeepsCode(w.cfg, u, ram, values, draws, EnvsOf(choices));
    ProgramKeepsCode(w.cfg, u, ram, values, draws, EnvsOf(choices + [Idle()]));
    KeptSettles(w.cfg, u, ram, EnvsOf(choices));
    KeptSettles(w.cfg, u, ram, EnvsOf(choices + [Idle()]));
  }

  lemma InMemAsLoaded(w: World, u: Setup, ram: Ram, x: Flight, st: State, log: Log, v: Csr.Volatile,
                      choices: seq<M.Choice>, values: seq<Word>, draws: seq<Draw>, f: nat, g: nat)
    requires w.imem == Code(u, ram) && Testing(w.imem, Whole(Start(w.cfg), ram), values, draws) && |draws| <= 229
    requires x.cfg == w.cfg && Explained(M.Fixed(w.imem), x, st, log, v, choices) && Coherent(ram, log.transfers)
    requires Quiet(EnvsOf(choices)) && Sourced(M.Fixed(w.imem), u, ram, x, st, choices, log.transfers, f, g)
    ensures Alike(x.mem, w.imem, M.Run(M.Fixed(w.imem), w.cfg.ids, Start(w.cfg), choices).final.pc)
  {
    hide Related, Testing, M.Run, M.Admissible, M.Transfers, M.Commits, M.Traps, Coherent, Start, Code, Alike,
         Settled, Past, Since, EnvsOf, Outstanding, Pending, Quiet, IsFence;
    DropOutstanding(ram, M.Transfers(M.Run(M.Fixed(w.imem), w.cfg.ids, Start(w.cfg), choices).events), st);
    ProgramSettles(w, u, ram, choices, values, draws);
    FetchedIsCurrent(M.Fixed(w.imem), w.cfg, u, ram, choices, Idle(), x.mem, f);
  }

  lemma OneMoreQuiet(choices: seq<M.Choice>)
    requires Quiet(EnvsOf(choices))
    ensures Quiet(EnvsOf(choices + [Idle()]))
  {
    EnvsExtend(choices, Idle());
    hide EnvsOf;
  }

  /** The core never slept, nothing disturbed it, and the reference on the loaded image explains the run. */
  ghost predicate StaysOnCourse(cfg: Config, u: Setup, core0: State, ram: Ram, pins: seq<Pins>) {
    exists j, h :: j == BenchPlay(cfg, u, Loaded(core0, ram), pins) && h == Play(cfg, core0, j.inputs)
      && AlwaysAwake(cfg, core0, j.inputs) && (forall i <- j.inputs :: Calm(i))
      && !h.st.latch.error && Quiet(EnvsOf(h.choices))
      && Tracked(M.Fixed(Image(cfg, u, ram).imem), cfg, u, ram, h)
  }

  lemma {:induction false} BenchRuns(cfg: Config, u: Setup, core0: State, ram: Ram, pins: seq<Pins>,
                                    values: seq<Word>, draws: seq<Draw>)
    requires BenchSetup(cfg, u, core0, ram, values, draws) && |draws| <= 229 && NoInterrupts(pins)
    ensures StaysOnCourse(cfg, u, core0, ram, pins)
  {
    hide Testing, Reset, Loaded, Quiet, Explained, Sourced, M.Run, M.Transfers, EnvsOf, Calm, Code, Step, BenchStep,
         InputOf, Observe, Seen, Choices, Coherent, Start, Contents, Watch, AllPrompt, PortsInStep, BenchSetup, Advance,
         MemChoice, AfterMem, Alike, Settled, DataFault;
    SetupTests(cfg, u, core0, ram, values, draws);
    var w, b0 := Image(cfg, u, ram), Loaded(core0, ram);
    var code := M.Fixed(w.imem);
    var inputs := BenchPlay(cfg, u, b0, pins).inputs;
    if pins != [] {
      var n := |pins| - 1;
      var j := BenchPlay(cfg, u, b0, pins[..n]);
      var h, i := Play(cfg, core0, j.inputs), InputOf(u, j.bench, pins[n]);
      BenchRuns(cfg, u, core0, ram, pins[..n], values, draws);
      var y: Flight, f: nat, g: nat :| y.cfg == cfg && Explained(code, y, h.st, h.log, h.seen, h.choices)
                                    && Sourced(code, u, ram, y, h.st, h.choices, h.log.transfers, f, g);
      assert pins[n] in pins;
      InputIsCalm(u, j.bench, pins[n]);
      AlwaysServing(cfg, u, core0, ram, pins);
      LoadedIs(core0, ram);
      PlayExtends(cfg, core0, j.inputs, i);
      assert inputs == j.inputs + [i] && inputs[..|inputs| - 1] == j.inputs;
      CoherentPrefix(ram, cfg, h.st, i, h.log);
      InMemAsLoaded(w, u, ram, y, h.st, h.log, h.seen, h.choices, values, draws, f, g);
      if Advance(h.st, i) {
        var more := M.AsSeq(MemChoice(h.st, i, h.seen));
        CalmMem(h.st, i, h.seen);
        EnvsAppend(h.choices, more);
        QuietTogether(EnvsOf(h.choices), EnvsOf(more));
        ProgramSettles(w, u, ram, h.choices + more, values, draws);
        ExIsCurrent(code, u, ram, y, h.st, i, h.log, h.seen, h.choices, Idle(), f, g);
      }
      CalmStaysAwake(w, y, h.st, i, h.log, h.seen, h.choices, ram, values, draws);
    }
    CalmRun(cfg, core0, inputs);
    ProgramSettles(w, u, ram, Play(cfg, core0, inputs).choices, values, draws);
    AlwaysTracked(code, cfg, u, core0, ram, pins);
    assert Tracked(code, cfg, u, ram, Play(cfg, core0, inputs)) && AlwaysAwake(cfg, core0, inputs);
  }

  /** The cycles within which the bench finishes: five of the longest stalls for each instruction. */
  function Deadline(u: Setup, draws: seq<Draw>): nat { Length(draws) * (5 * (Bound(Patience(u)) + 1)) }

  /** The random test on the closed bench.  For every generated program of at most 229 draws in one memory
      with its zeroed data area, any wait states and any number of cycles, without bus errors and
      interrupts: the pipeline takes no trap and retires only predicted writes, in order; from the moment
      the completion marker has retired it has retired all of them and memory holds exactly the predicted
      words; and by the deadline the marker has retired. */
  lemma BenchPassesRandomTest(cfg: Config, u: Setup, core0: State, ram: Ram, pins: seq<Pins>, values: seq<Word>,
                              draws: seq<Draw>)
    requires BenchSetup(cfg, u, core0, ram, values, draws) && |draws| <= 229 && NoInterrupts(pins)
    ensures var p, j := Generated(values, draws), BenchPlay(cfg, u, Loaded(core0, ram), pins);
      var h := Play(cfg, core0, j.inputs);
      && h.log.traps == [] && WritesOf(h.log.commits) <= p.writes
      && (|h.log.commits| >= Length(draws) ==>
            WritesOf(h.log.commits) == p.writes && SlotsMatch(j.bench.ram, p.memory))
      && (|pins| >= Deadline(u, draws) ==> |h.log.commits| >= Length(draws))
  {
    hide Testing, Reset, Play, Loaded, Quiet, Explained, Sourced, M.Run, M.Transfers, EnvsOf, Calm, Code, Holds,
         Generated, Drawable, BenchPlay, Coherent, Start, Contents, Watch, AllPrompt, PortsInStep, BenchSetup,
         SlotsMatch, WritesOf, AlwaysAwake, Bound, Patience, Alike, Length;
    var w, j := Image(cfg, u, ram), BenchPlay(cfg, u, Loaded(core0, ram), pins);
    var h := Play(cfg, core0, j.inputs);
    SetupTests(cfg, u, core0, ram, values, draws);
    BenchRuns(cfg, u, core0, ram, pins, values, draws);
    var code := M.Fixed(w.imem);
    var x: Flight, f: nat, g: nat :| x.cfg == cfg && Explained(code, x, h.st, h.log, h.seen, h.choices)
                                  && Sourced(code, u, ram, x, h.st, h.choices, h.log.transfers, f, g);
    AlwaysServing(cfg, u, core0, ram, pins);
    LoadedIs(core0, ram);
    InMemAsLoaded(w, u, ram, x, h.st, h.log, h.seen, h.choices, values, draws, f, g);
    TestOutcome(w, x, h.st, h.log, h.seen, h.choices, ram, values, draws);
    if |pins| >= Deadline(u, draws) {
      PatiencePositive(u);
      EventsKeepPace(Patience(u), cfg, core0, j.inputs);
    }
  }
}
