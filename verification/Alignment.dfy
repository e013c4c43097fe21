/** The misaligned-target exception, which the compressed extension leaves without a purpose: it is never
    taken if and only if the reset vector is even. */
module Alignment {
  import opened Words
  import opened Decode
  import opened Pipeline
  import opened Simulation
  import opened Relation
  import opened Stalling
  import opened Progress
  import opened Runs
  import Fetch
  import LoadStore
  import Csr
  import M = Machine

  predicate Even(s: M.Arch) { s.pc % 2 == 0 && s.csr.mepc % 2 == 0 }

  lemma EvenSum(a: Word, b: int)
    requires a % 2 == 0 && b % 2 == 0
    ensures Wrap(a + b) % 2 == 0
  {
  }

  lemma VectorsEven(c: Csr.State, cause: Word)
    ensures M.DirectVector(c) % 2 == 0 && M.InterruptVector(c, cause) % 2 == 0
  {
    hide Align, Wrap;
    AlignEven(c.mtvec);
    VectoredEven(Align(c.mtvec), cause % 0x4000_0000);
  }

  lemma AlignEven(a: Word)
    ensures Align(a) % 2 == 0
  {
    assert a - a % 4 == 2 * (2 * (a / 4));
  }

  lemma VectoredEven(base: Word, t: nat)
    requires base % 2 == 0
    ensures Wrap(base + 4 * t) % 2 == 0
  {
    EvenSum(base, 4 * t);
  }

  lemma WriteKeepsEven(c: Csr.State, addr: nat, w: Word)
    requires c.mepc % 2 == 0
    ensures Csr.Write(c, addr, w).mepc % 2 == 0
  {
    hide Csr.Enabled, Csr.Bit, Align, Csr.WithLow, Csr.WithHigh;
  }

  /** An instruction at an even PC names an even successor and is never refused for its target. */
  lemma ExecuteStaysEven(ids: Csr.Ids, f: Fetch.Fetched, s: M.Arch, v: Csr.Volatile)
    requires Even(s)
    ensures var o := M.Execute(ids, f, s, v);
      && (o.Done? ==> o.next % 2 == 0 && o.csr.mepc % 2 == 0)
      && (o.Except? ==> o.cause != 0)
  {
    hide Legal, Opcode, Funct3, Rs1, Rs2, Rd, Csr.Read, Csr.Write, M.CsrResult, M.RegisterOp, M.ImmediateOp, Wrap,
         ImmI, ImmS, ImmB, ImmJ, ImmU, M.CsrWrites, LoadStore.Misaligned, CsrField, M.CsrOperand, M.CsrOpOf,
         Fetch.Length, M.ExecuteCsr;
    OffsetsEven(f.instr);
    EvenSum(s.pc, ImmB(f.instr));
    EvenSum(s.pc, ImmJ(f.instr));
    FollowingEven(f, s.pc);
    CsrStaysEven(ids, f, s, v);
    hide M.Following;
  }

  lemma FollowingEven(f: Fetch.Fetched, pc: Word)
    requires pc % 2 == 0
    ensures M.Following(f, pc) % 2 == 0
  {
    EvenSum(pc, Fetch.Length(f.compressed));
  }

  lemma CsrStaysEven(ids: Csr.Ids, f: Fetch.Fetched, s: M.Arch, v: Csr.Volatile)
    requires Even(s)
    ensures var o := M.ExecuteCsr(ids, f, s, v);
      && (o.Done? ==> o.next % 2 == 0 && o.csr.mepc % 2 == 0)
      && (o.Except? ==> o.cause != 0)
  {
    hide Csr.Read, Csr.Write, M.CsrResult, M.Following, M.CsrWrites, CsrField, M.CsrOperand, M.CsrOpOf, Rd, Rs1;
    FollowingEven(f, s.pc);
    var i := f.instr;
    WriteKeepsEven(s.csr, CsrField(i), M.CsrResult(M.CsrOpOf(i), Csr.Read(s.csr, v, ids, CsrField(i)).data,
                                                   M.CsrOperand(i, Get(s.x, Rs1(i)))));
  }

  lemma StepStaysEven(mem: Fetch.Imem, ids: Csr.Ids, s: M.Arch, c: M.Choice)
    requires Even(s) && M.Possible(s, c)
    ensures var (t, e) := M.Step(mem, ids, s, c);
      && Even(t)
      && (e.commit.Some? ==> e.commit.value.pc % 2 == 0)
      && (e.trap.Some? ==> e.trap.value.pc % 2 == 0 && e.trap.value.cause != 0)
  {
    hide M.Execute, Fetch.InstructionAt, M.DirectVector, M.InterruptVector, M.RegisterWrite, M.MemoryWrite,
         M.TransferOf, M.Loaded, Csr.WakePending;
    VectorsEven(s.csr, 0);
    if c.Proceed? {
      ExecuteStaysEven(ids, Fetch.InstructionAt(mem, s.pc), s, c.v);
    } else {
      VectorsEven(s.csr, Csr.IrqCause(s.csr, c.pins));
      PendingHasCause(s.csr, c.pins);
    }
  }

  lemma PendingHasCause(c: Csr.State, p: Csr.Pins)
    requires Csr.IrqPending(c, p)
    ensures Csr.IrqCause(c, p) >= 0x8000_0000
  {
    hide Csr.Enabled;
  }

  predicate AllEven(commits: seq<M.Commit>, traps: seq<M.Trap>) {
    && (forall c <- commits :: c.pc % 2 == 0)
    && (forall t <- traps :: t.pc % 2 == 0 && t.cause != 0)
  }

  lemma {:induction false} RunStaysEven(mem: Fetch.Imem, ids: Csr.Ids, s0: M.Arch, cs: seq<M.Choice>)
    requires Even(s0) && M.Admissible(M.Fixed(mem), ids, s0, cs)
    ensures var run := M.Run(M.Fixed(mem), ids, s0, cs);
      Even(run.final) && AllEven(M.Commits(run.events), M.Traps(run.events))
  {
    hide M.Step, M.Possible, Even, M.Commits, M.Traps, M.Transfers;
    if cs == [] {
      NoEvents();
    } else {
      var n := |cs| - 1;
      RunStaysEven(mem, ids, s0, cs[..n]);
      var before := M.Run(M.Fixed(mem), ids, s0, cs[..n]);
      StepStaysEven(mem, ids, before.final, cs[n]);
      M.ProjectionsExtend(before.events, M.Step(mem, ids, before.final, cs[n]).1);
    }
  }

  lemma NoEvents()
    ensures AllEven(M.Commits([]), M.Traps([]))
  {
  }

  /** With an even reset vector no commit and no trap of any run is at an odd PC, and no trap is an
      instruction-address-misaligned exception. */
  lemma PipelineStaysEven(w: World, st0: State, inputs: seq<Input>)
    requires Reset(w.cfg, st0) && AllServed(w, st0, inputs) && w.cfg.reset % 2 == 0
    ensures var h := Play(w.cfg, st0, inputs); AllEven(h.log.commits, h.log.traps)
  {
    hide Reset, AllServed, Play, M.Run, M.Admissible, M.Commits, M.Traps, M.Transfers, Pending, Explained, Related,
         Outstanding;
    PipelineRefinesMachine(w, st0, inputs);
    var h := Play(w.cfg, st0, inputs);
    RunStaysEven(w.imem, w.cfg.ids, Start(w.cfg), h.choices);
    var run := M.Run(M.Fixed(w.imem), w.cfg.ids, Start(w.cfg), h.choices);
    assert forall c <- h.log.commits :: c in h.log.commits + Pending(h.st);
  }

  // ---- Odd reset vectors -------------------------------------------------------------------

  /** At an odd PC a JAL is refused for its target. */
  lemma OddJumpMisaligns(mem: Fetch.Imem, ids: Csr.Ids, s: M.Arch, c: M.Choice)
    requires s.pc % 2 == 1 && c.Proceed?
    requires var f := Fetch.InstructionAt(mem, s.pc); !f.fault && Legal(f.instr) && Opcode(f.instr) == OP_JAL
    ensures var e := M.Step(mem, ids, s, c).1;
      e.trap.Some? && e.trap.value.cause == 0 && e.trap.value.pc == s.pc && e.commit == None
  {
    hide Fetch.InstructionAt, Legal, Opcode, M.Execute, ImmJ, Csr.EnterTrap, M.DirectVector, Wrap, M.Branch,
         M.ExecuteLoad, M.ExecuteStore, M.ImmediateOp, M.RegisterOp, ImmU, ImmI, Rs1, Rs2, Rd, M.Following;
    var f := Fetch.InstructionAt(mem, s.pc);
    OffsetsEven(f.instr);
    OddSum(s.pc, ImmJ(f.instr));
    M.PlainExecutes(ids, f, s, c.v);
  }

  lemma OddSum(a: Word, b: Word)
    requires a % 2 == 1 && b % 2 == 0
    ensures Wrap(a + b) % 2 == 1
  {
  }

  /** A memory of jumps: at every address, and at every halfword, the word is a JAL. */
  const JUMPS: Word := 0x006F_006F

  function Jumps(cfg: Config): World { World((a: Word) => Fetch.Beat(JUMPS, false), cfg) }

  lemma JumpEverywhere(cfg: Config, pc: Word)
    ensures Fetch.InstructionAt(Jumps(cfg).imem, pc) == Fetch.Fetched(false, JUMPS, JUMPS, false)
  {
    hide Fetch.Canonical, Align, UpperHalf, Wrap;
    assert Fetch.Parcel(Jumps(cfg).imem, pc) == Some(0x006F);
    assert Fetch.Parcel(Jumps(cfg).imem, Wrap(pc + 2)) == Some(0x006F);
  }

  lemma JumpIsLegal()
    ensures Legal(JUMPS) && Opcode(JUMPS) == OP_JAL
  {
    assert Opcode(JUMPS) == OP_JAL;
  }

  /** Both ports answer at once, with a jump and with zero, and nothing else happens. */
  function Prompted(n: nat): seq<Input> {
    seq(n, _ => Input(true, Fetch.Beat(JUMPS, false), true, 0, false, Csr.Pins(false, false, false), 0))
  }

  lemma PromptedGrows(n: nat)
    requires n > 0
    ensures Prompted(n)[..n - 1] == Prompted(n - 1)
  {
  }

  /** The ports served every cycle at once, and the core never slept. */
  ghost predicate KeepsJumping(cfg: Config, st0: State, n: nat) {
    exists inputs :: inputs == Prompted(n) && AllServed(Jumps(cfg), st0, inputs) && AllPrompt(1, cfg, st0, inputs)
                  && AlwaysAwake(cfg, st0, inputs)
  }

  lemma JumpIsNotWfi(w: Flight, cfg: Config, st: State, s: M.Arch, v: Csr.Volatile)
    requires w == Steady(Jumps(cfg)) && Related(w, st, s, v) && st.ex.valid
    ensures !st.ex.ctrl.wfi
  {
    assert RelatedAt(w, st, s, v, PcAfterMem(w, st.mem, s, v));
    JumpEverywhere(cfg, PcAfterMem(w, st.mem, s, v));
    JumpControl();
    hide MemOk, CsrOk, PathOk, MduOk, LatchOk, SleepOk, Fetch.Holds, Fetch.InstructionAt, PcAfterMem, NoLoadUse,
         Control, Immediate, Rs1, Rs2, Rd, Redirecting, Written;
  }

  lemma JumpControl()
    ensures !Control(JUMPS).wfi
  {
    JumpIsLegal();
    hide Legal, Funct3, Funct7, Opcode, IntegerOp, MultiplyOp;
  }

  lemma {:induction false} AlwaysJumping(cfg: Config, st0: State, n: nat)
    requires Reset(cfg, st0)
    ensures KeepsJumping(cfg, st0, n)
  {
    hide Step, Observe, Seen, Choices, Related, M.Run, M.Admissible, Start, Explained, Pending, Outstanding,
         M.Commits, M.Traps, M.Transfers, ImemValid, DmemValid, Fetch.BusAddress, Watch;
    assert Cleared(st0, cfg.reset);
    var all := Prompted(n);
    if n > 0 {
      PromptedGrows(n);
      AlwaysJumping(cfg, st0, n - 1);
      var w, h := Jumps(cfg), Play(cfg, st0, Prompted(n - 1));
      PipelineRefinesMachine(w, st0, Prompted(n - 1));
      if h.st.ex.valid {
        JumpIsNotWfi(Steady(w), cfg, h.st, M.Run(M.Fixed(w.imem), cfg.ids, Start(cfg), h.choices).final, h.seen);
      }
      StaysAwake(cfg, h.st, all[n - 1]);
    }
    assert AllServed(Jumps(cfg), st0, all) && AllPrompt(1, cfg, st0, all) && AlwaysAwake(cfg, st0, all);
  }

  /** The first event of every run from an odd reset vector over jumps is the exception. */
  lemma {:induction false} FirstJumpMisaligns(cfg: Config, choices: seq<M.Choice>)
    requires cfg.reset % 2 == 1 && |choices| > 0
    requires M.Admissible(M.Fixed(Jumps(cfg).imem), cfg.ids, Start(cfg), choices)
    ensures var ts := M.Traps(M.Run(M.Fixed(Jumps(cfg).imem), cfg.ids, Start(cfg), choices).events);
      |ts| > 0 && ts[0].cause == 0 && ts[0].pc == cfg.reset
  {
    hide M.Step, Start, M.Possible, Legal, Opcode;
    var mem, s, n := Jumps(cfg).imem, Start(cfg), |choices| - 1;
    var before := M.Run(M.Fixed(mem), cfg.ids, s, choices[..n]);
    M.ProjectionsExtend(before.events, M.Step(mem, cfg.ids, before.final, choices[n]).1);
    if n == 0 {
      ResetAllowsNoInterrupt(cfg, choices[0]);
      JumpEverywhere(cfg, cfg.reset);
      JumpIsLegal();
      OddJumpMisaligns(mem, cfg.ids, s, choices[0]);
    } else {
      FirstJumpMisaligns(cfg, choices[..n]);
    }
  }

  lemma ResetAllowsNoInterrupt(cfg: Config, c: M.Choice)
    requires M.Possible(Start(cfg), c)
    ensures c.Proceed? && Start(cfg).pc == cfg.reset
  {
  }

  /** From an odd reset vector there is a memory, and a schedule of 165 cycles with both ports always
      ready, on which the pipeline's first trap is the misaligned-target exception. */
  lemma OddResetMisaligns(cfg: Config, st0: State) returns (inputs: seq<Input>)
    requires Reset(cfg, st0) && cfg.reset % 2 == 1
    ensures AllServed(Jumps(cfg), st0, inputs)
    ensures var ts := Play(cfg, st0, inputs).log.traps; |ts| > 0 && ts[0].cause == 0 && ts[0].pc == cfg.reset
  {
    hide Reset, Play, Watch, AllServed, AllPrompt, M.Run, M.Admissible, Start, Related, Explained, Outstanding,
         AlwaysAwake;
    inputs := Prompted(165);
    var w, h := Jumps(cfg), Play(cfg, st0, inputs);
    AlwaysJumping(cfg, st0, 165);
    EventsKeepPace(1, cfg, st0, inputs);
    assert 1 * (5 * (Bound(1) + 1)) == 165;
    PipelineRefinesMachine(w, st0, inputs);
    if h.choices == [] { NoChoices(w); } else { FirstJumpMisaligns(cfg, h.choices); }
  }

  lemma NoChoices(w: World)
    ensures M.Run(M.Fixed(w.imem), w.cfg.ids, Start(w.cfg), []).events == []
  {
    hide Start;
  }

  predicate NoneMisaligned(traps: seq<M.Trap>) { forall t <- traps :: t.cause != 0 }

  /** Exactly for the even reset vectors does no memory and no run ever take the exception. */
  lemma NeverMisalignedIffResetEven(cfg: Config, st0: State)
    requires Reset(cfg, st0)
    ensures cfg.reset % 2 == 0
       <==> forall imem: Fetch.Imem, inputs: seq<Input> ::
              AllServed(World(imem, cfg), st0, inputs) ==> NoneMisaligned(Play(cfg, st0, inputs).log.traps)
  {
    hide Reset, Play, AllServed;
    if cfg.reset % 2 == 0 {
      forall imem: Fetch.Imem, inputs: seq<Input> | AllServed(World(imem, cfg), st0, inputs)
        ensures NoneMisaligned(Play(cfg, st0, inputs).log.traps)
      {
        PipelineStaysEven(World(imem, cfg), st0, inputs);
      }
    } else {
      var inputs := OddResetMisaligns(cfg, st0);
      assert AllServed(World(Jumps(cfg).imem, cfg), st0, inputs);
      assert !NoneMisaligned(Play(cfg, st0, inputs).log.traps);
    }
  }
}
