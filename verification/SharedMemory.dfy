/** Code and data in one memory (native_memory.py serves both ports from the same bytes).  The pipeline
    fetches ahead, and also where the program never goes, while older stores are still changing memory;
    none of that shows as long as the program executes a FENCE.I between changing an instruction and
    executing it. */
module SharedMemory {
  import opened Words
  import opened Decode
  import opened Memory
  import opened Pipeline
  import opened Relation
  import opened Stalling
  import opened Advancing
  import opened Departing
  import opened Simulation
  import opened Runs
  import opened Guarantees
  import opened Coherence
  import opened Progress
  import opened Harness
  import Execution
  import Fetch
  import Csr
  import M = Machine

  // ---- The sequential machine with one memory ------------------------------------------------

  /** The sequential machine that fetches every instruction from the memory it stores to. */
  function SharedRun(cfg: Config, u: Setup, ram: Ram, envs: seq<Env>): WholeTrace {
    if envs == [] then WholeTrace(Whole(Start(cfg), ram), Shown([], []))
    else
      var n := |envs| - 1;
      var before := SharedRun(cfg, u, ram, envs[..n]);
      var (s, e) := WholeStep(Code(u, before.final.ram), cfg.ids, before.final, envs[n]);
      WholeTrace(s, Shown(before.shown.commits + e.commits, before.shown.traps + e.traps))
  }

  /** That memory as each step finds it. */
  function Own(cfg: Config, u: Setup, ram: Ram, envs: seq<Env>): M.Code {
    (n: nat) => Code(u, if n <= |envs| then SharedRun(cfg, u, ram, envs[..n]).final.ram else ram)
  }

  lemma {:induction false} OwnRun(cfg: Config, u: Setup, ram: Ram, envs: seq<Env>, n: nat)
    requires n <= |envs|
    ensures WholeRun(Own(cfg, u, ram, envs), cfg.ids, Whole(Start(cfg), ram), envs[..n])
         == SharedRun(cfg, u, ram, envs[..n])
  {
    hide WholeStep, Start, Code;
    if n > 0 {
      OwnRun(cfg, u, ram, envs, n - 1);
      assert envs[..n][..n - 1] == envs[..n - 1];
    }
  }

  /** The little-endian halfword at an address. */
  function HalfAt(ram: Ram, a: Word): Half
    requires a + 1 < |ram|
  {
    var low: int, high: int := ram[a], ram[a + 1];
    low + 0x100 * high
  }

  lemma ParcelIsBytes(u: Setup, ram: Ram, a: Word)
    requires a % 2 == 0 && Mapped(ram, a) && Align(a) !in u.instructionErrors
    ensures a + 1 < |ram| && Fetch.Parcel(Code(u, ram), a) == Some(HalfAt(ram, a))
  {
    var b := Align(a);
    Halfwords(a);
    hide Align, UpperHalf, Quad;
    var q := Quad(ram[b], ram[b + 1], ram[b + 2], ram[b + 3]);
    assert Code(u, ram)(b) == Fetch.Beat(q, false);
    QuadHalves(ram[b], ram[b + 1], ram[b + 2], ram[b + 3]);
  }

  lemma Halfwords(a: Word)
    requires a % 2 == 0
    ensures a == (if UpperHalf(a) then Align(a) + 2 else Align(a)) && Align(Align(a)) == Align(a)
  {
    var q := a / 4;
    assert a - a % 4 == 4 * q;
  }

  lemma QuadHalves(b0: nat, b1: nat, b2: nat, b3: nat)
    requires b0 < 0x100 && b1 < 0x100 && b2 < 0x100 && b3 < 0x100
    ensures Quad(b0, b1, b2, b3) % 0x1_0000 == b0 + 0x100 * b1
    ensures Quad(b0, b1, b2, b3) / 0x1_0000 == b2 + 0x100 * b3
  {
  }

  /** An instruction is the one or two little-endian halfwords at its address. */
  lemma FetchesBytes(u: Setup, ram: Ram, pc: Word)
    requires pc % 2 == 0 && pc < 0xFFFF_FFFE && Mapped(ram, pc) && Mapped(ram, pc + 2)
    requires Align(pc) !in u.instructionErrors && Align(pc + 2) !in u.instructionErrors
    ensures pc + 3 < |ram|
    ensures var low := HalfAt(ram, pc);
      var both := low + 0x1_0000 * HalfAt(ram, pc + 2);
      Fetch.InstructionAt(Code(u, ram), pc)
        == if low % 4 != 3 then Fetch.Fetched(false, Fetch.Canonical(low), low, true)
           else Fetch.Fetched(false, both, both, false)
  {
    hide Fetch.Canonical, Code, HalfAt, Fetch.Parcel, Align;
    ParcelIsBytes(u, ram, pc);
    ParcelIsBytes(u, ram, pc + 2);
  }

  // ---- What the program must do --------------------------------------------------------------

  /** The sequential machine after its first n steps. */
  function After(code: M.Code, cfg: Config, ram: Ram, envs: seq<Env>, n: nat): Whole
    requires n <= |envs|
  {
    WholeRun(code, cfg.ids, Whole(Start(cfg), ram), envs[..n]).final
  }

  predicate Wide(mem: Fetch.Imem, pc: Word) {
    var p := Fetch.Parcel(mem, pc);
    p.Some? && p.value % 4 == 3
  }

  /** The one or two words that hold the instruction at a PC are the same in both. */
  predicate SameWords(a: Fetch.Imem, b: Fetch.Imem, pc: Word) {
    && a(Align(pc)) == b(Align(pc))
    && (Wide(b, pc) ==> a(Align(Wrap(pc + 2))) == b(Align(Wrap(pc + 2))))
  }

  /** There is a FENCE.I at the PC. */
  predicate IsFence(mem: Fetch.Imem, pc: Word) {
    var f := Fetch.InstructionAt(mem, pc);
    !f.fault && Opcode(f.instr) == OP_MISC_MEM && Funct3(f.instr) == 1
  }

  predicate FenceAt(code: M.Code, cfg: Config, ram: Ram, envs: seq<Env>, n: nat)
    requires n < |envs|
  {
    envs[n].Go? && IsFence(code(n), After(code, cfg, ram, envs, n).arch.pc)
  }

  /** No FENCE.I is executed from step k up to step n. */
  ghost predicate Unfenced(code: M.Code, cfg: Config, ram: Ram, envs: seq<Env>, k: nat, n: nat)
    requires n <= |envs|
  {
    forall m: nat :: k <= m < n ==> !FenceAt(code, cfg, ram, envs, m)
  }

  /** Every instruction executed is the one that memory has held since the last FENCE.I. */
  ghost predicate Settled(code: M.Code, cfg: Config, u: Setup, ram: Ram, envs: seq<Env>) {
    forall k: nat, n: nat :: k <= n < |envs| && envs[n].Go? && Unfenced(code, cfg, ram, envs, k, n) ==>
      SameWords(Code(u, After(code, cfg, ram, envs, k).ram), code(n), After(code, cfg, ram, envs, n).arch.pc)
  }

  /** The machine with one memory executes a FENCE.I between every change of an instruction's words and
      the execution of that instruction. */
  ghost predicate Fenced(cfg: Config, u: Setup, ram: Ram, envs: seq<Env>) {
    Settled(Own(cfg, u, ram, envs), cfg, u, ram, envs)
  }

  /** No store of the machine that runs the loaded image has changed a word of an instruction that it then
      executes, fenced or not. */
  ghost predicate CodeKept(cfg: Config, u: Setup, ram: Ram, envs: seq<Env>) {
    var code := M.Fixed(Code(u, ram));
    forall k: nat, n: nat :: k <= n < |envs| && envs[n].Go? ==>
      SameWords(Code(u, After(code, cfg, ram, envs, k).ram), Code(u, ram), After(code, cfg, ram, envs, n).arch.pc)
  }

  lemma KeptSettles(cfg: Config, u: Setup, ram: Ram, envs: seq<Env>)
    requires CodeKept(cfg, u, ram, envs)
    ensures Settled(M.Fixed(Code(u, ram)), cfg, u, ram, envs)
  {
    hide After, SameWords, Code, Unfenced;
  }

  lemma AfterPrefix(code: M.Code, cfg: Config, ram: Ram, envs: seq<Env>, more: seq<Env>, n: nat)
    requires n <= |envs|
    ensures After(code, cfg, ram, envs + more, n) == After(code, cfg, ram, envs, n)
  {
    assert (envs + more)[..n] == envs[..n];
  }

  lemma UnfencedPrefix(code: M.Code, cfg: Config, ram: Ram, envs: seq<Env>, more: seq<Env>, k: nat, n: nat)
    requires n <= |envs|
    ensures Unfenced(code, cfg, ram, envs + more, k, n) <==> Unfenced(code, cfg, ram, envs, k, n)
  {
    hide After, IsFence;
    forall m: nat | k <= m < n
      ensures FenceAt(code, cfg, ram, envs + more, m) <==> FenceAt(code, cfg, ram, envs, m)
    {
      AfterPrefix(code, cfg, ram, envs, more, m);
    }
  }

  lemma SettledBefore(code: M.Code, cfg: Config, u: Setup, ram: Ram, envs: seq<Env>, more: seq<Env>)
    requires Settled(code, cfg, u, ram, envs + more)
    ensures Settled(code, cfg, u, ram, envs)
  {
    hide After, SameWords, Code, Unfenced;
    forall k: nat, n: nat | k <= n < |envs| && envs[n].Go? && Unfenced(code, cfg, ram, envs, k, n)
      ensures SameWords(Code(u, After(code, cfg, ram, envs, k).ram), code(n), After(code, cfg, ram, envs, n).arch.pc)
    {
      AfterPrefix(code, cfg, ram, envs, more, k);
      AfterPrefix(code, cfg, ram, envs, more, n);
      UnfencedPrefix(code, cfg, ram, envs, more, k, n);
      assert (envs + more)[n].Go?;
    }
  }

  // ---- What fetch may have seen --------------------------------------------------------------

  /** The word was in memory at some moment since: after so many of the transfers made. */
  ghost predicate Once(u: Setup, ram: Ram, ts: seq<M.Transfer>, since: nat, a: Word, beat: Fetch.Beat) {
    exists j: nat :: since <= j <= |ts| && beat == Code(u, Contents(ram, ts[..j]))(a)
  }

  /** Each word of the memory was there at some moment since, not necessarily the same. */
  ghost predicate Past(u: Setup, ram: Ram, ts: seq<M.Transfer>, since: nat, mem: Fetch.Imem) {
    forall a: Word :: Once(u, ram, ts, since, a, mem(a))
  }

  lemma PastGrows(u: Setup, ram: Ram, ts: seq<M.Transfer>, more: seq<M.Transfer>, since: nat, mem: Fetch.Imem)
    requires Past(u, ram, ts, since, mem)
    ensures Past(u, ram, ts + more, since, mem)
  {
    hide Contents, ReadWord;
    forall a: Word ensures Once(u, ram, ts + more, since, a, mem(a)) {
      assert Once(u, ram, ts, since, a, mem(a));
      var j: nat :| since <= j <= |ts| && mem(a) == Code(u, Contents(ram, ts[..j]))(a);
      assert (ts + more)[..j] == ts[..j];
    }
  }

  lemma NowIsPast(u: Setup, ram: Ram, ts: seq<M.Transfer>, since: nat)
    requires since <= |ts|
    ensures Past(u, ram, ts, since, Code(u, Contents(ram, ts)))
  {
    hide Contents, ReadWord;
    forall a: Word ensures Once(u, ram, ts, since, a, Code(u, Contents(ram, ts))(a)) {
      assert ts[..|ts|] == ts;
    }
  }

  lemma RefillIsPast(u: Setup, ram: Ram, ts: seq<M.Transfer>, since: nat, x: Flight, st: State)
    requires Past(u, ram, ts, since, x.fetch)
    ensures Past(u, ram, ts, since, Refilled(x, st, Code(u, Contents(ram, ts))).fetch)
  {
    assert Once(u, ram, ts, since, 0, x.fetch(0));
    NowIsPast(u, ram, ts, since);
    hide Once, Contents, Code, Fetch.BusAddress;
  }

  /** No FENCE.I has been executed since the run had made so many transfers. */
  ghost predicate Since(code: M.Code, cfg: Config, ram: Ram, choices: seq<M.Choice>, since: nat) {
    exists k: nat :: k <= |choices| && Unfenced(code, cfg, ram, EnvsOf(choices), k, |choices|)
                  && |M.Transfers(M.Run(code, cfg.ids, Start(cfg), choices[..k]).events)| <= since
  }

  lemma SinceNow(code: M.Code, cfg: Config, ram: Ram, choices: seq<M.Choice>, since: nat)
    requires |M.Transfers(M.Run(code, cfg.ids, Start(cfg), choices).events)| <= since
    ensures Since(code, cfg, ram, choices, since)
  {
    hide M.Run, M.Transfers, EnvsOf, FenceAt, Start;
    var n := |choices|;
    assert choices[..n] == choices;
    assert Unfenced(code, cfg, ram, EnvsOf(choices), n, n);
  }

  lemma FenceTransfersNothing(mem: Fetch.Imem, ids: Csr.Ids, s: M.Arch, c: M.Choice)
    ensures c.Proceed? && IsFence(mem, s.pc) ==> M.Step(mem, ids, s, c).1.transfer == None
  {
    hide Fetch.InstructionAt, Opcode, Funct3, Legal, M.Retired, M.ToTrap;
  }

  /** One more step: a FENCE.I asks that nothing was fetched before the last transfer. */
  lemma SinceExtends(code: M.Code, cfg: Config, ram: Ram, choices: seq<M.Choice>, c: M.Choice, since: nat)
    requires Since(code, cfg, ram, choices, since)
    requires var run := M.Run(code, cfg.ids, Start(cfg), choices);
      && Coherent(ram, M.Transfers(run.events))
      && (c.Proceed? && IsFence(code(|choices|), run.final.pc) ==> |M.Transfers(run.events)| <= since)
    ensures Since(code, cfg, ram, choices + [c], since)
  {
    hide M.Run, M.Transfers, M.Commits, M.Traps, M.Admissible, M.Possible, M.Step, Coherent, Contents, WholeRun, Start,
         EnvsOf, IsFence, Unfenced;
    var n, envs, run := |choices|, EnvsOf(choices), M.Run(code, cfg.ids, Start(cfg), choices);
    EnvsExtend(choices, c);
    if c.Proceed? && IsFence(code(n), run.final.pc) {
      M.RunExtends(code, cfg.ids, Start(cfg), choices, c);
      M.ProjectionsExtend(run.events, M.Step(code(n), cfg.ids, run.final, c).1);
      FenceTransfersNothing(code(n), cfg.ids, run.final, c);
      assert M.Transfers(run.events) + [] == M.Transfers(run.events);
      SinceNow(code, cfg, ram, choices + [c], since);
    } else {
      var k: nat :| k <= n && Unfenced(code, cfg, ram, envs, k, n)
                 && |M.Transfers(M.Run(code, cfg.ids, Start(cfg), choices[..k]).events)| <= since;
      assert (choices + [c])[..k] == choices[..k];
      RunAgrees(code, cfg.ids, Start(cfg), ram, choices);
      assert (envs + [EnvOf(c)])[..n] == envs;
      UnfencedPrefix(code, cfg, ram, envs, [EnvOf(c)], k, n);
      UnfencedStep(code, cfg, ram, envs + [EnvOf(c)], k, n);
    }
  }

  lemma UnfencedStep(code: M.Code, cfg: Config, ram: Ram, envs: seq<Env>, k: nat, n: nat)
    requires n < |envs| && Unfenced(code, cfg, ram, envs, k, n) && !FenceAt(code, cfg, ram, envs, n)
    ensures Unfenced(code, cfg, ram, envs, k, n + 1)
  {
    hide FenceAt;
  }

  // ---- Executed as memory has it -------------------------------------------------------------

  /** Every memory a reference run went through is that of the sequential machine after some steps, not
      earlier ones for a later memory. */
  lemma {:induction false} MomentIsStep(code: M.Code, cfg: Config, ram: Ram, choices: seq<M.Choice>, from: nat, j: nat)
    returns (k: nat)
    requires var ts := M.Transfers(M.Run(code, cfg.ids, Start(cfg), choices).events);
      Coherent(ram, ts) && j <= |ts|
    requires from <= |choices| && |M.Transfers(M.Run(code, cfg.ids, Start(cfg), choices[..from]).events)| <= j
    ensures from <= k <= |choices|
    ensures var ts := M.Transfers(M.Run(code, cfg.ids, Start(cfg), choices).events);
      After(code, cfg, ram, EnvsOf(choices), k).ram == Contents(ram, ts[..j])
  {
    hide M.Run, M.Step, M.Transfers, M.Commits, M.Traps, Coherent, Contents, WholeRun, Start, M.Admissible, M.Possible;
    var ids, s0 := cfg.ids, Start(cfg);
    var ts := M.Transfers(M.Run(code, ids, s0, choices).events);
    if j == |ts| {
      k := |choices|;
      RunAgrees(code, ids, s0, ram, choices);
      assert ts[..j] == ts && EnvsOf(choices)[..k] == EnvsOf(choices);
    } else {
      assert choices[..|choices|] == choices;
      var n := |choices| - 1;
      var init, c := choices[..n], choices[n];
      assert choices == init + [c] && init[..from] == choices[..from];
      var before := M.Run(code, ids, s0, init);
      CoherentBefore(code, ids, s0, ram, init, c);
      M.RunExtends(code, ids, s0, init, c);
      M.ProjectionsExtend(before.events, M.Step(code(n), ids, before.final, c).1);
      k := MomentIsStep(code, cfg, ram, init, from, j);
      assert ts[..j] == M.Transfers(before.events)[..j];
      EnvsExtend(init, c);
      assert EnvsOf(choices)[..k] == EnvsOf(init)[..k];
    }
  }

  lemma SameInstruction(a: Fetch.Imem, b: Fetch.Imem, pc: Word)
    requires SameWords(a, b, pc)
    ensures Alike(a, b, pc)
  {
    hide Align, Wrap, UpperHalf, Fetch.Canonical;
  }

  /** If every instruction is the one memory has held since the last FENCE.I, the next one executed is as
      memory has it, whenever its parts were fetched since. */
  lemma FetchedIsCurrent(code: M.Code, cfg: Config, u: Setup, ram: Ram, choices: seq<M.Choice>, c: M.Choice,
                         mem: Fetch.Imem, since: nat)
    requires c.Proceed? && Settled(code, cfg, u, ram, EnvsOf(choices + [c])) && Since(code, cfg, ram, choices, since)
    requires var ts := M.Transfers(M.Run(code, cfg.ids, Start(cfg), choices).events);
      Coherent(ram, ts) && Past(u, ram, ts, since, mem)
    ensures Alike(mem, code(|choices|), M.Run(code, cfg.ids, Start(cfg), choices).final.pc)
  {
    hide M.Run, M.Transfers, M.Commits, M.Traps, Coherent, Contents, WholeRun, Start, ReadWord, Align, Wrap, Code, Wide,
         Alike, FenceAt, IsFence;
    var n, envs := |choices|, EnvsOf(choices);
    var run := M.Run(code, cfg.ids, Start(cfg), choices);
    var pc: Word, ts := run.final.pc, M.Transfers(run.events);
    EnvsExtend(choices, c);
    var all := EnvsOf(choices + [c]);
    RunAgrees(code, cfg.ids, Start(cfg), ram, choices);
    assert all[..n] == envs && all[n].Go? && After(code, cfg, ram, all, n).arch.pc == pc;
    var from: nat :| from <= n && Unfenced(code, cfg, ram, envs, from, n)
                  && |M.Transfers(M.Run(code, cfg.ids, Start(cfg), choices[..from]).events)| <= since;
    UnfencedPrefix(code, cfg, ram, envs, [EnvOf(c)], from, n);
    forall k: nat | from <= k <= n
      ensures SameWords(Code(u, After(code, cfg, ram, envs, k).ram), code(n), pc)
    {
      AfterPrefix(code, cfg, ram, envs, [EnvOf(c)], k);
      assert Unfenced(code, cfg, ram, all, k, n);
    }
    forall a: Word
      ensures exists k: nat :: from <= k <= n && mem(a) == Code(u, After(code, cfg, ram, envs, k).ram)(a)
    {
      assert Once(u, ram, ts, since, a, mem(a));
      var j: nat :| since <= j <= |ts| && mem(a) == Code(u, Contents(ram, ts[..j]))(a);
      var k := MomentIsStep(code, cfg, ram, choices, from, j);
    }
    SameInstruction(mem, code(n), pc);
  }

  // ---- The pipeline's side -------------------------------------------------------------------

  predicate FrontEmpty(st: State) { !st.ex.valid && !st.id.valid && Fetch.Empty(st.fb) }

  /** With nothing in EX, ID or the buffer, the memories behind them are free to choose. */
  lemma FrontForgets(x: Flight, y: Flight, st: State, s: M.Arch, v: Csr.Volatile)
    requires Related(x, st, s, v) && FrontEmpty(st) && y.cfg == x.cfg && (st.mem.valid ==> y.mem == x.mem)
    ensures Related(y, st, s, v)
  {
    assert RelatedAt(x, st, s, v, PcAfterMem(x, st.mem, s, v));
    hide MduOk, LatchOk, SleepOk, Relation.Written, Redirecting, Carries, M.Execute, Fetch.InstructionAt, Benign,
         Requests, Counted, Fetch.Agrees, Wrap, Fetch.Length, PcAfterEx;
  }

  lemma FenceIsDecoded(n: Word)
    requires Opcode(n) == OP_MISC_MEM && Funct3(n) == 1
    ensures Control(n).fenceI
  {
    hide Legal, Funct3, Funct7, Opcode;
  }

  /** Whatever leaves EX other than by moving to MEM, and a FENCE.I that does, leaves nothing behind. */
  lemma EitherEmptyOrPlain(x: Flight, st: State, i: Input, s: M.Arch, v: Csr.Volatile)
    requires Related(x, st, s, v) && Advance(st, i)
    ensures var t := Step(x.cfg, st, i);
      && (t.mem.valid || !FrontEmpty(t) ==> ExChoice(x.cfg, st, i) == None)
      && (t.mem.valid && !FrontEmpty(t) ==> !IsFence(x.ex, AfterMem(x, st, i, s, v).pc))
  {
    hide Related, Advance, Step, AfterMem, DataFault, SyncTrap, IrqTake, Fetch.Empty, Requests, Fetch.InstructionAt,
         Execution.Decoded, Execution.Agrees, Benign, Outstanding, Accepted, OperandA, OperandB, Link, ExResult,
         Opcode, Funct3, Control, TrapVector, MduResult, CsrPort;
    if TrapEnter(x.cfg, st, i) {
      TrapEmpties(x, st, i, s, v);
    } else if FenceITaken(x.cfg, st, i) {
      FenceIOrders(x, st, i, s, v);
    } else {
      MemWbMove(x.cfg, st, i);
      if st.ex.valid {
        ExAgrees(x, st, i, s, v);
        ExIsDecoded(x, st, s, v);
        DecodedControl(st.ex);
        if IsFence(x.ex, AfterMem(x, st, i, s, v).pc) { FenceIsDecoded(st.ex.instr); }
      }
    }
  }

  // ---- Runs ----------------------------------------------------------------------------------

  /** The instruction in MEM was fetched from memory as it was before the transfers not yet in the
      reference run, the others from memory as it was up to now, and all since the last FENCE.I before
      them: after the first f transfers that in MEM, after the first g the younger ones. */
  ghost predicate Sourced(code: M.Code, u: Setup, ram: Ram, x: Flight, st: State, choices: seq<M.Choice>,
                          ts: seq<M.Transfer>, f: nat, g: nat) {
    var run := M.Run(code, x.cfg.ids, Start(x.cfg), choices);
    && Past(u, ram, M.Transfers(run.events), f, x.mem) && Since(code, x.cfg, ram, choices, f)
    && Past(u, ram, ts, g, x.ex) && Past(u, ram, ts, g, x.id) && Past(u, ram, ts, g, x.fetch)
    && Since(code, x.cfg, ram, choices, g)
    && (st.mem.valid && IsFence(x.mem, run.final.pc) ==> |M.Transfers(run.events)| <= g)
  }

  /** The reference run explains the history, and every instruction in flight was fetched from memory as
      it was at some moments since the last FENCE.I before it. */
  ghost predicate Tracked(code: M.Code, cfg: Config, u: Setup, ram: Ram, h: History) {
    exists x: Flight, f: nat, g: nat ::
      && x.cfg == cfg && Explained(code, x, h.st, h.log, h.seen, h.choices)
      && Sourced(code, u, ram, x, h.st, h.choices, h.log.transfers, f, g)
  }

  /** The instruction in MEM has moved on: what EX, ID and fetch hold is still from after the last FENCE.I. */
  lemma SinceMem(code: M.Code, u: Setup, ram: Ram, x: Flight, st: State, i: Input, log: Log, v: Csr.Volatile,
                 choices: seq<M.Choice>, f: nat, g: nat)
    requires Explained(code, x, st, log, v, choices) && Sourced(code, u, ram, x, st, choices, log.transfers, f, g)
    requires Coherent(ram, log.transfers)
    requires st.mem.valid ==> Alike(x.mem, code(|choices|), M.Run(code, x.cfg.ids, Start(x.cfg), choices).final.pc)
    ensures Since(code, x.cfg, ram, choices + M.AsSeq(MemChoice(st, i, v)), g)
  {
    hide Related, M.Run, M.Admissible, M.Transfers, M.Commits, M.Traps, Coherent, Start, Past, Since, Outstanding,
         Pending, ResponseData, ResponseError, Fetch.InstructionAt, Opcode, Funct3;
    DropOutstanding(ram, M.Transfers(M.Run(code, x.cfg.ids, Start(x.cfg), choices).events), st);
    match MemChoice(st, i, v) {
      case Some(c) => SinceExtends(code, x.cfg, ram, choices, c, g);
      case None => assert choices + [] == choices;
    }
  }

  /** The instruction in EX, if it is executed next, is as memory has it. */
  lemma ExIsCurrent(code: M.Code, u: Setup, ram: Ram, x: Flight, st: State, i: Input, log: Log, v: Csr.Volatile,
                    choices: seq<M.Choice>, c: M.Choice, f: nat, g: nat)
    requires Explained(code, x, st, log, v, choices) && Sourced(code, u, ram, x, st, choices, log.transfers, f, g)
    requires Advance(st, i) && Coherent(ram, Observe(x.cfg, st, i, log).transfers)
    requires st.mem.valid ==> Alike(x.mem, code(|choices|), M.Run(code, x.cfg.ids, Start(x.cfg), choices).final.pc)
    requires c.Proceed? && Settled(code, x.cfg, u, ram, EnvsOf(choices + M.AsSeq(MemChoice(st, i, v)) + [c]))
    ensures Alike(x.ex, code(|choices + M.AsSeq(MemChoice(st, i, v))|),
                  AfterMem(x, st, i, M.Run(code, x.cfg.ids, Start(x.cfg), choices).final, v).pc)
  {
    hide Related, M.Run, M.Admissible, M.Transfers, M.Commits, M.Traps, Coherent, Start, Advance, AfterMem, Contents,
         Alike, Settled, Past, Since, EnvsOf, Outstanding, Pending, Committing, Trapping, Transferring, MemChoice,
         IsFence;
    var mid := choices + M.AsSeq(MemChoice(st, i, v));
    TransfersExtend(ram, log.transfers, Transferring(st, i));
    MemAppends(code, x, st, i, v, choices);
    SinceMem(code, u, ram, x, st, i, log, v, choices, f, g);
    assert M.Transfers(M.Run(code, x.cfg.ids, Start(x.cfg), mid).events)
        == log.transfers + M.AsSeq(Transferring(st, i));
    PastGrows(u, ram, log.transfers, M.AsSeq(Transferring(st, i)), g, x.ex);
    FetchedIsCurrent(code, x.cfg, u, ram, mid, c, x.ex, g);
  }

  /** One clock edge: the instructions it executes are as memory has them, what moves on takes its memory
      with it, and what was flushed is forgotten. */
  lemma CycleTracked(code: M.Code, u: Setup, ram: Ram, x: Flight, st: State, i: Input, log: Log, v: Csr.Volatile,
                     choices: seq<M.Choice>, f: nat, g: nat)
    requires Explained(code, x, st, log, v, choices) && Sourced(code, u, ram, x, st, choices, log.transfers, f, g)
    requires Served(x.fetch, st, i) && Coherent(ram, Observe(x.cfg, st, i, log).transfers)
    requires Settled(code, x.cfg, u, ram, EnvsOf(choices + Choices(x.cfg, st, i, v)))
    ensures Tracked(code, x.cfg, u, ram, History(Step(x.cfg, st, i), Observe(x.cfg, st, i, log), Seen(st, i, v),
                                                 choices + Choices(x.cfg, st, i, v)))
  {
    hide Related, Advance, Served, Past, Since, M.Run, M.Admissible, M.Transfers, M.Commits, M.Traps, Start, Step,
         Committing, Trapping, Transferring, IsFence, AfterMem, SyncTrap, DataFault, IrqTake, Alike, StallId, Coherent,
         Contents, Code, Settled, EnvsOf, FrontEmpty, Outstanding, Pending, Now, ResponseData, ResponseError;
    var t, ts, more := Step(x.cfg, st, i), Observe(x.cfg, st, i, log).transfers, M.AsSeq(Transferring(st, i));
    var mid, all := choices + M.AsSeq(MemChoice(st, i, v)), choices + Choices(x.cfg, st, i, v);
    var s, last := M.Run(code, x.cfg.ids, Start(x.cfg), choices).final, M.AsSeq(ExChoice(x.cfg, st, i));
    PastGrows(u, ram, log.transfers, more, g, x.ex);
    PastGrows(u, ram, log.transfers, more, g, x.id);
    PastGrows(u, ram, log.transfers, more, g, x.fetch);
    if !Advance(st, i) {
      CycleExplained(code, x, st, i, log, v, choices);
      Frozen(x.cfg, st, i);
      assert choices + [] == choices;
      assert Sourced(code, u, ram, x, t, choices, ts, f, g);
      return;
    }
    assert all == mid + last;
    EnvsAppend(mid, last);
    SettledBefore(code, x.cfg, u, ram, EnvsOf(mid), EnvsOf(last));
    TransfersExtend(ram, log.transfers, Transferring(st, i));
    DropOutstanding(ram, M.Transfers(M.Run(code, x.cfg.ids, Start(x.cfg), choices).events), st);
    if st.mem.valid {
      FetchedIsCurrent(code, x.cfg, u, ram, choices, MemChoice(st, i, v).value, x.mem, f);
    }
    SinceMem(code, u, ram, x, st, i, log, v, choices, f, g);
    if SyncTrap(x.cfg, st, i) && !DataFault(st, i) {
      ExIsCurrent(code, u, ram, x, st, i, log, v, choices, ExChoice(x.cfg, st, i).value, f, g);
    }
    CycleExplained(code, x, st, i, log, v, choices);
    EitherEmptyOrPlain(x, st, i, s, v);
    AdvanceObserves(x, st, i, s, v);
    var c, run := Carried(x, st, i), M.Run(code, x.cfg.ids, Start(x.cfg), all);
    assert ts == M.Transfers(run.events) + [] == M.Transfers(run.events);
    if FrontEmpty(t) {
      var now := Code(u, Contents(ram, ts));
      var y := Flight(if t.mem.valid then x.ex else now, now, now, now, x.cfg);
      FrontForgets(c, y, t, run.final, Seen(st, i, v));
      NowIsPast(u, ram, ts, |ts|);
      SinceNow(code, x.cfg, ram, all, |ts|);
      assert t.mem.valid ==> all == mid;
      assert Explained(code, y, t, Observe(x.cfg, st, i, log), Seen(st, i, v), all);
      assert Sourced(code, u, ram, y, t, all, ts, if t.mem.valid then g else |ts|, |ts|);
    } else {
      assert all == mid;
      MemAppends(code, x, st, i, v, choices);
      assert Sourced(code, u, ram, c, t, all, ts, g, g);
    }
  }

  lemma StartsTracked(code: M.Code, cfg: Config, u: Setup, core0: State, ram: Ram)
    requires Reset(cfg, core0)
    ensures Tracked(code, cfg, u, ram, Play(cfg, core0, []))
  {
    hide Reset, Explained, M.Run, Start, Since, Past, IsFence, Contents, Code;
    var now := Code(u, ram);
    var x, h := Flight(now, now, now, now, cfg), Play(cfg, core0, []);
    ResetExplained(code, x, core0, h.seen);
    EmptyRun(code, cfg);
    assert Contents(ram, []) == ram by { NothingChanged(ram); }
    NowIsPast(u, ram, [], 0);
    SinceNow(code, cfg, ram, [], 0);
    assert Sourced(code, u, ram, x, core0, [], [], 0, 0);
  }

  lemma EmptyRun(code: M.Code, cfg: Config)
    ensures M.Transfers(M.Run(code, cfg.ids, Start(cfg), []).events) == []
  {
    hide Start;
  }

  lemma NothingChanged(ram: Ram)
    ensures Contents(ram, []) == ram
  {
  }

  /** The instruction port answers from memory as it is now. */
  lemma ServesNow(cfg: Config, u: Setup, b0: Bench, j: Journal, p: Pins)
    requires Serving(cfg, u, b0, j)
    ensures Served(Code(u, j.bench.ram), j.bench.core, InputOf(u, j.bench, p))
  {
    hide Step, Play, Watch, AllPrompt, Coherent, Contents, PortsInStep, Harness.Written, Prompt, ImemValid, DmemValid,
         Sampled, ReadWord, NextWaits;
    CycleServes(cfg, u, j.bench, p, Watch(cfg, b0.core, j.inputs).waits);
    hide BenchStep, DrivenD, DrivenI;
  }

  lemma RefillOnlyFetch(w: Flight, st: State, now: Fetch.Imem)
    ensures var x := Refilled(w, st, now); x.mem == w.mem && x.ex == w.ex && x.id == w.id && x.cfg == w.cfg
  {
    hide Fetch.BusAddress;
  }

  /** What memory returns from now on may be anything it holds. */
  lemma RefillTracked(code: M.Code, u: Setup, ram: Ram, x: Flight, st: State, log: Log, v: Csr.Volatile,
                      choices: seq<M.Choice>, f: nat, g: nat)
    requires Explained(code, x, st, log, v, choices) && Sourced(code, u, ram, x, st, choices, log.transfers, f, g)
    ensures var z := Refilled(x, st, Code(u, Contents(ram, log.transfers)));
      && z.cfg == x.cfg && Explained(code, z, st, log, v, choices)
      && Sourced(code, u, ram, z, st, choices, log.transfers, f, g)
  {
    hide Related, Past, Since, M.Run, M.Admissible, M.Transfers, M.Commits, M.Traps, Start, IsFence, Contents, Code,
         Refilled, Outstanding, Pending;
    var now := Code(u, Contents(ram, log.transfers));
    RefillOnlyFetch(x, st, now);
    RefillKeepsRelation(x, st, now, M.Run(code, x.cfg.ids, Start(x.cfg), choices).final, v);
    RefillIsPast(u, ram, log.transfers, g, x, st);
  }

  /** The reference run explains the bench's run if its code settles. */
  ghost predicate TracksSettled(code: M.Code, cfg: Config, u: Setup, core0: State, ram: Ram, pins: seq<Pins>) {
    exists h :: h == Play(cfg, core0, BenchPlay(cfg, u, Loaded(core0, ram), pins).inputs)
             && (Settled(code, cfg, u, ram, EnvsOf(h.choices)) ==> Tracked(code, cfg, u, ram, h))
  }

  lemma {:induction false} AlwaysTracked(code: M.Code, cfg: Config, u: Setup, core0: State, ram: Ram, pins: seq<Pins>)
    requires Reset(cfg, core0)
    ensures TracksSettled(code, cfg, u, core0, ram, pins)
  {
    hide Reset, Explained, Sourced, Observe, Seen, Step, Settled, EnvsOf, BenchStep, Loaded, InputOf, Served, Code,
         Choices, Contents, Watch, AllPrompt, PortsInStep, Coherent, Refilled, Advance;
    var b0 := Loaded(core0, ram);
    var all := Play(cfg, core0, BenchPlay(cfg, u, b0, pins).inputs);
    LoadedIs(core0, ram);
    if pins == [] {
      StartsTracked(code, cfg, u, core0, ram);
    } else if Settled(code, cfg, u, ram, EnvsOf(all.choices)) {
      var n := |pins| - 1;
      var j := BenchPlay(cfg, u, b0, pins[..n]);
      var h, i := Play(cfg, core0, j.inputs), InputOf(u, j.bench, pins[n]);
      var steps := Choices(cfg, h.st, i, h.seen);
      PlayExtends(cfg, core0, j.inputs, i);
      EnvsAppend(h.choices, steps);
      SettledBefore(code, cfg, u, ram, EnvsOf(h.choices), EnvsOf(steps));
      AlwaysServing(cfg, u, core0, ram, pins[..n]);
      AlwaysServing(cfg, u, core0, ram, pins);
      AlwaysTracked(code, cfg, u, core0, ram, pins[..n]);
      var x: Flight, f: nat, g: nat :| x.cfg == cfg && Explained(code, x, h.st, h.log, h.seen, h.choices)
                  && Sourced(code, u, ram, x, h.st, h.choices, h.log.transfers, f, g);
      var now := Code(u, j.bench.ram);
      var z := Refilled(x, h.st, now);
      RefillTracked(code, u, ram, x, h.st, h.log, h.seen, h.choices, f, g);
      ServesNow(cfg, u, b0, j, pins[n]);
      RefillServes(x, h.st, i, now);
      CycleTracked(code, u, ram, z, h.st, i, h.log, h.seen, h.choices, f, g);
    }
    assert Settled(code, cfg, u, ram, EnvsOf(all.choices)) ==> Tracked(code, cfg, u, ram, all);
  }

  /** The bench's run is that run of the sequential machine: it has committed and trapped the same, but
      for what is in WB; the bench's memory is what its stores leave, unless a transfer waits in MEM;
      every stall ends within the larger of twice the longest access and the 32 iterations of the multiplier
      and divider, and a core that is not asleep and drained has committed or trapped within the last five
      such periods. */
  ghost predicate Shows(cfg: Config, u: Setup, core0: State, j: Journal, run: WholeTrace) {
    var h, k := Play(cfg, core0, j.inputs), Watch(cfg, core0, j.inputs);
    && h.log.commits + Pending(j.bench.core) == run.shown.commits
    && h.log.traps == run.shown.traps
    && (!j.bench.core.latch.complete ==> j.bench.ram == run.final.ram)
    && k.stalled <= Bound(Patience(u)) && k.silent < 5 * (Bound(Patience(u)) + 1)
  }

  /** The closed bench, for every memory image, wait states on either port, sets of failing addresses,
      interrupt and time inputs, and any number of cycles.  It shows the run of the sequential machine that
      fetches from the flat byte memory it stores to, whatever the program does to its own code, as long as
      it executes a FENCE.I between changing an instruction and executing it.  A program that changes no
      instruction it executes needs none, and is the run of the loaded image. */
  lemma BenchRefinesMemoryMachine(cfg: Config, u: Setup, core0: State, ram: Ram, pins: seq<Pins>)
    requires Reset(cfg, core0)
    ensures var j := BenchPlay(cfg, u, Loaded(core0, ram), pins);
      var envs := EnvsOf(Play(cfg, core0, j.inputs).choices);
      && (Fenced(cfg, u, ram, envs) ==> Shows(cfg, u, core0, j, SharedRun(cfg, u, ram, envs)))
      && (CodeKept(cfg, u, ram, envs) ==>
            Shows(cfg, u, core0, j, WholeRun(M.Fixed(Code(u, ram)), cfg.ids, Whole(Start(cfg), ram), envs)))
  {
    hide Reset, Play, Watch, AllPrompt, Coherent, Contents, WholeRun, SharedRun, EnvsOf, Pending, Bound, Patience,
         PortsInStep, BenchPlay, Loaded, Code, Own, Start, OnTime, Explained, Settled, CodeKept, Sourced, M.Run;
    var j := BenchPlay(cfg, u, Loaded(core0, ram), pins);
    var h := Play(cfg, core0, j.inputs);
    var envs := EnvsOf(h.choices);
    AlwaysServing(cfg, u, core0, ram, pins);
    LoadedIs(core0, ram);
    PatiencePositive(u);
    PipelineKeepsGoing(Patience(u), cfg, core0, j.inputs);
    forall code: M.Code | Settled(code, cfg, u, ram, envs)
      ensures Shows(cfg, u, core0, j, WholeRun(code, cfg.ids, Whole(Start(cfg), ram), envs))
    {
      AlwaysTracked(code, cfg, u, core0, ram, pins);
      var x: Flight :| x.cfg == cfg && Explained(code, x, h.st, h.log, h.seen, h.choices);
      ExplainedWithMemory(code, x, h.st, h.log, h.seen, h.choices, ram);
    }
    OwnRun(cfg, u, ram, envs, |envs|);
    assert envs[..|envs|] == envs;
    if CodeKept(cfg, u, ram, envs) { KeptSettles(cfg, u, ram, envs); }
  }
}
