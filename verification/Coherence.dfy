/** The pipeline with a data memory: when the data port is served by a byte memory, a run is that of
    a sequential machine whose loads and stores act on one flat little-endian byte map. */
module Coherence {
  import opened Words
  import opened Decode
  import opened Memory
  import opened Pipeline
  import opened Relation
  import opened Stalling
  import opened Runs
  import Fetch
  import LoadStore
  import Csr
  import M = Machine

  // ---- The sequential machine with memory --------------------------------------------------

  datatype Whole = Whole(arch: M.Arch, ram: Ram)

  /** What is left to the environment once memory answers by itself: volatile counters, bus errors
      and interrupts. */
  datatype Env = Go(v: Csr.Volatile, error: bool) | Interrupted(pins: Csr.Pins)

  /** Reading outside the memory gives zero. */
  function LoadFrom(d: Ram, ty: nat, addr: Word): Word {
    if Mapped(d, addr) && InRange(d, addr, ty) then Wrap(FlatLoad(d, ty, addr)) else 0
  }

  function StoreTo(d: Ram, ty: nat, addr: Word, data: Word): Ram {
    if Mapped(d, addr) && InRange(d, addr, ty) then FlatStore(d, ty, addr, data) else d
  }

  function Result(d: Ram, o: M.Outcome): Word
    requires o.Done?
  {
    match o.access
    case Load(addr, ty) => LoadFrom(d, ty, addr)
    case _ => o.value
  }

  function AfterAccess(d: Ram, a: M.Access): Ram {
    match a
    case Store(addr, ty, data) => StoreTo(d, ty, addr, data)
    case _ => d
  }

  /** Retirements and traps of one step. */
  datatype Shown = Shown(commits: seq<M.Commit>, traps: seq<M.Trap>)

  function TrapTo(s: Whole, cause: Word, value: Word, vector: Word): (Whole, Shown) {
    (s.(arch := M.ToTrap(s.arch, s.arch.pc, cause, value, vector)), Shown([], [M.Trap(s.arch.pc, cause, value)]))
  }

  function WholeStep(mem: Fetch.Imem, ids: Csr.Ids, s: Whole, c: Env): (Whole, Shown) {
    match c
    case Interrupted(pins) =>
      var cause := Csr.IrqCause(s.arch.csr, pins);
      TrapTo(s, cause, 0, M.InterruptVector(s.arch.csr, cause))
    case Go(v, error) =>
      var f := Fetch.InstructionAt(mem, s.arch.pc);
      var o := M.Execute(ids, f, s.arch, v);
      match o
      case Except(cause, value) => TrapTo(s, cause, value, M.DirectVector(s.arch.csr))
      case Done(next, writes, rd, _, access, csr) =>
        if access != M.NoAccess && error then
          TrapTo(s, M.AccessFault(access), access.addr, M.DirectVector(s.arch.csr))
        else
          var x := if writes then Put(s.arch.x, rd, Result(s.ram, o)) else s.arch.x;
          (Whole(M.Arch(next, x, Csr.Retire(csr)), AfterAccess(s.ram, access)),
           Shown([M.Commit(s.arch.pc, f.raw, M.RegisterWrite(writes, rd, Result(s.ram, o)), M.MemoryWrite(access))],
                 []))
  }

  datatype WholeTrace = WholeTrace(final: Whole, shown: Shown)

  function WholeRun(code: M.Code, ids: Csr.Ids, s0: Whole, envs: seq<Env>): WholeTrace {
    if envs == [] then WholeTrace(s0, Shown([], []))
    else
      var n := |envs| - 1;
      var before := WholeRun(code, ids, s0, envs[..n]);
      var (s, e) := WholeStep(code(n), ids, before.final, envs[n]);
      WholeTrace(s, Shown(before.shown.commits + e.commits, before.shown.traps + e.traps))
  }

  // ---- A data port served by memory --------------------------------------------------------

  function Apply(d: Ram, t: M.Transfer): Ram {
    if t.write && !t.error && Mapped(d, t.addr) && t.strobes < 16 then ByStrobes(d, t.addr, t.data, t.strobes, 4) else d
  }

  function Contents(d: Ram, ts: seq<M.Transfer>): Ram {
    if ts == [] then d else Apply(Contents(d, ts[..|ts| - 1]), ts[|ts| - 1])
  }

  /** A read answers with the aligned word, or zero outside the memory; nothing is asked of errors. */
  predicate Answers(d: Ram, t: M.Transfer) {
    !t.write && !t.error ==> t.rdata == if Mapped(d, t.addr) then WordAt(d, t.addr) else 0
  }

  /** The transfers on the data port are those of one memory, whatever its wait states. */
  predicate Coherent(d: Ram, ts: seq<M.Transfer>) {
    ts == [] || (Coherent(d, ts[..|ts| - 1]) && Answers(Contents(d, ts[..|ts| - 1]), ts[|ts| - 1]))
  }

  lemma Extends(d: Ram, ts: seq<M.Transfer>, t: M.Transfer)
    ensures Contents(d, ts + [t]) == Apply(Contents(d, ts), t)
    ensures Coherent(d, ts + [t]) <==> Coherent(d, ts) && Answers(Contents(d, ts), t)
  {
    hide Apply, Answers;
    assert (ts + [t])[..|ts|] == ts;
  }

  // ---- One step ----------------------------------------------------------------------------

  /** What an access is known to be once the instruction was not refused. */
  predicate ProperAccess(a: M.Access) {
    match a
    case NoAccess => true
    case Load(addr, ty) => IsLoad(ty) && !LoadStore.Misaligned(ty, addr)
    case Store(addr, ty, data) => IsStore(ty) && !LoadStore.Misaligned(ty, addr)
  }

  lemma AccessesAreProper(ids: Csr.Ids, f: Fetch.Fetched, s: M.Arch, v: Csr.Volatile)
    ensures var o := M.Execute(ids, f, s, v); o.Done? ==> ProperAccess(o.access)
  {
    LegalAccess(f.instr);
    hide Legal, LoadStore.Misaligned, Wrap, M.RegisterOp, M.ImmediateOp, Csr.Read, Csr.Write, M.CsrResult, Csr.Return,
         ImmI, ImmS, ImmB, ImmJ, ImmU, Opcode, Funct3, Rs1, Rs2, Rd;
  }

  lemma LegalAccess(i: Word)
    ensures Legal(i) && Opcode(i) == OP_LOAD ==> IsLoad(Funct3(i))
    ensures Legal(i) && Opcode(i) == OP_STORE ==> IsStore(Funct3(i))
  {
  }

  lemma LoadAnswers(d: Ram, ty: nat, addr: Word, rdata: Word)
    requires IsLoad(ty) && !LoadStore.Misaligned(ty, addr)
    requires rdata == if Mapped(d, addr) then WordAt(d, addr) else 0
    ensures LoadStore.LoadData(ty, addr % 4, rdata) == LoadFrom(d, ty, addr)
  {
    if Mapped(d, addr) {
      AlignedAccess(d, ty, addr);
      LoadsAgree(d, ty, addr);
      hide FlatLoad, WordAt, LoadStore.LoadData, Mapped, LoadStore.Misaligned, Wrap, LoadStore.Size;
    } else {
      hide Mapped, LoadStore.Misaligned;
    }
  }

  lemma StoreApplies(d: Ram, ty: nat, addr: Word, data: Word, rdata: Word)
    requires IsStore(ty) && !LoadStore.Misaligned(ty, addr)
    ensures Apply(d, M.TransferOf(M.Store(addr, ty, data), rdata, false).value) == StoreTo(d, ty, addr, data)
  {
    if Mapped(d, addr) {
      AlignedAccess(d, ty, addr);
      StoresAgree(d, ty, addr, data);
    }
    hide FlatStore, ByStrobes, LoadStore.StoreData, LoadStore.ByteEnable, Mapped, LoadStore.Misaligned,
         LoadStore.Size;
  }

  function EnvOf(c: M.Choice): Env {
    match c
    case Proceed(v, rdata, error) => Go(v, error)
    case Interrupt(pins) => Interrupted(pins)
  }

  function EnvsOf(cs: seq<M.Choice>): (r: seq<Env>)
    ensures |r| == |cs|
  {
    seq(|cs|, i requires 0 <= i < |cs| => EnvOf(cs[i]))
  }

  /** One reference step whose transfer a memory answered is one step of the machine with memory. */
  lemma StepAgrees(mem: Fetch.Imem, ids: Csr.Ids, s: M.Arch, d: Ram, c: M.Choice)
    requires var e := M.Step(mem, ids, s, c).1; e.transfer.Some? ==> Answers(d, e.transfer.value)
    ensures var (t, e) := M.Step(mem, ids, s, c);
      WholeStep(mem, ids, Whole(s, d), EnvOf(c))
        == (Whole(t, if e.transfer.Some? then Apply(d, e.transfer.value) else d), Shown(M.AsSeq(e.commit),
                M.AsSeq(e.trap)))
  {
    if c.Proceed? {
      var f := Fetch.InstructionAt(mem, s.pc);
      AccessesAreProper(ids, f, s, c.v);
      var o := M.Execute(ids, f, s, c.v);
      if o.Done? {
        match o.access {
          case NoAccess =>
          case Load(addr, ty) => if !c.error { LoadAnswers(d, ty, addr, c.rdata); }
          case Store(addr, ty, data) => StoreApplies(d, ty, addr, data, c.rdata);
        }
      }
    }
    hide M.Execute, Fetch.InstructionAt, Csr.Retire, Csr.IrqCause, M.ToTrap, LoadStore.LoadData, LoadFrom, StoreTo,
         WordAt, Mapped, ByStrobes, LoadStore.StoreData, LoadStore.ByteEnable, LoadStore.Size, IsLoad, IsStore,
         LoadStore.Misaligned, M.InterruptVector, M.DirectVector, M.RegisterWrite;
  }

  // ---- Whole runs --------------------------------------------------------------------------

  lemma WholeRunExtends(code: M.Code, ids: Csr.Ids, s0: Whole, envs: seq<Env>, c: Env)
    ensures var before := WholeRun(code, ids, s0, envs);
      var (s, e) := WholeStep(code(|envs|), ids, before.final, c);
      WholeRun(code, ids, s0, envs + [c])
        == WholeTrace(s, Shown(before.shown.commits + e.commits, before.shown.traps + e.traps))
  {
    hide WholeStep;
    assert (envs + [c])[..|envs|] == envs;
  }

  lemma EnvsExtend(cs: seq<M.Choice>, c: M.Choice)
    ensures EnvsOf(cs + [c]) == EnvsOf(cs) + [EnvOf(c)]
  {
    hide EnvOf;
  }

  lemma EnvsAppend(a: seq<M.Choice>, b: seq<M.Choice>)
    ensures EnvsOf(a + b) == EnvsOf(a) + EnvsOf(b)
  {
    hide EnvOf;
  }

  /** The run of the machine with memory that a reference run amounts to. */
  ghost predicate SameRun(code: M.Code, ids: Csr.Ids, s0: M.Arch, d: Ram, cs: seq<M.Choice>) {
    var run := M.Run(code, ids, s0, cs);
    WholeRun(code, ids, Whole(s0, d), EnvsOf(cs))
      == WholeTrace(Whole(run.final, Contents(d, M.Transfers(run.events))), Shown(M.Commits(run.events),
              M.Traps(run.events)))
  }

  lemma TransfersExtend(d: Ram, ts: seq<M.Transfer>, o: Option<M.Transfer>)
    requires Coherent(d, ts + M.AsSeq(o))
    ensures Coherent(d, ts) && (o.Some? ==> Answers(Contents(d, ts), o.value))
    ensures Contents(d, ts + M.AsSeq(o)) == if o.Some? then Apply(Contents(d, ts), o.value) else Contents(d, ts)
  {
    hide Coherent, Contents, Apply, Answers;
    match o {
      case Some(t) => Extends(d, ts, t);
      case None => assert ts + [] == ts;
    }
  }

  lemma SameRunExtends(code: M.Code, ids: Csr.Ids, s0: M.Arch, d: Ram, cs: seq<M.Choice>, c: M.Choice)
    requires SameRun(code, ids, s0, d, cs) && Coherent(d, M.Transfers(M.Run(code, ids, s0, cs + [c]).events))
    ensures SameRun(code, ids, s0, d, cs + [c])
  {
    hide M.Step, WholeStep, EnvOf, EnvsOf, Coherent, Contents, Apply, Answers, M.Run, M.Commits, M.Traps, M.Transfers,
         WholeRun, M.Admissible, M.Possible, M.AsSeq;
    var before := M.Run(code, ids, s0, cs);
    var e := M.Step(code(|cs|), ids, before.final, c).1;
    M.RunExtends(code, ids, s0, cs, c);
    M.ProjectionsExtend(before.events, e);
    TransfersExtend(d, M.Transfers(before.events), e.transfer);
    StepAgrees(code(|cs|), ids, before.final, Contents(d, M.Transfers(before.events)), c);
    EnvsExtend(cs, c);
    WholeRunExtends(code, ids, Whole(s0, d), EnvsOf(cs), EnvOf(c));
  }

  lemma CoherentBefore(code: M.Code, ids: Csr.Ids, s0: M.Arch, d: Ram, cs: seq<M.Choice>, c: M.Choice)
    requires Coherent(d, M.Transfers(M.Run(code, ids, s0, cs + [c]).events))
    ensures Coherent(d, M.Transfers(M.Run(code, ids, s0, cs).events))
  {
    hide M.Step, Coherent, Contents, Apply, Answers, M.Run, M.Commits, M.Traps, M.Transfers, M.Admissible, M.Possible;
    var before := M.Run(code, ids, s0, cs);
    var e := M.Step(code(|cs|), ids, before.final, c).1;
    M.RunExtends(code, ids, s0, cs, c);
    M.ProjectionsExtend(before.events, e);
    TransfersExtend(d, M.Transfers(before.events), e.transfer);
  }

  lemma EmptySameRun(code: M.Code, ids: Csr.Ids, s0: M.Arch, d: Ram)
    ensures SameRun(code, ids, s0, d, [])
  {
    hide WholeStep, M.Step;
  }

  /** If a memory answered every transfer of a reference run, that run is the run of the machine with
      that memory. */
  lemma {:induction false} RunAgrees(code: M.Code, ids: Csr.Ids, s0: M.Arch, d: Ram, cs: seq<M.Choice>)
    requires Coherent(d, M.Transfers(M.Run(code, ids, s0, cs).events))
    ensures SameRun(code, ids, s0, d, cs)
  {
    hide Coherent, M.Run, M.Transfers, SameRun;
    if cs == [] {
      EmptySameRun(code, ids, s0, d);
    } else {
      var init, c := cs[..|cs| - 1], cs[|cs| - 1];
      assert cs == init + [c];
      CoherentBefore(code, ids, s0, d, init, c);
      RunAgrees(code, ids, s0, d, init);
      SameRunExtends(code, ids, s0, d, init, c);
    }
  }

  lemma DropOutstanding(d: Ram, ts: seq<M.Transfer>, st: State)
    requires Coherent(d, ts + Outstanding(st))
    ensures Coherent(d, ts)
  {
    hide Coherent, Contents, Answers;
    if st.latch.complete { Extends(d, ts, Outstanding(st)[0]); } else { assert ts + Outstanding(st) == ts; }
  }

  /** Whatever the reference run explains, the machine with memory explains too, if a memory answered. */
  lemma ExplainedWithMemory(code: M.Code, x: Flight, st: State, log: Log, v: Csr.Volatile, choices: seq<M.Choice>,
                            d: Ram)
    requires Explained(code, x, st, log, v, choices) && Coherent(d, log.transfers)
    ensures var run := WholeRun(code, x.cfg.ids, Whole(Start(x.cfg), d), EnvsOf(choices));
      && log.commits + Pending(st) == run.shown.commits
      && log.traps == run.shown.traps
      && (!st.latch.complete ==> Contents(d, log.transfers) == run.final.ram)
      && run.final.arch == M.Run(code, x.cfg.ids, Start(x.cfg), choices).final
  {
    hide M.Run, M.Admissible, Start, M.Commits, M.Traps, M.Transfers, Pending, Coherent, Contents, WholeRun, EnvsOf,
         Related;
    var run := M.Run(code, x.cfg.ids, Start(x.cfg), choices);
    DropOutstanding(d, M.Transfers(run.events), st);
    RunAgrees(code, x.cfg.ids, Start(x.cfg), d, choices);
    assert !st.latch.complete ==> log.transfers == M.Transfers(run.events);
  }

  /** From reset, for every instruction memory, every initial data memory and every schedule of ready
      signals, bus errors and interrupts: the pipeline commits and traps exactly as the sequential
      machine whose loads and stores act on a flat byte memory, and the data memory holds exactly
      what that machine has stored. */
  lemma PipelineRefinesMemoryMachine(w: World, st0: State, inputs: seq<Input>, d: Ram)
    requires Reset(w.cfg, st0) && AllServed(w, st0, inputs)
    requires Coherent(d, Play(w.cfg, st0, inputs).log.transfers)
    ensures var h := Play(w.cfg, st0, inputs);
      var run := WholeRun(M.Fixed(w.imem), w.cfg.ids, Whole(Start(w.cfg), d), EnvsOf(h.choices));
      && h.log.commits + Pending(h.st) == run.shown.commits
      && h.log.traps == run.shown.traps
      && (!h.st.latch.complete ==> Contents(d, h.log.transfers) == run.final.ram)
      && (!h.st.mem.valid ==> Written(h.st.regs, h.st.wb) == run.final.arch.x)
  {
    hide Reset, AllServed, Play, M.Run, M.Admissible, Start, M.Commits, M.Traps, M.Transfers, Pending, Coherent,
         Contents, WholeRun, EnvsOf, Explained, MemOk, CsrOk, ExOk, PathOk, MduOk, LatchOk, SleepOk, Fetch.Holds,
         Redirecting, Written, PcAfterMem, PcAfterEx;
    PipelineRefinesMachine(w, st0, inputs);
    var h := Play(w.cfg, st0, inputs);
    ExplainedWithMemory(M.Fixed(w.imem), Steady(w), h.st, h.log, h.seen, h.choices, d);
    var s := M.Run(M.Fixed(w.imem), w.cfg.ids, Start(w.cfg), h.choices).final;
    assert RelatedAt(Steady(w), h.st, s, h.seen, PcAfterMem(Steady(w), h.st.mem, s, h.seen));
  }
}
