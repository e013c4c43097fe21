/** The processor closed with an AHB-Lite memory on each bus (ahb_memory.py, as test_top.py builds it):
    separate instruction and data memories, any wait states, any failing addresses. */
module AhbBench {
  import opened Words
  import opened Memory
  import opened Pipeline
  import opened Relation
  import opened Stalling
  import opened Runs
  import opened Guarantees
  import opened Coherence
  import opened Progress
  import opened System
  import LoadStore
  import Fetch
  import Harness
  import Simulation
  import Csr
  import A = AhbSlave
  import B = Bridge
  import M = Machine

  datatype Setup = Setup(cfg: Config, i: A.Setup, d: A.Setup)

  /** The processor with its monitors, and the two slaves. */
  datatype Bench = Bench(j: Journal, im: A.State, dm: A.State)

  function Loaded(core0: State, iram: Ram, dram: Ram): Bench {
    Bench(Journal(Top(core0, B.RESET, B.RESET), [], B.QUIET, B.QUIET), A.Loaded(iram), A.Loaded(dram))
  }

  function PadsOf(u: Setup, b: Bench, p: Harness.Pins): Pads {
    Pads(A.Drive(u.i, b.im), A.Drive(u.d, b.dm), p.irq, p.time)
  }

  function BenchStep(u: Setup, b: Bench, p: Harness.Pins): Bench {
    var top := b.j.top;
    Bench(Advanced(u.cfg, b.j, PadsOf(u, b, p)),
          A.Clock(u.i, b.im, B.Drive(top.ibus, InstructionPort(top.core))),
          A.Clock(u.d, b.dm, B.Drive(top.dbus, DataPort(top.core))))
  }

  function BenchPlay(u: Setup, b0: Bench, pins: seq<Harness.Pins>): Bench {
    if pins == [] then b0 else BenchStep(u, BenchPlay(u, b0, pins[..|pins| - 1]), pins[|pins| - 1])
  }

  function Code(u: Setup, iram: Ram): Fetch.Imem {
    (a: Word) => Fetch.Beat(A.ReadWord(u.i, iram, a), a in u.i.errors)
  }

  function WorldOf(u: Setup, iram: Ram): World { World(Code(u, iram), u.cfg) }

  // ---- Data transfers ----------------------------------------------------------------------

  /** In every reachable state the store presented in MEM is a defined, aligned one. */
  lemma StoreIsProper(w: Flight, st: State, s: M.Arch, v: Csr.Volatile)
    requires Related(w, st, s, v) && st.mem.memWrite
    ensures IsStore(st.mem.memType) && !LoadStore.Misaligned(st.mem.memType, st.mem.alu)
  {
    hide Related, M.Execute, Fetch.InstructionAt, CsrOk, StoreOperand, MemForward, Written, LoadStore.Misaligned;
    Simulation.RelatedCore(w, st, s, v);
    AccessesAreProper(w.cfg.ids, Fetch.InstructionAt(w.mem, s.pc), s, v);
  }

  /** Sizes for which checking the containing word and checking the bytes written are the same: whole
      words, or the whole address space. */
  predicate Regular(d: Ram) { |d| % 4 == 0 || |d| >= 0x1_0000_0000 }

  lemma RangesAgree(d: Ram, ty: nat, addr: Word)
    requires IsStore(ty) && !LoadStore.Misaligned(ty, addr) && Regular(d)
    ensures Mapped(d, addr) <==> addr + Width(LoadStore.Size(ty)) <= |d|
  {
  }

  lemma LastByteDiffers(d: Ram)
    requires !Regular(d)
    ensures var addr: Word := |d| - 1;
      addr + Width(LoadStore.Size(LoadStore.MEM_BYTE)) <= |d| && !Mapped(d, addr)
      && IsStore(LoadStore.MEM_BYTE) && !LoadStore.Misaligned(LoadStore.MEM_BYTE, addr)
  {
  }

  /** NativeMemory checks the containing word and AHBLiteMemory the bytes written; they accept the same
      aligned stores exactly when the memory is a whole number of words or the whole address space. */
  lemma RangesAgreeIffRegular(d: Ram)
    ensures Regular(d) <==>
      forall ty: nat, addr: Word :: IsStore(ty) && !LoadStore.Misaligned(ty, addr) ==>
        (Mapped(d, addr) <==> addr + Width(LoadStore.Size(ty)) <= |d|)
  {
    hide Mapped, LoadStore.Misaligned, LoadStore.Size, Width, IsStore;
    if Regular(d) {
      forall ty: nat, addr: Word | IsStore(ty) && !LoadStore.Misaligned(ty, addr)
        ensures Mapped(d, addr) <==> addr + Width(LoadStore.Size(ty)) <= |d|
      {
        RangesAgree(d, ty, addr);
      }
    } else {
      LastByteDiffers(d);
      var ty: nat, addr: Word := LoadStore.MEM_BYTE, |d| - 1;
      assert IsStore(ty) && !LoadStore.Misaligned(ty, addr);
      assert !(Mapped(d, addr) <==> addr + Width(LoadStore.Size(ty)) <= |d|);
    }
  }

  /** A proper store is the same to the strobed memory and to the one written by address and size. */
  lemma WriteApplies(u: A.Setup, ram: Ram, ty: nat, addr: Word, data: Word, rdata: Word, error: bool)
    requires IsStore(ty) && !LoadStore.Misaligned(ty, addr) && Regular(ram) && error == (addr in u.errors)
    ensures var t := M.Transfer(true, addr, LoadStore.StoreData(ty, addr % 4, data), LoadStore.ByteEnable(ty, addr % 4),
                                LoadStore.Size(ty), rdata, error);
      A.AfterWrite(u, ram, B.Control(addr, true, LoadStore.Size(ty)), t.data) == Apply(ram, t)
  {
    RangesAgree(ram, ty, addr);
    if Mapped(ram, addr) {
      AlignedAccess(ram, ty, addr);
      StoresAgree(ram, ty, addr, data);
    }
    hide FlatStore, ByStrobes, ByAddress, LoadStore.StoreData, LoadStore.ByteEnable, Mapped, LoadStore.Misaligned,
         LoadStore.Size, Width;
  }

  /** The transfer the pipeline completes is answered from the data memory and applied to it. */
  lemma DataCoheres(u: Setup, b: Bench, p: Harness.Pins, w: Flight, s: M.Arch, v: Csr.Volatile)
    requires Related(w, b.j.top.core, s, v) && Regular(b.dm.ram)
    requires B.Paired(b.j.top.dbus, DataPort(b.j.top.core), b.j.dmon) && A.Agrees(b.j.top.dbus, b.dm, b.j.dmon)
    requires !u.d.instructionPort
    ensures var ram := BenchStep(u, b, p).dm.ram;
      match Transferring(b.j.top.core, CoreInput(b.j.top, PadsOf(u, b, p)))
      case Some(t) => Answers(b.dm.ram, t) && ram == Apply(b.dm.ram, t)
      case None => ram == b.dm.ram
  {
    var st := b.j.top.core;
    hide Related, Advanced, BusData, BusStrobes, Mapped, WordAt, ByStrobes, A.AfterWrite, Apply, B.Watch, Requests,
         InstructionPort;
    if B.Busy(b.j.top.dbus) && A.Drive(u.d, b.dm).ready {
      var error := st.mem.alu in u.d.errors;
      var rdata := A.ReadWord(u.d, b.dm.ram, st.mem.alu);
      if st.mem.memWrite {
        StoreIsProper(w, st, s, v);
        StoreBus(st);
        WriteApplies(u.d, b.dm.ram, st.mem.memType, st.mem.alu, StoreOperand(st.mem, st.wb), rdata, error);
      } else {
        ReadLeaves(u.d, b.dm.ram, B.Control(st.mem.alu, false, LoadStore.Size(st.mem.memType)), BusData(st),
                   Request(st, rdata, error));
      }
    }
  }

  lemma StoreBus(st: State)
    requires st.mem.memWrite
    ensures BusData(st) == LoadStore.StoreData(st.mem.memType, st.mem.alu % 4, StoreOperand(st.mem, st.wb))
    ensures BusStrobes(st) == LoadStore.ByteEnable(st.mem.memType, st.mem.alu % 4)
  {
    hide StoreOperand, LoadStore.StoreData, LoadStore.ByteEnable;
  }

  lemma ReadLeaves(u: A.Setup, ram: Ram, c: B.Control, wdata: Word, t: M.Transfer)
    requires !c.write && !t.write
    ensures A.AfterWrite(u, ram, c, wdata) == ram == Apply(ram, t)
  {
  }

  // ---- Latency -----------------------------------------------------------------------------

  function Patience(u: Setup): nat { Harness.Bigger(u.i.waitStates, u.d.waitStates) + 3 }

  /** The request on a port has been refused `waited` times and will be answered in time. */
  predicate InTime(u: A.Setup, s: A.State, n: B.Native, waited: nat) {
    if n.valid then waited + A.Remaining(u, s, n) <= u.waitStates + 3 else waited == 0
  }

  lemma PortInTime(u: A.Setup, b: B.State, s: A.State, n: B.Native, m: B.Monitor, n': B.Native, waited: nat)
    requires InTime(u, s, n, waited) && B.Paired(b, n, m) && A.Agrees(b, s, m)
    requires n.valid && !B.Reply(b, A.Drive(u, s)).ready ==> n' == n
    ensures var ready := B.Reply(b, A.Drive(u, s)).ready;
      && (n.valid && waited + 1 >= u.waitStates + 3 ==> ready)
      && InTime(u, A.Clock(u, s, B.Drive(b, n)), n', if n.valid && !ready then waited + 1 else 0)
  {
    hide A.ReadWord, A.AfterWrite;
    if n.valid { A.AnswersInTime(u, b, n, s); }
  }

  // ---- Runs --------------------------------------------------------------------------------

  ghost predicate Serving(u: Setup, core0: State, iram: Ram, dram: Ram, b: Bench) {
    var h, q := Play(u.cfg, core0, b.j.inputs), Watch(u.cfg, core0, b.j.inputs).waits;
    && Linked(u.cfg, core0, b.j)
    && A.Agrees(b.j.top.ibus, b.im, b.j.imon) && A.Agrees(b.j.top.dbus, b.dm, b.j.dmon)
    && InTime(u.i, b.im, InstructionPort(b.j.top.core), q.imem) && InTime(u.d, b.dm, DataPort(b.j.top.core), q.dmem)
    && AllPrompt(Patience(u), u.cfg, core0, b.j.inputs)
    && AllServed(WorldOf(u, iram), core0, b.j.inputs)
    && b.im.ram == iram && |b.dm.ram| == |dram|
    && Coherent(dram, h.log.transfers) && b.dm.ram == Contents(dram, h.log.transfers)
  }

  /** The instruction bus returns the instruction memory's contents, which nothing ever changes. */
  lemma FetchServed(u: Setup, b: Bench, p: Harness.Pins)
    requires B.Paired(b.j.top.ibus, InstructionPort(b.j.top.core), b.j.imon) && A.Agrees(b.j.top.ibus, b.im, b.j.imon)
    ensures Served(Code(u, b.im.ram), b.j.top.core, CoreInput(b.j.top, PadsOf(u, b, p)))
    ensures BenchStep(u, b, p).im.ram == b.im.ram
  {
    hide A.ReadWord, Advanced, Fetch.BusAddress, ImemValid, DataPort;
  }

  lemma CycleLatency(u: Setup, b: Bench, p: Harness.Pins, q: Waits)
    requires InTime(u.i, b.im, InstructionPort(b.j.top.core), q.imem) && InTime(u.d, b.dm, DataPort(b.j.top.core),
            q.dmem)
    requires B.Paired(b.j.top.ibus, InstructionPort(b.j.top.core), b.j.imon) && A.Agrees(b.j.top.ibus, b.im, b.j.imon)
    requires B.Paired(b.j.top.dbus, DataPort(b.j.top.core), b.j.dmon) && A.Agrees(b.j.top.dbus, b.dm, b.j.dmon)
    ensures var i, t := CoreInput(b.j.top, PadsOf(u, b, p)), BenchStep(u, b, p);
      var q' := NextWaits(b.j.top.core, i, q);
      && Prompt(Patience(u), b.j.top.core, i, q)
      && InTime(u.i, t.im, InstructionPort(t.j.top.core), q'.imem) && InTime(u.d, t.dm, DataPort(t.j.top.core), q'.dmem)
  {
    hide InTime, Step, ImemValid, DmemValid, BusData, Fetch.BusAddress, A.Drive, A.Clock, B.Drive, B.Watch, B.Clock,
         B.Paired, A.Agrees, LoadStore.Size;
    var t, pads := b.j.top, PadsOf(u, b, p);
    var t' := TopStep(u.cfg, t, pads);
    InstructionPortHolds(u.cfg, t, pads);
    DataPortHolds(u.cfg, t, pads);
    PortInTime(u.i, t.ibus, b.im, InstructionPort(t.core), b.j.imon, InstructionPort(t'.core), q.imem);
    PortInTime(u.d, t.dbus, b.dm, DataPort(t.core), b.j.dmon, DataPort(t'.core), q.dmem);
  }

  lemma WorldIs(u: Setup, iram: Ram)
    ensures WorldOf(u, iram).cfg == u.cfg && WorldOf(u, iram).imem == Code(u, iram)
  {
  }

  lemma ApplyKeepsSize(ram: Ram, t: M.Transfer)
    ensures |Apply(ram, t)| == |ram|
  {
  }

  ghost predicate StaysServing(u: Setup, core0: State, iram: Ram, dram: Ram, pins: seq<Harness.Pins>) {
    exists b :: b == BenchPlay(u, Loaded(core0, iram, dram), pins) && Serving(u, core0, iram, dram, b)
  }

  lemma {:induction false} AlwaysServing(u: Setup, core0: State, iram: Ram, dram: Ram, pins: seq<Harness.Pins>)
    requires Reset(u.cfg, core0) && Regular(dram) && !u.d.instructionPort
    ensures StaysServing(u, core0, iram, dram, pins)
  {
    hide Step, Play, Watch, AllPrompt, AllServed, Prompt, Served, Coherent, Contents, Apply, Answers, InTime,
         A.Agrees, B.Paired, B.Consistent, AllOnBus, Transferring, Committing, Trapping, NextWaits, Eventful, Advance,
         InstructionPort, DataPort, A.Clock, A.Drive, B.Clock, B.Drive, B.Watch, CoreInput, Reset, Related, Explained,
         M.Run, M.Admissible, M.Commits, M.Traps, M.Transfers, Start, Pending, Outstanding, WorldOf, Patience,
         Loaded;
    if pins == [] {
      StartServing(u, core0, iram, dram);
    } else {
      var n := |pins| - 1;
      var b, p := BenchPlay(u, Loaded(core0, iram, dram), pins[..n]), pins[n];
      AlwaysServing(u, core0, iram, dram, pins[..n]);
      var w, i, h := WorldOf(u, iram), CoreInput(b.j.top, PadsOf(u, b, p)), Play(u.cfg, core0, b.j.inputs);
      WorldIs(u, iram);
      PipelineRefinesMachine(w, core0, b.j.inputs);
      PlayExtends(u.cfg, core0, b.j.inputs, i);
      ServedExtends(w, core0, b.j.inputs, i);
      Harness.WatchExtends(Patience(u), u.cfg, core0, b.j.inputs, i);
      CycleLinked(u.cfg, core0, b.j, PadsOf(u, b, p));
      A.NothingIsLost(u.i, b.j.top.ibus, InstructionPort(b.j.top.core), b.im, b.j.imon);
      A.NothingIsLost(u.d, b.j.top.dbus, DataPort(b.j.top.core), b.dm, b.j.dmon);
      FetchServed(u, b, p);
      CycleLatency(u, b, p, Watch(u.cfg, core0, b.j.inputs).waits);
      DataCoheres(u, b, p, Steady(w), M.Run(M.Fixed(w.imem), w.cfg.ids, Start(w.cfg), h.choices).final, h.seen);
      match Transferring(b.j.top.core, i) {
        case Some(t) =>
          Extends(dram, h.log.transfers, t);
          ApplyKeepsSize(b.dm.ram, t);
        case None => assert h.log.transfers + [] == h.log.transfers;
      }
    }
    assert Serving(u, core0, iram, dram, BenchPlay(u, Loaded(core0, iram, dram), pins));
  }

  lemma StartServing(u: Setup, core0: State, iram: Ram, dram: Ram)
    ensures Serving(u, core0, iram, dram, Loaded(core0, iram, dram))
  {
    hide InstructionPort, DataPort;
    StartLinked(u.cfg, core0);
    StartInTime(u, core0, iram, dram);
    hide Linked, InTime;
  }

  lemma StartInTime(u: Setup, core0: State, iram: Ram, dram: Ram)
    ensures InTime(u.i, A.Loaded(iram), InstructionPort(core0), 0) && InTime(u.d, A.Loaded(dram), DataPort(core0), 0)
  {
    hide InstructionPort, DataPort;
  }

  /** The closed processor.  For every instruction and data image, wait states and failing addresses on
      either bus, interrupt and time inputs, and any number of cycles: the processor commits and traps
      exactly as the sequential machine on a flat byte memory, the data memory, written by address and
      size alone, is what that machine's stores leave, and the bounds on stalls and on silence hold. */
  lemma ProcessorRefinesMemoryMachine(u: Setup, core0: State, iram: Ram, dram: Ram, pins: seq<Harness.Pins>)
    requires Reset(u.cfg, core0) && Regular(dram) && !u.d.instructionPort
    ensures var b := BenchPlay(u, Loaded(core0, iram, dram), pins);
      var w := WorldOf(u, iram);
      var h := Play(u.cfg, core0, b.j.inputs);
      var run := WholeRun(M.Fixed(w.imem), u.cfg.ids, Whole(Start(w.cfg), dram), EnvsOf(h.choices));
      var k := Watch(u.cfg, core0, b.j.inputs);
      && h.log.commits + Pending(b.j.top.core) == run.shown.commits
      && h.log.traps == run.shown.traps
      && (!b.j.top.core.latch.complete ==> b.dm.ram == run.final.ram)
      && k.stalled <= Bound(Patience(u)) && k.silent < 5 * (Bound(Patience(u)) + 1)
  {
    hide Reset, AllServed, Play, Watch, AllPrompt, Coherent, Contents, WholeRun, EnvsOf, Pending, Bound, Patience,
         BenchPlay, Loaded, WorldOf, Start, OnTime, InTime, A.Agrees, B.Paired, B.Consistent, AllOnBus;
    var b, w := BenchPlay(u, Loaded(core0, iram, dram), pins), WorldOf(u, iram);
    WorldIs(u, iram);
    AlwaysServing(u, core0, iram, dram, pins);
    PipelineRefinesMemoryMachine(w, core0, b.j.inputs, dram);
    PatiencePositive(u);
    PipelineKeepsGoing(Patience(u), u.cfg, core0, b.j.inputs);
  }

  lemma PatiencePositive(u: Setup)
    ensures Patience(u) > 0
  {
  }
}
