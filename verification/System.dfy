/** The processor with its two AHB-Lite masters (tdrv32_top.sv): the pipeline is a master that holds
    its requests, so the buses see exactly the transfers of the reference machine. */
module System {
  import opened Words
  import opened Pipeline
  import opened Relation
  import opened Stalling
  import opened Simulation
  import opened Runs
  import opened Guarantees
  import Coherence
  import LoadStore
  import Fetch
  import Csr
  import B = Bridge
  import M = Machine

  datatype Top = Top(core: State, ibus: B.State, dbus: B.State)

  /** The pads of one cycle: both slaves, the interrupt lines and the time. */
  datatype Pads = Pads(ih: B.Slave, dh: B.Slave, pins: Csr.Pins, time: Dword)

  function InstructionPort(st: State): B.Native {
    B.Native(ImemValid(st), B.Request(false, Fetch.BusAddress(st.fb, st.pc), 0, 2))
  }

  function DataPort(st: State): B.Native {
    B.Native(DmemValid(st), B.Request(st.mem.memWrite, st.mem.alu, BusData(st), LoadStore.Size(st.mem.memType)))
  }

  /** What the pipeline sees through the bridges. */
  function CoreInput(t: Top, p: Pads): Input {
    var ia, da := B.Reply(t.ibus, p.ih), B.Reply(t.dbus, p.dh);
    Input(ia.ready, Fetch.Beat(ia.rdata, ia.error), da.ready, da.rdata, da.error, p.pins, p.time)
  }

  function TopStep(cfg: Config, t: Top, p: Pads): Top {
    Top(Step(cfg, t.core, CoreInput(t, p)),
        B.Clock(t.ibus, InstructionPort(t.core), p.ih), B.Clock(t.dbus, DataPort(t.core), p.dh))
  }

  /** core_sleep_gate.sv */
  predicate SleepOut(t: Top) { t.core.sleep && !B.Busy(t.ibus) && !B.Busy(t.dbus) }

  /** A run: the state, the inputs the pipeline saw, and a monitor on each bus. */
  datatype Journal = Journal(top: Top, inputs: seq<Input>, imon: B.Monitor, dmon: B.Monitor)

  function Advanced(cfg: Config, j: Journal, p: Pads): Journal {
    Journal(TopStep(cfg, j.top, p), j.inputs + [CoreInput(j.top, p)],
            B.Watch(j.imon, B.Drive(j.top.ibus, InstructionPort(j.top.core)), p.ih),
            B.Watch(j.dmon, B.Drive(j.top.dbus, DataPort(j.top.core)), p.dh))
  }

  function TopPlay(cfg: Config, core0: State, pads: seq<Pads>): Journal {
    if pads == [] then Journal(Top(core0, B.RESET, B.RESET), [], B.QUIET, B.QUIET)
    else Advanced(cfg, TopPlay(cfg, core0, pads[..|pads| - 1]), pads[|pads| - 1])
  }

  /** The bus's view of a data transfer: byte strobes are not carried by AHB-Lite. */
  function OnBus(t: M.Transfer): B.Transfer {
    B.Transfer(B.Control(t.addr, t.write, t.size), t.data, t.rdata, t.error)
  }

  function AllOnBus(ts: seq<M.Transfer>): seq<B.Transfer> {
    if ts == [] then [] else AllOnBus(ts[..|ts| - 1]) + [OnBus(ts[|ts| - 1])]
  }

  lemma OnBusExtends(ts: seq<M.Transfer>, o: Option<M.Transfer>)
    ensures AllOnBus(ts + M.AsSeq(o)) == AllOnBus(ts) + (match o case Some(t) => [OnBus(t)] case None => [])
  {
    match o {
      case Some(t) => assert (ts + [t])[..|ts|] == ts;
      case None => assert ts + [] == ts;
    }
  }

  // ---- The pipeline is a well-behaved master ------------------------------------------------

  lemma DataPortHolds(cfg: Config, t: Top, p: Pads)
    ensures B.Holds(t.dbus, DataPort(t.core), p.dh, DataPort(TopStep(cfg, t, p).core))
  {
    var i := CoreInput(t, p);
    hide Step, BusData, BusStrobes, ImemValid, DmemValid, LoadStore.Size;
    if DmemValid(t.core) && !i.dmemReady {
      DataRequestIsStable(cfg, t.core, i);
      assert Request(Step(cfg, t.core, i), 0, false) == Request(t.core, 0, false);
    }
  }

  lemma InstructionPortHolds(cfg: Config, t: Top, p: Pads)
    ensures B.Holds(t.ibus, InstructionPort(t.core), p.ih, InstructionPort(TopStep(cfg, t, p).core))
  {
    var i := CoreInput(t, p);
    hide Step, ImemValid, Fetch.BusAddress;
    if ImemValid(t.core) && !i.imemReady { FetchRequestIsStable(cfg, t.core, i); }
  }

  /** An answer on the data bridge is the pipeline's accepted transfer. */
  lemma AnswerIsTransfer(t: Top, p: Pads, m: B.Monitor)
    requires B.Paired(t.dbus, DataPort(t.core), m)
    ensures B.Completing(t.dbus, DataPort(t.core), p.dh)
         == match Transferring(t.core, CoreInput(t, p)) case Some(x) => [OnBus(x)] case None => []
  {
    hide BusData, BusStrobes, LoadStore.Size, DmemValid;
  }

  // ---- Runs --------------------------------------------------------------------------------

  /** What holds between the pipeline and both buses after every cycle.  Quantified over the pipeline's
      history, it unfolds only where a proof names that history. */
  ghost predicate Linked(cfg: Config, core0: State, j: Journal) {
    forall h :: h == Play(cfg, core0, j.inputs) ==>
      && j.top.core == h.st
      && B.Paired(j.top.ibus, InstructionPort(j.top.core), j.imon)
      && B.Paired(j.top.dbus, DataPort(j.top.core), j.dmon)
      && j.dmon.completed == AllOnBus(h.log.transfers)
      && B.Consistent(j.imon) && B.Consistent(j.dmon)
  }

  lemma CycleLinked(cfg: Config, core0: State, j: Journal, p: Pads)
    requires Linked(cfg, core0, j)
    ensures exists k :: k == Advanced(cfg, j, p) && Linked(cfg, core0, k)
  {
    hide Step, InstructionPort, DataPort, B.Watch, B.Drive, B.Clock, B.Paired, B.Completing, B.Holds, B.Consistent,
         CoreInput, Transferring, Play, AllOnBus, Committing, Trapping, Seen, Choices;
    var i, after := CoreInput(j.top, p), TopStep(cfg, j.top, p);
    PlayExtends(cfg, core0, j.inputs, i);
    InstructionPortHolds(cfg, j.top, p);
    DataPortHolds(cfg, j.top, p);
    B.ClockPairs(j.top.ibus, InstructionPort(j.top.core), p.ih, j.imon, InstructionPort(after.core));
    B.ClockPairs(j.top.dbus, DataPort(j.top.core), p.dh, j.dmon, DataPort(after.core));
    AnswerIsTransfer(j.top, p, j.dmon);
    OnBusExtends(Play(cfg, core0, j.inputs).log.transfers, Transferring(j.top.core, i));
    B.WatchIsConsistent(j.imon, B.Drive(j.top.ibus, InstructionPort(j.top.core)), p.ih);
    B.WatchIsConsistent(j.dmon, B.Drive(j.top.dbus, DataPort(j.top.core)), p.dh);
    assert Linked(cfg, core0, Advanced(cfg, j, p));
  }

  ghost predicate StaysLinked(cfg: Config, core0: State, pads: seq<Pads>) {
    exists j :: j == TopPlay(cfg, core0, pads) && Linked(cfg, core0, j)
  }

  lemma {:induction false} AlwaysLinked(cfg: Config, core0: State, pads: seq<Pads>)
    ensures StaysLinked(cfg, core0, pads)
  {
    hide Linked, Advanced, Play;
    if pads == [] {
      StartLinked(cfg, core0);
    } else {
      var n := |pads| - 1;
      AlwaysLinked(cfg, core0, pads[..n]);
      CycleLinked(cfg, core0, TopPlay(cfg, core0, pads[..n]), pads[n]);
    }
  }

  lemma StartLinked(cfg: Config, core0: State)
    ensures Linked(cfg, core0, Journal(Top(core0, B.RESET, B.RESET), [], B.QUIET, B.QUIET))
  {
    hide InstructionPort, DataPort;
  }

  /** From reset, for every behaviour of both slaves: the transfers completed on the data bus are,
      in order and once each, the transfers of the reference run, and at most the youngest one is
      ahead of the retirement of its instruction. */
  lemma DataBusRefinesMachine(w: World, core0: State, pads: seq<Pads>)
    requires Reset(w.cfg, core0) && AllServed(w, core0, TopPlay(w.cfg, core0, pads).inputs)
    ensures var j := TopPlay(w.cfg, core0, pads);
      var run := M.Run(M.Fixed(w.imem), w.cfg.ids, Start(w.cfg), Play(w.cfg, core0, j.inputs).choices);
      && j.dmon.completed == AllOnBus(M.Transfers(run.events) + Outstanding(j.top.core))
      && j.dmon.accepted == B.Controls(j.dmon.completed) + B.AsSeq(j.dmon.pending)
      && j.imon.accepted == B.Controls(j.imon.completed) + B.AsSeq(j.imon.pending)
  {
    var j := TopPlay(w.cfg, core0, pads);
    hide Reset, AllServed, TopPlay, Play, M.Run, M.Admissible, Start, M.Transfers, M.Commits, M.Traps, Outstanding,
         AllOnBus, Related, Explained, InstructionPort, DataPort, Pending;
    AlwaysLinked(w.cfg, core0, pads);
    PipelineRefinesMachine(w, core0, j.inputs);
  }

  /** When the core sleeps both bridges are idle, so the external sleep gate never delays the report,
      and neither bus starts a transfer. */
  lemma SleepMeansIdleBuses(cfg: Config, core0: State, pads: seq<Pads>)
    requires Reset(cfg, core0)
    ensures var t := TopPlay(cfg, core0, pads).top;
      && (SleepOut(t) <==> t.core.sleep)
      && (SleepOut(t) ==> B.Drive(t.ibus, InstructionPort(t.core)).trans == B.Idle)
      && (SleepOut(t) ==> B.Drive(t.dbus, DataPort(t.core)).trans == B.Idle)
  {
    var j := TopPlay(cfg, core0, pads);
    hide Reset, TopPlay, Play, ImemValid, DmemValid, AllOnBus, BusData;
    AlwaysLinked(cfg, core0, pads);
    SleepIsQuiet(cfg, core0, j.inputs);
  }

  /** Bytes of a transfer of this size. */
  function Bytes(size: nat): nat { if size == 0 then 1 else if size == 1 then 2 else 4 }

  /** The access of the instruction in MEM is aligned to its size. */
  lemma DataIsAligned(w: Flight, st: State, s: M.Arch, v: Csr.Volatile)
    requires Related(w, st, s, v) && DmemValid(st)
    ensures LoadStore.Size(st.mem.memType) <= 2 && st.mem.alu % Bytes(LoadStore.Size(st.mem.memType)) == 0
  {
    hide Related, M.Execute, Fetch.InstructionAt, StoreOperand, MemForward;
    RelatedCore(w, st, s, v);
    Coherence.AccessesAreProper(w.cfg.ids, Fetch.InstructionAt(w.mem, s.pc), s, v);
  }

  /** Every address phase, in every run: a fetch reads an aligned word, and a data transfer is a byte, an aligned
      halfword or an aligned word. */
  lemma TransfersAreAligned(cfg: Config, core0: State, pads: seq<Pads>)
    requires Reset(cfg, core0)
    ensures var t := TopPlay(cfg, core0, pads).top;
      var i, d := B.Drive(t.ibus, InstructionPort(t.core)), B.Drive(t.dbus, DataPort(t.core));
      && (i.trans == B.Nonseq ==> !i.write && i.size == 2 && i.addr % 4 == 0)
      && (d.trans == B.Nonseq ==> d.size <= 2 && d.addr % Bytes(d.size) == 0)
  {
    hide Reset, TopPlay, Play, Related, DmemValid, ImemValid, BusData, LoadStore.Size, Bytes;
    AlwaysLinked(cfg, core0, pads);
    var j := TopPlay(cfg, core0, pads);
    AlwaysDescribed(cfg, core0, j.inputs);
    assert j.top.core == Play(cfg, core0, j.inputs).st;
    var x: Flight, s: M.Arch, v: Csr.Volatile :| Related(x, j.top.core, s, v) && x.cfg == cfg;
    if DmemValid(j.top.core) { DataIsAligned(x, j.top.core, s, v); }
  }
}
