/** The pipeline as clocked hardware: its registers and sub-units, one Tick per clock edge, and a
    ghost copy of the reference run that every Tick keeps in step. */
module Core {
  import opened Words
  import Decode
  import opened Stages
  import opened Pipeline
  import opened Relation
  import opened Simulation
  import opened Runs
  import Fetch
  import RegisterFile
  import Csr
  import Software
  import Mdu
  import M = Machine

  class Pipe {
    const cfg: Config

    const fetch: Fetch.Buffer
    const ifid: IfIdRegister
    const idex: IdExRegister
    const exmem: ExMemRegister
    const memwb: MemWbRegister
    const regs: RegisterFile.File
    const csr: Csr.File
    const mdu: Mdu.Unit

    var pc: Word
    var sleep: bool
    var dmemComplete: bool
    var dmemErrorPending: bool
    var dmemRdataLatched: Word

    /** What an observer has seen, and the reference run that explains it. */
    ghost var log: Log
    ghost var seen: Csr.Volatile
    ghost var choices: seq<M.Choice>

    predicate Valid() {
      regs.Valid() && mdu.Valid()
    }

    function View(): State
      requires Valid()
      reads `pc, `sleep, `dmemComplete, `dmemErrorPending, `dmemRdataLatched
      reads fetch, ifid, idex, exmem, memwb, regs.storage, regs.valid, csr, mdu.mul, mdu.div
    {
      State(pc, fetch.View(), ifid.q, idex.q, exmem.q, memwb.q, regs.View(), csr.View(), csr.mcycle, mdu.View(),
            sleep, Latch(dmemComplete, dmemErrorPending, dmemRdataLatched))
    }

    /** The reference machine explains this core's state and everything it has shown so far. */
    ghost predicate Sound(imem: Fetch.Imem)
      requires Valid()
      reads this, fetch, ifid, idex, exmem, memwb, regs.storage, regs.valid, csr, mdu.mul, mdu.div
    {
      Explained(M.Fixed(imem), Steady(World(imem, cfg)), View(), log, seen, choices)
    }

    /** Reset: the payload registers come up with arbitrary values. */
    constructor (cfg: Config, id: IfId, ex: IdEx, mem: ExMem, wb: MemWb, rdata: Word)
      ensures this.cfg == cfg && Valid()
      ensures fresh(fetch) && fresh(ifid) && fresh(idex) && fresh(exmem) && fresh(memwb) && fresh(regs.storage)
           && fresh(regs.valid) && fresh(csr) && fresh(mdu.mul) && fresh(mdu.div)
      ensures Reset(cfg, View())
      ensures log == SILENT && choices == []
      ensures forall imem :: Sound(imem)
    {
      hide Explained, RegisterFile.ResetView, RegisterFile.ResetValue, RegisterFile.File.View, Mdu.Unit.View,
           Fetch.Buffer.View, Csr.File.View;
      this.cfg := cfg;
      fetch := new Fetch.Buffer();
      ifid := new IfIdRegister(id);
      idex := new IdExRegister(ex);
      exmem := new ExMemRegister(mem);
      memwb := new MemWbRegister(wb);
      regs := new RegisterFile.File();
      csr := new Csr.File();
      mdu := new Mdu.Unit();
      pc, sleep, dmemComplete, dmemErrorPending, dmemRdataLatched := cfg.reset, false, false, false, rdata;
      log, seen, choices := SILENT, Csr.Volatile(0, 0, Csr.Pins(false, false, false)), [];
      new;
      assert Reset(cfg, View());
      forall imem ensures Sound(imem) { ResetExplained(M.Fixed(imem), Steady(World(imem, cfg)), View(), seen); }
    }

    /** The PC, sleep and transfer-latch processes of the pipeline module itself. */
    method TickOwn(st: State, i: Input)
      requires Valid() && st == View()
      modifies `pc, `sleep, `dmemComplete, `dmemErrorPending, `dmemRdataLatched
      ensures pc == NextPc(cfg, st, i) && sleep == NextSleep(cfg, st, i)
      ensures Latch(dmemComplete, dmemErrorPending, dmemRdataLatched) == NextLatch(st, i)
      ensures old(sleep) ==> (sleep <==> !Software.Waiting(st.csr.enables, i.pins))
    {
      Software.InterruptIsSeen(st.csr, i.pins, Csr.Volatile(st.mcycle, i.time, i.pins), cfg.ids);
      hide Advance, WfiSleep, SystemRedirect, Redirecting, StallId, RedirectPc, NormalNext, Csr.WakePending;
      var advance, accepted := Advance(st, i), Accepted(st, i);
      if !PcHold(cfg, st, i) {
        pc := if SystemRedirect(cfg, st, i) then RedirectPc(cfg, st, i) else NormalNext(st, i);
      }
      if sleep && Csr.WakePending(st.csr, i.pins) {
        sleep := false;
      } else if WfiSleep(cfg, st, i) {
        sleep := true;
      }
      if accepted && !advance { dmemRdataLatched := i.dmemRdata; }
      if !Requests(st.mem) || advance {
        dmemComplete, dmemErrorPending := false, false;
      } else if accepted {
        dmemComplete, dmemErrorPending := true, i.dmemError;
      }
    }

    /** The four stage registers, each sampling the old state. */
    method TickStages(st: State, i: Input)
      requires Valid() && ifid.q == st.id && idex.q == st.ex && exmem.q == st.mem && memwb.q == st.wb
      modifies ifid, idex, exmem, memwb
      ensures ifid.q == NextId(cfg, st, i) && idex.q == NextEx(cfg, st, i)
      ensures exmem.q == NextMem(cfg, st, i) && memwb.q == NextWb(st, i)
    {
      hide Advance, FlushIfId, FlushIdEx, StallId, TrapEnter, IfIdInput, IdExInput, ExMemInput, MemWbInput, NextIfId,
           NextIdEx, NextExMem, NextMemWb;
      var advance := Advance(st, i);
      ifid.Tick(StallId(st) || !advance, FlushIfId(cfg, st, i), IfIdInput(st, i));
      idex.Tick(!advance, FlushIdEx(cfg, st, i), IdExInput(st, i));
      exmem.Tick(!advance, TrapEnter(cfg, st, i), ExMemInput(cfg, st, i));
      memwb.Tick(!advance, MemWbInput(st, i));
    }

    /** The fetch buffer, register file, CSR file and multiply/divide unit. */
    method TickUnits(st: State, i: Input)
      requires Valid() && fetch.View() == st.fb && regs.View() == st.regs
      requires csr.View() == st.csr && csr.mcycle == st.mcycle && mdu.View() == st.mdu
      modifies fetch, regs.storage, regs.valid, csr, mdu.mul, mdu.div
      ensures fetch.View() == NextFetch(cfg, st, i) && regs.View() == NextRegs(st, i) && mdu.View() == NextMdu(st, i)
      ensures csr.View() == Csr.Clock(st.csr, CsrCommand(cfg, st, i))
      ensures csr.mcycle == Csr.ClockCycle(st.mcycle, st.csr, CsrCommand(cfg, st, i))
    {
      hide Advance, FlushIfId, StallId, Response, FetchOut, WriteEnable, CsrCommand, MduActive, OperandA, OperandB,
           AluA, AluB, BusStall, Fetch.Clock, RegisterFile.Clock, Csr.Clock, Csr.ClockCycle, Mdu.WordClock,
           Decode.Funct3, Fetch.Buffer.View, RegisterFile.File.View, Csr.File.View, Mdu.Unit.View;
      var advance := Advance(st, i);
      fetch.Tick(st.pc, Response(st, i), FlushIfId(cfg, st, i) && advance,
                 FetchOut(st, i).complete && !StallId(st) && advance);
      regs.Tick(WriteEnable(st, i), st.wb.rd, st.wb.data);
      csr.Tick(CsrCommand(cfg, st, i));
      mdu.Tick(MduActive(st.ex), Decode.Funct3(st.ex.instr), AluA(st.ex, OperandA(st)), AluB(st.ex, OperandB(st)),
               !BusStall(st, i));
    }

    /** One clock edge: every register samples the same old state. */
    method Edge(i: Input)
      requires Valid()
      modifies `pc, `sleep, `dmemComplete, `dmemErrorPending, `dmemRdataLatched
      modifies fetch, ifid, idex, exmem, memwb, regs.storage, regs.valid, csr, mdu.mul, mdu.div
      ensures View() == Step(cfg, old(View()), i)
    {
      hide NextPc, NextFetch, NextId, NextEx, NextMem, NextWb, NextRegs, NextMdu, NextSleep, NextLatch, CsrCommand,
           Csr.Clock, Csr.ClockCycle, Fetch.Buffer.View, RegisterFile.File.View, Csr.File.View, Mdu.Unit.View;
      var st := View();
      TickOwn(st, i);
      TickStages(st, i);
      TickUnits(st, i);
    }

    /** A clock edge together with what it shows: the reference run is extended by the steps this
        cycle stands for, and still explains everything. */
    method Tick(i: Input, ghost imem: Fetch.Imem)
      requires Valid()
      modifies this, fetch, ifid, idex, exmem, memwb, regs.storage, regs.valid, csr, mdu.mul, mdu.div
      ensures View() == Step(cfg, old(View()), i)
      ensures log == Observe(cfg, old(View()), i, old(log))
      ensures old(Sound(imem)) && Served(imem, old(View()), i) ==> Sound(imem)
    {
      hide Explained, Served, Step, Observe, Seen, Choices, Pipe.View;
      ghost var st, w := View(), World(imem, cfg);
      Edge(i);
      if Explained(M.Fixed(w.imem), Steady(w), st, log, seen, choices) && Served(imem, st, i) {
        SteadyIsOnPath(w, |choices|, st, i, M.Run(M.Fixed(imem), cfg.ids, Start(cfg), choices).final, seen);
        CycleExplained(M.Fixed(w.imem), Steady(w), st, i, log, seen, choices);
      }
      log, seen, choices := Observe(cfg, st, i, log), Seen(st, i, seen), choices + Choices(cfg, st, i, seen);
      assert View() == Step(cfg, st, i);
    }
  }
}
