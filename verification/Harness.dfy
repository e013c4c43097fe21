/** The native memory model as the pipeline's environment (native_memory.py): its two ports with their
    wait states, closed around the pipeline.  It meets every assumption the theorems about runs make. */
module Harness {
  import opened Words
  import opened Memory
  import opened Pipeline
  import opened Relation
  import opened Stalling
  import opened Runs
  import opened Guarantees
  import opened Coherence
  import opened Progress
  import LoadStore
  import Fetch
  import Csr

  // ---- One port ----------------------------------------------------------------------------

  /** The bookkeeping of one port between two clock edges. */
  datatype Port<R> = Port(active: bool, remaining: nat, request: R, accepted: bool)

  /** The falling edge: forget an accepted request, adopt a new one, count down its wait states. */
  function Driven<R>(p: Port<R>, wait: nat, valid: bool, request: R): Port<R> {
    var free := if p.accepted then p.(active := false, accepted := false) else p;
    if !free.active && valid then Port(true, wait, request, false) else free
  }

  predicate Ready<R>(d: Port<R>) { d.active && d.remaining == 0 }

  /** The rising edge. */
  function Clocked<R>(d: Port<R>, valid: bool): Port<R> {
    if Ready(d) then d.(accepted := valid)
    else if d.active then d.(remaining := d.remaining - 1)
    else d
  }

  /** A request under way is the one the core is presenting, and has been refused `waited` times. */
  ghost predicate InStep<R>(p: Port<R>, wait: nat, valid: bool, request: R, waited: nat) {
    if p.active && !p.accepted then valid && p.request == request && p.remaining + waited == wait else waited == 0
  }

  /** The port accepts a held request exactly once, in its (wait + 1)-st cycle, and its check that the
      request has not changed never fails. */
  lemma PortServes<R>(p: Port<R>, wait: nat, valid: bool, request: R, valid': bool, request': R, waited: nat)
    requires InStep(p, wait, valid, request, waited)
    requires var ready := Ready(Driven(p, wait, valid, request)); valid && !ready ==> valid' && request' == request
    ensures var d := Driven(p, wait, valid, request);
      && (d.active ==> valid && d.request == request)
      && (valid ==> d.active && (Ready(d) <==> waited == wait))
      && InStep(Clocked(d, valid), wait, valid', request', if valid && !Ready(d) then waited + 1 else 0)
  {
  }

  class PortModel<R(0)> {
    const wait: nat
    var active: bool
    var remaining: nat
    var request: R
    var accepted: bool

    function View(): Port<R>
      reads this
    {
      Port(active, remaining, request, accepted)
    }

    constructor (wait: nat, unused: R)
      ensures this.wait == wait && !active && !accepted
    {
      this.wait := wait;
      active, remaining, request, accepted := false, 0, unused, false;
    }

    /** _drive_instruction and _drive_data, up to the read data. */
    method Drive(valid: bool, current: R) returns (ready: bool)
      modifies this
      ensures var d := Driven(old(View()), wait, valid, current);
        && ready == Ready(d)
        && View() == if d.active && d.remaining > 0 then d.(remaining := d.remaining - 1) else d
    {
      if accepted { active, accepted := false, false; }
      if !active && valid { active, remaining, request := true, wait, current; }
      ready := active && remaining == 0;
      if active && remaining > 0 { remaining := remaining - 1; }
    }

    /** The rising edge of run. */
    method Edge(valid: bool, ready: bool)
      modifies this
      ensures View() == old(View()).(accepted := old(accepted) || (old(active) && valid && ready))
    {
      if active && valid && ready { accepted := true; }
    }

    /** A whole turn of the run loop: the port the bench is made of. */
    method Cycle(valid: bool, current: R) returns (ready: bool)
      modifies this
      ensures var d := Driven(old(View()), wait, valid, current); ready == Ready(d) && View() == Clocked(d, valid)
    {
      ready := Drive(valid, current);
      Edge(valid, ready);
    }
  }

  // ---- The bench ---------------------------------------------------------------------------

  datatype DataRequest = DataRequest(read: bool, write: bool, address: Word, data: Word, strobes: nat, size: nat)

  /** The fixed parameters of a bench. */
  datatype Setup = Setup(instructionWait: nat, dataWait: nat, instructionErrors: set<Word>, dataErrors: set<Word>)

  datatype Bench = Bench(core: State, iport: Port<Word>, dport: Port<DataRequest>, ram: Ram)

  /** The pins the memory does not drive. */
  datatype Pins = Pins(irq: Csr.Pins, time: Dword)

  function ReadWord(ram: Ram, addr: Word): Word { if Mapped(ram, addr) then WordAt(ram, addr) else 0 }

  function FetchAddress(st: State): Word { Fetch.BusAddress(st.fb, st.pc) }

  function Sampled(st: State): DataRequest {
    DataRequest(st.mem.memRead, st.mem.memWrite, st.mem.alu, BusData(st), BusStrobes(st),
                LoadStore.Size(st.mem.memType))
  }

  function DrivenI(u: Setup, b: Bench): Port<Word> {
    Driven(b.iport, u.instructionWait, ImemValid(b.core), FetchAddress(b.core))
  }

  function DrivenD(u: Setup, b: Bench): Port<DataRequest> {
    Driven(b.dport, u.dataWait, DmemValid(b.core), Sampled(b.core))
  }

  function InputOf(u: Setup, b: Bench, p: Pins): Input {
    var i, d := DrivenI(u, b), DrivenD(u, b);
    Input(Ready(i), Fetch.Beat(ReadWord(b.ram, i.request), i.request in u.instructionErrors),
          Ready(d), ReadWord(b.ram, d.request.address), d.request.address in u.dataErrors, p.irq, p.time)
  }

  /** A write reaches memory when it is accepted without an error; an unmapped write stops the original
      simulation, and here changes nothing. */
  function Written(u: Setup, b: Bench): Ram {
    var d := DrivenD(u, b);
    if Ready(d) && DmemValid(b.core) && d.request.write && d.request.address !in u.dataErrors
       && Mapped(b.ram, d.request.address) && d.request.strobes < 16 then
      ByStrobes(b.ram, d.request.address, d.request.data, d.request.strobes, 4)
    else b.ram
  }

  function BenchStep(cfg: Config, u: Setup, b: Bench, p: Pins): Bench {
    Bench(Step(cfg, b.core, InputOf(u, b, p)), Clocked(DrivenI(u, b), ImemValid(b.core)),
          Clocked(DrivenD(u, b), DmemValid(b.core)), Written(u, b))
  }

  const IDLE_REQUEST: DataRequest := DataRequest(false, false, 0, 0, 0, 0)

  function Loaded(core0: State, ram: Ram): Bench {
    Bench(core0, Port(false, 0, 0, false), Port(false, 0, IDLE_REQUEST, false), ram)
  }

  datatype Journal = Journal(bench: Bench, inputs: seq<Input>)

  function BenchPlay(cfg: Config, u: Setup, b0: Bench, pins: seq<Pins>): (r: Journal)
    ensures |r.inputs| == |pins|
  {
    if pins == [] then Journal(b0, [])
    else
      var n := |pins| - 1;
      var j := BenchPlay(cfg, u, b0, pins[..n]);
      Journal(BenchStep(cfg, u, j.bench, pins[n]), j.inputs + [InputOf(u, j.bench, pins[n])])
  }

  /** The instruction memory that the loaded bytes are. */
  function Code(u: Setup, ram: Ram): Fetch.Imem {
    (a: Word) => Fetch.Beat(ReadWord(ram, a), a in u.instructionErrors)
  }

  // ---- The assumptions hold ----------------------------------------------------------------

  function Bigger(a: nat, b: nat): nat { if a < b then b else a }

  function Patience(u: Setup): nat { Bigger(u.instructionWait, u.dataWait) + 1 }

  ghost predicate PortsInStep(u: Setup, b: Bench, q: Waits) {
    && InStep(b.iport, u.instructionWait, ImemValid(b.core), FetchAddress(b.core), q.imem)
    && InStep(b.dport, u.dataWait, DmemValid(b.core), Sampled(b.core), q.dmem)
  }

  lemma RequestIsSampled(t: State, st: State)
    requires forall rdata, error :: Request(t, rdata, error) == Request(st, rdata, error)
    requires t.mem == st.mem
    ensures Sampled(t) == Sampled(st)
  {
    assert Request(t, 0, false) == Request(st, 0, false);
    hide BusData, BusStrobes, LoadStore.Size;
  }

  lemma CoreHolds(cfg: Config, st: State, i: Input)
    ensures var t := Step(cfg, st, i);
      && (ImemValid(st) && !i.imemReady ==> ImemValid(t) && FetchAddress(t) == FetchAddress(st))
      && (DmemValid(st) && !i.dmemReady ==> DmemValid(t) && Sampled(t) == Sampled(st))
  {
    hide Step, ImemValid, DmemValid, Sampled, Fetch.BusAddress, Advance, Request, Redirecting;
    if ImemValid(st) && !i.imemReady { FetchRequestIsStable(cfg, st, i); }
    if DmemValid(st) && !i.dmemReady {
      DataRequestIsStable(cfg, st, i);
      RefusedData(cfg, st, i);
      Frozen(cfg, st, i);
      RequestIsSampled(Step(cfg, st, i), st);
    }
  }

  /** In one cycle both ports serve the core within their wait states, and keep in step with it. */
  lemma CycleServes(cfg: Config, u: Setup, b: Bench, p: Pins, q: Waits)
    requires PortsInStep(u, b, q)
    ensures var i := InputOf(u, b, p);
      && PortsInStep(u, BenchStep(cfg, u, b, p), NextWaits(b.core, i, q))
      && Prompt(Patience(u), b.core, i, q)
      && (ImemValid(b.core) ==> DrivenI(u, b).request == FetchAddress(b.core))
      && (DmemValid(b.core) ==> DrivenD(u, b).request == Sampled(b.core))
  {
    hide Step, ImemValid, DmemValid, Sampled, FetchAddress, Written, ReadWord;
    var i := InputOf(u, b, p);
    var t := Step(cfg, b.core, i);
    CoreHolds(cfg, b.core, i);
    PortServes(b.iport, u.instructionWait, ImemValid(b.core), FetchAddress(b.core), ImemValid(t), FetchAddress(t),
               q.imem);
    PortServes(b.dport, u.dataWait, DmemValid(b.core), Sampled(b.core), DmemValid(t), Sampled(t), q.dmem);
    hide Driven, Clocked, InStep;
  }

  /** The transfer the core completes this cycle is answered from, and applied to, the bench's memory. */
  lemma CycleCoheres(u: Setup, b: Bench, p: Pins, q: Waits)
    requires DmemValid(b.core) ==> DrivenD(u, b).request == Sampled(b.core)
    ensures match Transferring(b.core, InputOf(u, b, p))
      case Some(t) => Answers(b.ram, t) && Written(u, b) == Apply(b.ram, t)
      case None => Written(u, b) == b.ram
  {
    hide DmemValid, BusData, BusStrobes, LoadStore.Size, ByStrobes, WordAt, Mapped, Driven;
  }

  ghost predicate Serving(cfg: Config, u: Setup, b0: Bench, j: Journal) {
    var h := Play(cfg, b0.core, j.inputs);
    && j.bench.core == h.st
    && PortsInStep(u, j.bench, Watch(cfg, b0.core, j.inputs).waits)
    && AllPrompt(Patience(u), cfg, b0.core, j.inputs)
    && Coherent(b0.ram, h.log.transfers)
    && j.bench.ram == Contents(b0.ram, h.log.transfers)
  }

  lemma WatchExtends(K: nat, cfg: Config, st0: State, inputs: seq<Input>, i: Input)
    ensures var k := Watch(cfg, st0, inputs);
      && Watch(cfg, st0, inputs + [i]) == Progress.Tick(cfg, Play(cfg, st0, inputs).st, i, k)
    ensures AllPrompt(K, cfg, st0, inputs + [i])
         == (AllPrompt(K, cfg, st0, inputs) && Prompt(K, Play(cfg, st0, inputs).st, i, Watch(cfg, st0, inputs).waits))
  {
    hide Play, Prompt, Progress.Tick;
    assert (inputs + [i])[..|inputs|] == inputs;
  }

  ghost predicate StaysServing(cfg: Config, u: Setup, core0: State, ram: Ram, pins: seq<Pins>) {
    exists j :: j == BenchPlay(cfg, u, Loaded(core0, ram), pins) && Serving(cfg, u, Loaded(core0, ram), j)
  }

  lemma {:induction false} AlwaysServing(cfg: Config, u: Setup, core0: State, ram: Ram, pins: seq<Pins>)
    ensures StaysServing(cfg, u, core0, ram, pins)
  {
    hide Step, Play, Watch, AllPrompt, Prompt, Coherent, Contents, Apply, Answers, PortsInStep, InputOf, DrivenI,
         DrivenD, Written, Transferring, Committing, Trapping, NextWaits, Eventful, Advance, DmemValid, ImemValid,
         Sampled, FetchAddress, Loaded;
    var b0 := Loaded(core0, ram);
    if pins == [] {
      StartServing(cfg, u, core0, ram);
    } else {
      var n := |pins| - 1;
      var j, p := BenchPlay(cfg, u, b0, pins[..n]), pins[n];
      AlwaysServing(cfg, u, core0, ram, pins[..n]);
      var i, h := InputOf(u, j.bench, p), Play(cfg, b0.core, j.inputs);
      PlayExtends(cfg, b0.core, j.inputs, i);
      WatchExtends(Patience(u), cfg, b0.core, j.inputs, i);
      CycleServes(cfg, u, j.bench, p, Watch(cfg, b0.core, j.inputs).waits);
      CycleCoheres(u, j.bench, p, Watch(cfg, b0.core, j.inputs).waits);
      match Transferring(j.bench.core, i) {
        case Some(t) => Extends(b0.ram, h.log.transfers, t);
        case None => assert h.log.transfers + [] == h.log.transfers;
      }
    }
    assert Serving(cfg, u, b0, BenchPlay(cfg, u, b0, pins));
  }

  lemma StartServing(cfg: Config, u: Setup, core0: State, ram: Ram)
    ensures Serving(cfg, u, Loaded(core0, ram), Journal(Loaded(core0, ram), []))
  {
    hide ImemValid, DmemValid, Sampled, FetchAddress;
  }

  lemma LoadedIs(core0: State, ram: Ram)
    ensures Loaded(core0, ram).core == core0 && Loaded(core0, ram).ram == ram
  {
  }

  lemma PatiencePositive(u: Setup)
    ensures Patience(u) > 0
  {
  }
}
