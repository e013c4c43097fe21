/** The front end of the pipeline as a fetch stream: over whole runs, what enters ID since the last
    accepted redirect is the mixed-width parse of memory. */
module FrontEnd {
  import opened Words
  import opened Pipeline
  import opened Relation
  import opened Departing
  import opened Following
  import opened Simulation
  import opened Stalling
  import opened Runs
  import opened FetchStream
  import Decode
  import Execution
  import Fetch
  import Csr
  import M = Machine

  /** What the pipeline asks of its front end in one cycle. */
  function TurnOf(cfg: Config, st: State, i: Input): Turn {
    Turn(!st.sleep && i.imemReady,
         if FlushIfId(cfg, st, i) && Advance(st, i) then Some(NextPc(cfg, st, i)) else None,
         !StallId(st) && Advance(st, i))
  }

  /** The instruction that enters ID at this edge. */
  function Entering(cfg: Config, st: State, i: Input): Option<Fetch.Fetched> {
    var id := Step(cfg, st, i).id;
    if Advance(st, i) && !StallId(st) && id.valid then
      Some(Fetch.Fetched(id.fault, id.instr, id.raw, id.compressed))
    else None
  }

  /** Since the last accepted redirect: where it went, what has entered ID, and the reads accepted. */
  datatype Intake = Intake(origin: Word, entered: seq<Fetch.Fetched>, readCount: nat)

  function Absorbed(cfg: Config, st: State, i: Input, k: Intake): Intake {
    match TurnOf(cfg, st, i).redirect
    case Some(target) => Intake(target, [], 0)
    case None => Intake(k.origin, k.entered + M.AsSeq(Entering(cfg, st, i)),
                        k.readCount + One(ImemValid(st) && i.imemReady))
  }

  function FrontOf(st: State, k: Intake): Front { Front(st.pc, st.fb, k.origin, k.entered, k.readCount) }

  /** Two responses the buffer cannot tell apart. */
  predicate Same(a: Fetch.Response, b: Fetch.Response) { a.valid == b.valid && (a.valid ==> a == b) }

  lemma SameOutputs(fb: Fetch.State, pc: Word, a: Fetch.Response, b: Fetch.Response)
    requires Same(a, b)
    ensures Fetch.Outputs(fb, pc, a) == Fetch.Outputs(fb, pc, b)
    ensures forall flush, consume :: Fetch.Clock(fb, pc, a, flush, consume) == Fetch.Clock(fb, pc, b, flush, consume)
  {
    hide Fetch.Whole, Fetch.Joined, Fetch.StartsCrossWord;
  }

  lemma ResponseMatches(w: World, st: State, i: Input, f: Front)
    requires Served(w.imem, st, i) && f.pc == st.pc && f.fb == st.fb
    ensures Same(Response(st, i), Answer(w.imem, f, TurnOf(w.cfg, st, i)))
  {
    hide Fetch.BusAddress, FlushIfId, StallId, Advance, NextPc;
  }

  lemma FbIsNext(cfg: Config, st: State, i: Input)
    ensures Step(cfg, st, i).fb == NextFetch(cfg, st, i)
  {
    hide NextPc, NextFetch, NextId, NextEx, NextMem, NextWb, NextRegs, NextMdu, NextSleep, NextLatch, CsrCommand,
         Csr.Clock, Csr.ClockCycle;
  }

  lemma PcMoves(cfg: Config, st: State, i: Input)
    requires SleepOk(st) && if st.ex.valid then Consistent(st.ex.ctrl) else Benign(st.ex.ctrl)
    ensures !(FlushIfId(cfg, st, i) && Advance(st, i)) ==>
      NextPc(cfg, st, i)
        == if FetchOut(st, i).complete && !StallId(st) && Advance(st, i) then Sequential(st, i) else st.pc
  {
    hide Advance, StallId, FetchOut, NormalNext, Sequential, Benign, Consistent, TrapEnter, MretTaken, WfiSleep,
         FenceITaken, Redirecting;
    if st.sleep { SleeperFetchesNothing(st, i); }
    if Advance(st, i) && !st.sleep { FetchCompletes(st, i); }
    if !Redirecting(st) { NormalIsSequential(st, i); }
  }

  lemma SleeperFetchesNothing(st: State, i: Input)
    requires SleepOk(st) && st.sleep
    ensures !FetchOut(st, i).complete
  {
    hide Fetch.Whole;
  }

  /** The front end of the pipeline is a fetch stream: the PC moves only when an instruction is consumed or
      a redirect is accepted, and what the stream consumes is what enters ID. */
  lemma FrontEndIsStream(w: World, st: State, i: Input, s: M.Arch, v: Csr.Volatile, k: Intake)
    requires Related(Steady(w), st, s, v) && Served(w.imem, st, i)
    ensures FrontOf(Step(w.cfg, st, i), Absorbed(w.cfg, st, i, k))
         == Turned(w.imem, FrontOf(st, k), TurnOf(w.cfg, st, i))
  {
    hide Step, Related, Served, Advance, FlushIfId, StallId, Fetch.Outputs, Fetch.Clock, NextPc, PathOk, MduOk,
         LatchOk, SleepOk, Fetch.Holds, Redirecting, Benign, Consistent, Fetch.BusAddress, TrapEnter, IdExInput,
         Execution.Decoded, Decode.Control;
    var f, turn := FrontOf(st, k), TurnOf(w.cfg, st, i);
    FbIsNext(w.cfg, st, i);
    PcIsNext(w.cfg, st, i);
    ResponseMatches(w, st, i, f);
    SameOutputs(st.fb, st.pc, Response(st, i), Answer(w.imem, f, turn));
    Holds(Steady(w), st, s, v);
    ExIsDecoded(Steady(w), st, s, v);
    if st.ex.valid {
      ControlFacts(st.ex.instr);
      DecodedControl(st.ex);
    }
    PcMoves(w.cfg, st, i);
    if turn.redirect == None && Advance(st, i) && !StallId(st) { MoveStages(w.cfg, st, i); }
  }

  // ---- Over runs ---------------------------------------------------------------------------

  function Taken(cfg: Config, st0: State, inputs: seq<Input>): Intake {
    if inputs == [] then Intake(cfg.reset, [], 0)
    else
      var n := |inputs| - 1;
      Absorbed(cfg, Play(cfg, st0, inputs[..n]).st, inputs[n], Taken(cfg, st0, inputs[..n]))
  }

  /** In every run from reset: the instructions that entered ID since the last accepted redirect are the
      mixed 16- and 32-bit parse of memory from its target, the PC is that of the next one, and the
      reads accepted are two for each crossing instruction and one for any other, plus those already
      made for the next. */
  lemma {:induction false} EnteredIsParse(w: World, st0: State, inputs: seq<Input>)
    requires Reset(w.cfg, st0) && AllServed(w, st0, inputs)
    ensures var st, k := Play(w.cfg, st0, inputs).st, Taken(w.cfg, st0, inputs);
      && st.pc == PcAt(w.imem, k.origin, |k.entered|)
      && (forall j :: 0 <= j < |k.entered| ==>
            Fetch.Agrees(k.entered[j], Fetch.InstructionAt(w.imem, PcAt(w.imem, k.origin, j))))
      && k.readCount + Fetch.BeatsLeft(w.imem, st.pc, st.fb)
           == ReadsUpTo(w.imem, k.origin, |k.entered|) + ReadsFor(w.imem, st.pc)
      && Streams(w.imem, FrontOf(st, k))
  {
    hide Step, Observe, Seen, Choices, Related, Explained, M.Run, M.Admissible, Start, Turned, TurnOf, Served,
         Absorbed, Outstanding, Pending, M.Commits, M.Traps, M.Transfers, Fetch.InstructionAt, Fetch.BeatsLeft, PcAt,
         ReadsUpTo, ReadsFor, Fetch.Holds;
    if inputs == [] {
      assert Cleared(st0, w.cfg.reset);
      ConsumedIsParse(w.imem, w.cfg.reset, st0.fb, []);
    } else {
      hide Reset;
      var n := |inputs| - 1;
      EnteredIsParse(w, st0, inputs[..n]);
      PipelineRefinesMachine(w, st0, inputs[..n]);
      var h, i, k := Play(w.cfg, st0, inputs[..n]), inputs[n], Taken(w.cfg, st0, inputs[..n]);
      var s := M.Run(M.Fixed(w.imem), w.cfg.ids, Start(w.cfg), h.choices).final;
      FrontEndIsStream(w, h.st, i, s, h.seen, k);
      TurnStreams(w.imem, FrontOf(h.st, k), TurnOf(w.cfg, h.st, i));
    }
  }
}
