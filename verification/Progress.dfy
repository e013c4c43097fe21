/** Liveness: the three completions a stall waits for each count down and persist, every stall is
    bounded when the ports answer in time, and a core that is not asleep keeps committing or trapping. */
module Progress {
  import opened Words
  import opened Decode
  import opened Stages
  import opened Pipeline
  import opened Relation
  import opened Stalling
  import opened Departing
  import opened Following
  import opened Simulation
  import opened Runs
  import Execution
  import Fetch
  import Mdu
  import Csr
  import M = Machine

  // ---- The three-way join ------------------------------------------------------------------

  /** Fetch beats the stalled instruction fetch still needs. */
  function FetchLeft(w: Flight, st: State): nat {
    if st.sleep then 0 else Fetch.BeatsLeft(w.fetch, st.pc, st.fb)
  }

  /** Data transfers the instruction in MEM still needs. */
  function DataLeft(st: State): nat {
    if DmemValid(st) then 1 else 0
  }

  /** Iterations the multiply/divide instruction in EX still needs. */
  function MduLeft(st: State): int {
    Mdu.WordLeft(st.mdu, MduActive(st.ex), Funct3(st.ex.instr))
  }

  function One(b: bool): nat { if b then 1 else 0 }

  predicate FetchAccepted(st: State, i: Input) { ImemValid(st) && i.imemReady }

  lemma SleeperNeverStalls(st: State, i: Input)
    requires SleepOk(st) && st.sleep
    ensures Advance(st, i)
  {
    hide Fetch.Empty, Mdu.IsDone;
  }

  lemma FetchWaits(w: Flight, st: State, i: Input)
    requires Fetch.Holds(w.fetch, st.pc, st.fb) && Served(w.fetch, st, i)
    ensures FetchLeft(w, st) >= One(FetchAccepted(st, i))
    ensures ImemWait(st, i) <==> FetchLeft(w, st) > One(FetchAccepted(st, i))
  {
    ResponseServed(w, st, i);
    Fetch.BeatsCount(w.fetch, st.pc, st.fb, Response(st, i));
    hide Fetch.Holds, Served, Fetch.Whole, Fetch.Joined, Fetch.StartsCrossWord;
  }

  lemma MduWaits(st: State, i: Input)
    requires MduOk(st)
    ensures MduLeft(st) >= 0 && (MduStall(st) <==> MduLeft(st) > 0)
  {
    hide OperandA, OperandB, MduActive, BusStall, Mdu.WordOwned, Mdu.WordStall, Mdu.WordClock, Mdu.WordLeft, AluA,
         AluB;
    Mdu.WordClockKeepsOwnership(st.mdu, MduActive(st.ex), Funct3(st.ex.instr), AluA(st.ex, OperandA(st)),
                                AluB(st.ex, OperandB(st)), false);
  }

  /** The pipeline advances in exactly the cycle in which the last of the three completions is in:
      no beat, no transfer and no iteration is left after this cycle's responses. */
  lemma AdvanceIffAllDone(w: Flight, st: State, i: Input, s: M.Arch, v: Csr.Volatile)
    requires Related(w, st, s, v) && Served(w.fetch, st, i)
    ensures Advance(st, i)
       <==> FetchLeft(w, st) == One(FetchAccepted(st, i)) && DataLeft(st) == One(Accepted(st, i)) && MduLeft(st) == 0
  {
    Holds(w, st, s, v);
    hide Related, Served, Fetch.Holds, MduOk, LatchOk, SleepOk, PathOk, Redirecting, FetchLeft, MduLeft, ImemWait,
         MduStall, FetchAccepted, Requests;
    FetchWaits(w, st, i);
    MduWaits(st, i);
  }

  lemma StallCountsFetch(w: Flight, st: State, i: Input)
    requires Fetch.Holds(w.fetch, st.pc, st.fb) && Served(w.fetch, st, i) && SleepOk(st) && !Advance(st, i)
    ensures FetchLeft(w, Step(w.cfg, st, i)) == FetchLeft(w, st) - One(FetchAccepted(st, i))
  {
    Frozen(w.cfg, st, i);
    if st.sleep { SleeperNeverStalls(st, i); }
    ResponseServed(w, st, i);
    Fetch.BeatsCount(w.fetch, st.pc, st.fb, Response(st, i));
    hide Step, Advance, Served, Fetch.Holds, Fetch.BeatsLeft, Fetch.Clock, Redirecting, SleepOk, FetchOut;
  }

  lemma StallCountsData(cfg: Config, st: State, i: Input)
    requires !Advance(st, i)
    ensures DataLeft(Step(cfg, st, i)) == DataLeft(st) - One(Accepted(st, i))
  {
    hide Step, Advance, Redirecting;
    Frozen(cfg, st, i);
    LatchIsNext(cfg, st, i);
  }

  lemma StallCountsMdu(cfg: Config, st: State, i: Input)
    requires !Advance(st, i) && MduOk(st)
    ensures MduLeft(Step(cfg, st, i)) == MduLeft(st) - One(MduStall(st))
  {
    Frozen(cfg, st, i);
    MduWaits(st, i);
    assert Step(cfg, st, i).mdu == NextMdu(st, i);
    hide Step, OperandA, OperandB, MduActive, BusStall, Mdu.WordOwned, Mdu.WordStall, Mdu.WordClock, Mdu.WordLeft,
         AluA, AluB, Redirecting;
    Mdu.WordClockKeepsOwnership(st.mdu, MduActive(st.ex), Funct3(st.ex.instr), AluA(st.ex, OperandA(st)),
                                AluB(st.ex, OperandB(st)), !BusStall(st, i));
  }

  // ---- Bounded stalls ----------------------------------------------------------------------

  /** For how many cycles the request now on each port has been refused. */
  datatype Waits = Waits(imem: nat, dmem: nat)

  function NextWaits(st: State, i: Input, q: Waits): Waits {
    Waits(if ImemValid(st) && !i.imemReady then q.imem + 1 else 0,
          if DmemValid(st) && !i.dmemReady then q.dmem + 1 else 0)
  }

  /** Each port accepts a request in its K-th cycle at the latest. */
  predicate Prompt(K: nat, st: State, i: Input, q: Waits) {
    && (ImemValid(st) && q.imem + 1 >= K ==> i.imemReady)
    && (DmemValid(st) && q.dmem + 1 >= K ==> i.dmemReady)
  }

  predicate WaitsOk(K: nat, st: State, q: Waits) {
    && q.imem < K && q.dmem < K
    && (q.imem > 0 ==> ImemValid(st)) && (q.dmem > 0 ==> DmemValid(st))
  }

  function Max(a: int, b: int): int { if a < b then b else a }

  /** Cycles one port can still take: `left` requests, the first already refused `waited` times. */
  function PortWait(K: nat, left: nat, waited: nat): int { left * K - waited }

  /** As many beats as fetch can still need, whatever memory will return. */
  function FetchNeed(st: State): nat {
    if !ImemValid(st) then 0 else if st.fb.crossPending then 1 else 2
  }

  function Wait(K: nat, st: State, q: Waits): int {
    Max(Max(PortWait(K, FetchNeed(st), q.imem), PortWait(K, DataLeft(st), q.dmem)), MduLeft(st))
  }

  /** The three waits overlap, so the longest of them bounds the stall. */
  function Bound(K: nat): nat { if 2 * K < 32 then 32 else 2 * K }

  lemma RefusedAgain(cfg: Config, st: State, i: Input)
    ensures var t := Step(cfg, st, i);
      && (ImemValid(st) && !i.imemReady ==> !Advance(st, i) && ImemValid(t))
      && (DmemValid(st) && !i.dmemReady ==> !Advance(st, i) && DmemValid(t))
  {
    if ImemValid(st) && !i.imemReady {
      assert !Advance(st, i) by { hide MduStall, DmemWait, Step; }
      Frozen(cfg, st, i);
      hide Step, Advance, Redirecting, DmemValid;
    }
    if DmemValid(st) && !i.dmemReady { RefusedData(cfg, st, i); }
  }

  lemma RefusedData(cfg: Config, st: State, i: Input)
    requires DmemValid(st) && !i.dmemReady
    ensures !Advance(st, i) && DmemValid(Step(cfg, st, i))
  {
    assert !Advance(st, i) by { hide MduStall, ImemWait, Step; }
    Frozen(cfg, st, i);
    assert Step(cfg, st, i).latch == NextLatch(st, i);
    hide Step, Advance, Redirecting;
  }

  lemma WaitsKept(K: nat, cfg: Config, st: State, i: Input, q: Waits)
    requires WaitsOk(K, st, q) && Prompt(K, st, i, q)
    ensures WaitsOk(K, Step(cfg, st, i), NextWaits(st, i, q))
  {
    RefusedAgain(cfg, st, i);
    hide Step, Advance, ImemValid, DmemValid;
  }

  lemma PortCountsDown(K: nat, left: nat, left': nat, waited: nat, accepted: bool)
    requires K > 0 && waited < K && left >= One(accepted) && (waited > 0 ==> left > 0)
    requires if accepted then left' < left else left' == left
    requires waited + 1 >= K && left > 0 ==> accepted
    ensures var waited' := if left > 0 && !accepted then waited + 1 else 0;
      && (left > 0 ==> PortWait(K, left', waited') < PortWait(K, left, waited))
      && (left == 0 ==> PortWait(K, left, waited) == 0)
      && PortWait(K, left, waited) >= 0 && PortWait(K, left', waited') >= 0
      && (left > 0 ==> PortWait(K, left, waited) > 0)
  {
    assert (left - 1) * K == left * K - K;
    if left > 0 { assert left * K >= K; }
    if accepted { assert left' * K <= (left - 1) * K; }
  }

  lemma NeedsAreSmall(st: State)
    ensures FetchNeed(st) <= 2 && DataLeft(st) <= 1 && MduLeft(st) <= 32
    ensures FetchNeed(st) > 0 <==> ImemValid(st)
    ensures DataLeft(st) > 0 <==> DmemValid(st)
  {
    hide ImemValid, DmemValid, MduActive;
  }

  lemma WaitBounded(K: nat, st: State, q: Waits)
    requires WaitsOk(K, st, q) && MduLeft(st) >= 0
    ensures 0 <= Wait(K, st, q) <= Bound(K)
  {
    NeedsAreSmall(st);
    hide FetchNeed, DataLeft, MduLeft, ImemValid, DmemValid;
    assert FetchNeed(st) * K <= 2 * K && DataLeft(st) * K <= 2 * K;
    assert FetchNeed(st) > 0 ==> FetchNeed(st) * K >= K;
  }

  /** One port's wait after a cycle that did not finish the stall. */
  predicate Shrinks(before: int, after: int) {
    before >= 0 && (if before == 0 then after == 0 else 0 <= after < before)
  }

  /** In a stall each accepted beat is needed no more, and no other need arises. */
  lemma StallNeedsFetch(cfg: Config, st: State, i: Input)
    requires !Advance(st, i) && SleepOk(st) && (st.fb.crossPending ==> !st.fb.held)
    ensures var after := FetchNeed(Step(cfg, st, i));
      if FetchAccepted(st, i) then after < FetchNeed(st) else after == FetchNeed(st)
  {
    Frozen(cfg, st, i);
    if st.sleep { SleeperNeverStalls(st, i); }
    hide Step, Advance, Redirecting, SleepOk, Fetch.Outputs, Fetch.StartsCrossWord, Fetch.Joined;
  }

  lemma FetchShrinks(K: nat, cfg: Config, st: State, i: Input, q: Waits)
    requires SleepOk(st) && (st.fb.crossPending ==> !st.fb.held)
    requires !Advance(st, i) && WaitsOk(K, st, q) && Prompt(K, st, i, q)
    ensures Shrinks(PortWait(K, FetchNeed(st), q.imem),
                    PortWait(K, FetchNeed(Step(cfg, st, i)), NextWaits(st, i, q).imem))
    ensures ImemValid(st) ==> PortWait(K, FetchNeed(st), q.imem) > 0
  {
    hide Advance, Step, SleepOk, FetchNeed, ImemWait, ImemValid, DmemValid, PortWait;
    StallNeedsFetch(cfg, st, i);
    NeedsAreSmall(st);
    PortCountsDown(K, FetchNeed(st), FetchNeed(Step(cfg, st, i)), q.imem, FetchAccepted(st, i));
  }

  lemma DataShrinks(K: nat, cfg: Config, st: State, i: Input, q: Waits)
    requires !Advance(st, i) && WaitsOk(K, st, q) && Prompt(K, st, i, q)
    ensures Shrinks(PortWait(K, DataLeft(st), q.dmem),
                    PortWait(K, DataLeft(Step(cfg, st, i)), NextWaits(st, i, q).dmem))
    ensures DmemValid(st) ==> PortWait(K, DataLeft(st), q.dmem) > 0
  {
    StallCountsData(cfg, st, i);
    DataWaits(st, i);
    hide Advance, Step, ImemValid, PortWait;
    PortCountsDown(K, DataLeft(st), DataLeft(Step(cfg, st, i)), q.dmem, Accepted(st, i));
  }

  lemma StallHasReason(st: State, i: Input)
    requires !Advance(st, i)
    ensures ImemValid(st) || DmemValid(st) || MduStall(st)
  {
    hide MduStall, FetchOut, ImemValid, DmemValid;
  }

  /** A stalled cycle brings the end of the stall nearer, whatever memory returns. */
  lemma StallShrinks(w: Flight, K: nat, st: State, i: Input, q: Waits, s: M.Arch, v: Csr.Volatile)
    requires Related(w, st, s, v) && !Advance(st, i) && WaitsOk(K, st, q) && Prompt(K, st, i, q)
    ensures Wait(K, Step(w.cfg, st, i), NextWaits(st, i, q)) < Wait(K, st, q)
  {
    hide Related, Advance, Step, MduOk, LatchOk, SleepOk, PathOk, Redirecting, FetchNeed, DataLeft, MduLeft,
         MduStall, ImemValid, DmemValid, PortWait, WaitsOk, Prompt, NextWaits, Fetch.InstructionAt, Fetch.Agrees;
    Holds(w, st, s, v);
    StallHasReason(st, i);
    MduWaits(st, i);
    StallCountsMdu(w.cfg, st, i);
    FetchShrinks(K, w.cfg, st, i, q);
    DataShrinks(K, w.cfg, st, i, q);
  }

  lemma DataWaits(st: State, i: Input)
    ensures DataLeft(st) >= One(Accepted(st, i))
  {
  }

  // ---- Bounded silence ---------------------------------------------------------------------

  /** Advancing cycles until the oldest instruction in the pipeline commits. */
  function Distance(st: State): nat {
    if st.wb.valid then 0
    else if st.mem.valid then 1
    else if st.ex.valid then 2
    else if st.id.valid then 3
    else 4
  }

  /** Asleep with nothing left to retire. */
  predicate Dormant(st: State) { st.sleep && Distance(st) == 4 }

  predicate Eventful(cfg: Config, st: State, i: Input) {
    Committing(st, i).Some? || Trapping(cfg, st, i).Some? || Dormant(st)
  }

  lemma EmptyPipeFlows(w: Flight, st: State, i: Input, s: M.Arch, v: Csr.Volatile)
    requires Related(w, st, s, v) && Advance(st, i) && Distance(st) >= 3
    ensures !FlushIfId(w.cfg, st, i) && !StallId(st)
  {
    ExIsDecoded(w, st, s, v);
    hide Related, Advance, OperandA, OperandB, Control, CsrPort, Illegal, TargetMisaligned, DataMisaligned,
         Csr.WakePending, ResponseError;
  }

  /** Every advance without a commit or a trap moves the oldest instruction one stage on. */
  lemma AdvanceMoves(w: Flight, st: State, i: Input, s: M.Arch, v: Csr.Volatile)
    requires Related(w, st, s, v) && Advance(st, i) && !Eventful(w.cfg, st, i)
    ensures Distance(Step(w.cfg, st, i)) < Distance(st)
  {
    assert !TrapEnter(w.cfg, st, i) && !st.wb.valid by { hide Related, Advance, TrapEnter, Dormant; }
    MemWbMove(w.cfg, st, i);
    if Distance(st) >= 3 {
      EmptyPipeFlows(w, st, i, s, v);
      MoveStages(w.cfg, st, i);
      if !st.sleep { FetchCompletes(st, i); }
    }
    hide Related, Step, Advance, TrapEnter, FlushIfId, StallId, Response, Fetch.Outputs, NormalNext, NextWb,
         NextRegs, IdRead, Control, Immediate, ExResult, OperandA, OperandB, Link, Fetch.Clock, Trapping, CommitOf,
         MduResult, CsrPort, WfiSleep;
  }

  lemma StallKeepsDistance(cfg: Config, st: State, i: Input)
    requires !Advance(st, i) && (!st.ex.valid ==> Benign(st.ex.ctrl))
    ensures Distance(Step(cfg, st, i)) == Distance(st)
  {
    Frozen(cfg, st, i);
    hide Step, Advance, OperandA, OperandB;
  }

  // ---- Over runs ---------------------------------------------------------------------------

  /** Bookkeeping along a run: the port waits, how many cycles the current stall has lasted, and how
      many cycles have passed since the last commit, trap or dormant cycle. */
  datatype Clockwork = Clockwork(waits: Waits, stalled: nat, silent: nat)

  function Tick(cfg: Config, st: State, i: Input, k: Clockwork): Clockwork {
    Clockwork(NextWaits(st, i, k.waits),
              if Advance(st, i) then 0 else k.stalled + 1,
              if Eventful(cfg, st, i) then 0 else k.silent + 1)
  }

  function Watch(cfg: Config, st0: State, inputs: seq<Input>): Clockwork {
    if inputs == [] then Clockwork(Waits(0, 0), 0, 0)
    else
      var n := |inputs| - 1;
      Tick(cfg, Play(cfg, st0, inputs[..n]).st, inputs[n], Watch(cfg, st0, inputs[..n]))
  }

  predicate AllPrompt(K: nat, cfg: Config, st0: State, inputs: seq<Input>) {
    if inputs == [] then true
    else
      var n := |inputs| - 1;
      && AllPrompt(K, cfg, st0, inputs[..n])
      && Prompt(K, Play(cfg, st0, inputs[..n]).st, inputs[n], Watch(cfg, st0, inputs[..n]).waits)
  }

  /** The cycles that so many advances may take. */
  function Span(K: nat, advances: nat): nat { advances * (Bound(K) + 1) }

  ghost predicate OnTime(K: nat, st: State, k: Clockwork) {
    && WaitsOk(K, st, k.waits)
    && k.stalled + Wait(K, st, k.waits) <= Bound(K)
    && k.silent + Span(K, Distance(st)) + Wait(K, st, k.waits) <= 4 * (Bound(K) + 1) + Bound(K)
  }

  lemma WaitAfter(w: Flight, K: nat, st: State, q: Waits, s: M.Arch, v: Csr.Volatile)
    requires Related(w, st, s, v) && WaitsOk(K, st, q)
    ensures 0 <= Wait(K, st, q) <= Bound(K)
  {
    Holds(w, st, s, v);
    hide Related, Fetch.Holds, MduOk, LatchOk, SleepOk, PathOk, Redirecting, Wait, Bound, WaitsOk, MduLeft;
    MduWaits(st, Input(false, Fetch.Beat(0, false), false, 0, false, Csr.Pins(false, false, false), 0));
    WaitBounded(K, st, q);
  }

  lemma FarBounded(st: State)
    ensures Distance(st) <= 4
  {
  }

  lemma StartsOnTime(K: nat, cfg: Config, st: State)
    requires Reset(cfg, st) && K > 0
    ensures OnTime(K, st, Clockwork(Waits(0, 0), 0, 0))
  {
    AlwaysDescribed(cfg, st, []);
    assert Play(cfg, st, []).st == st;
    var x, s, v :| Related(x, st, s, v) && x.cfg == cfg;
    WaitAfter(x, K, st, Waits(0, 0), s, v);
    hide Related, Wait, Bound, Play;
  }

  lemma Scales(a: nat, b: nat, n: nat)
    requires a < b
    ensures a * n + n <= b * n
  {
    assert (b - a - 1) * n >= 0;
    assert (b - a - 1) * n == b * n - a * n - n;
  }

  /** The arithmetic of one cycle: a stall comes nearer its end, and an advance that shows nothing moves
      the oldest instruction on. */
  lemma Paces(K: nat, stalled: nat, silent: nat, far: nat, wait: int, far': nat, wait': int, advance: bool, event: bool)
    requires stalled + wait <= Bound(K) && silent + Span(K, far) + wait <= 4 * (Bound(K) + 1) + Bound(K) && far' <= 4
    requires 0 <= wait <= Bound(K) && 0 <= wait' <= Bound(K)
    requires if advance then event || far' < far else far' == far && wait' < wait
    ensures (if advance then 0 else stalled + 1) + wait' <= Bound(K)
    ensures (if event then 0 else silent + 1) + Span(K, far') + wait' <= 4 * (Bound(K) + 1) + Bound(K)
  {
    hide Bound;
    Scales(far', 5, Bound(K) + 1);
    if far' < far { Scales(far', far, Bound(K) + 1); }
  }

  /** If each port accepts a request within K cycles, then at every moment of every run, whatever the
      ports return, the current stall has lasted at most max(2K, 32) cycles, and a commit, a trap or a
      dormant cycle occurred within the last five stalls' worth of cycles. */
  lemma {:induction false} PipelineKeepsGoing(K: nat, cfg: Config, st0: State, inputs: seq<Input>)
    requires Reset(cfg, st0) && K > 0 && AllPrompt(K, cfg, st0, inputs)
    ensures var k := Watch(cfg, st0, inputs);
      && k.stalled <= Bound(K)
      && k.silent < 5 * (Bound(K) + 1)
      && OnTime(K, Play(cfg, st0, inputs).st, k)
  {
    hide Reset, Step, Related, Prompt, Bound, Span, Observe, Seen, Choices, WaitsOk, Wait, Advance, NextWaits, Eventful,
         Distance, Benign, Execution.Decoded;
    AlwaysDescribed(cfg, st0, inputs);
    var x', s', v' :| Related(x', Play(cfg, st0, inputs).st, s', v') && x'.cfg == cfg;
    if inputs == [] {
      StartsOnTime(K, cfg, st0);
    } else {
      var n := |inputs| - 1;
      var st, k, i := Play(cfg, st0, inputs[..n]).st, Watch(cfg, st0, inputs[..n]), inputs[n];
      PipelineKeepsGoing(K, cfg, st0, inputs[..n]);
      AlwaysDescribed(cfg, st0, inputs[..n]);
      var x, s, v :| Related(x, st, s, v) && x.cfg == cfg;
      WaitsKept(K, cfg, st, i, k.waits);
      WaitAfter(x, K, st, k.waits, s, v);
      WaitAfter(x', K, Step(cfg, st, i), NextWaits(st, i, k.waits), s', v');
      if !Advance(st, i) {
        ExIsDecoded(x, st, s, v);
        StallShrinks(x, K, st, i, k.waits, s, v);
        StallKeepsDistance(cfg, st, i);
      } else if !Eventful(cfg, st, i) {
        AdvanceMoves(x, st, i, s, v);
      }
      var t, q := Step(cfg, st, i), NextWaits(st, i, k.waits);
      FarBounded(t);
      Paces(K, k.stalled, k.silent, Distance(st), Wait(K, st, k.waits), Distance(t), Wait(K, t, q),
            Advance(st, i), Eventful(cfg, st, i));
    }
    WaitAfter(x', K, Play(cfg, st0, inputs).st, Watch(cfg, st0, inputs).waits, s', v');
  }

  /** In no cycle of the last part of a run does the pipeline advance. */
  predicate AllStalled(cfg: Config, st0: State, before: seq<Input>, more: seq<Input>) {
    forall m :: 0 <= m < |more| ==> !Advance(Play(cfg, st0, before + more[..m]).st, more[m])
  }

  lemma {:induction false} StallsCount(cfg: Config, st0: State, before: seq<Input>, more: seq<Input>)
    requires AllStalled(cfg, st0, before, more)
    ensures exists k :: k == Watch(cfg, st0, before + more) && k.stalled >= |more|
  {
    hide Play, Advance, NextWaits, Eventful;
    if more != [] {
      var n := |more| - 1;
      forall m | 0 <= m < n ensures !Advance(Play(cfg, st0, before + more[..n][..m]).st, more[..n][m]) {
        assert more[..n][..m] == more[..m];
      }
      StallsCount(cfg, st0, before, more[..n]);
      var all := before + more;
      assert all[..|all| - 1] == before + more[..n] && all[|all| - 1] == more[n];
    }
    assert Watch(cfg, st0, before + more).stalled >= |more|;
  }

  /** No stall outlasts max(2K, 32) cycles. */
  lemma StallsEnd(K: nat, cfg: Config, st0: State, before: seq<Input>, more: seq<Input>)
    requires Reset(cfg, st0) && K > 0 && AllPrompt(K, cfg, st0, before + more) && AllStalled(cfg, st0, before, more)
    ensures |more| <= 2 * K || |more| <= 32
  {
    hide Reset, AllPrompt, AllStalled, Play, Watch, OnTime;
    StallsCount(cfg, st0, before, more);
    PipelineKeepsGoing(K, cfg, st0, before + more);
  }

  // ---- A core that never sleeps ------------------------------------------------------------

  predicate AlwaysAwake(cfg: Config, st0: State, inputs: seq<Input>) {
    !Play(cfg, st0, inputs).st.sleep && (inputs == [] || AlwaysAwake(cfg, st0, inputs[..|inputs| - 1]))
  }

  lemma StaysAwake(cfg: Config, st: State, i: Input)
    requires !st.sleep && (st.ex.valid ==> !st.ex.ctrl.wfi)
    ensures !Step(cfg, st, i).sleep
  {
    hide NextPc, NextFetch, NextId, NextEx, NextMem, NextWb, NextRegs, NextMdu, NextLatch, CsrCommand, Csr.Clock,
         Csr.ClockCycle, TrapEnter, Advance;
  }

  function Events(log: Log): nat { |log.commits| + |log.traps| }

  /** An awake core's cycle shows a commit or a trap, or is counted as silent. */
  lemma CycleCounts(cfg: Config, st: State, i: Input, log: Log, k: Clockwork)
    requires !st.sleep
    ensures var e, k' := Events(Observe(cfg, st, i, log)), Tick(cfg, st, i, k);
      if Eventful(cfg, st, i) then e > Events(log) && k'.silent == 0
      else e == Events(log) && k'.silent == k.silent + 1
  {
    hide Committing, Trapping, Transferring, NextWaits, Advance, Distance;
  }

  /** A core that never sleeps shows a commit or a trap at least every five stalls' worth of cycles. */
  lemma {:induction false} EventsKeepPace(K: nat, cfg: Config, st0: State, inputs: seq<Input>)
    requires Reset(cfg, st0) && K > 0 && AllPrompt(K, cfg, st0, inputs) && AlwaysAwake(cfg, st0, inputs)
    ensures var events, L := Events(Play(cfg, st0, inputs).log), 5 * (Bound(K) + 1);
      && |inputs| <= events * L + Watch(cfg, st0, inputs).silent
      && forall m: nat :: m * L <= |inputs| ==> m <= events
  {
    hide Reset, Step, Observe, Events, Tick, Eventful, Seen, Choices, Prompt, Bound, OnTime;
    var L := 5 * (Bound(K) + 1);
    var events, silent := Events(Play(cfg, st0, inputs).log), Watch(cfg, st0, inputs).silent;
    PipelineKeepsGoing(K, cfg, st0, inputs);
    if inputs != [] {
      var n := |inputs| - 1;
      var h := Play(cfg, st0, inputs[..n]);
      EventsKeepPace(K, cfg, st0, inputs[..n]);
      PipelineKeepsGoing(K, cfg, st0, inputs[..n]);
      CycleCounts(cfg, h.st, inputs[n], h.log, Watch(cfg, st0, inputs[..n]));
      if Eventful(cfg, h.st, inputs[n]) { Scales(Events(h.log), events, L); }
    }
    forall m: nat | m * L <= |inputs| ensures m <= events { AtLeast(events, m, L, silent); }
  }

  lemma AtLeast(events: nat, m: nat, n: nat, rest: nat)
    requires m * n <= events * n + rest && rest < n
    ensures events >= m
  {
    if events < m { Scales(events, m, n); }
  }
}
