/** Interrupts are not only allowed but taken: while one is pending and enabled no instruction gets past
    EX, and a trap is entered, by a sleeping core too, within a bounded number of cycles. */
module Interrupts {
  import opened Words
  import opened Decode
  import opened Pipeline
  import opened Relation
  import opened Stalling
  import opened Departing
  import opened Following
  import opened Simulation
  import opened Runs
  import opened Guarantees
  import opened Software
  import opened Progress
  import Execution
  import Fetch
  import Harness
  import Csr
  import M = Machine

  /** An instruction completes EX. */
  predicate LeavesEx(cfg: Config, st: State, i: Input) {
    Advance(st, i) && st.ex.valid && !TrapEnter(cfg, st, i)
  }

  predicate Raised(st: State, i: Input) { Csr.IrqPending(st.csr, i.pins) }

  /** A pending, enabled interrupt lets nothing past EX; unless an older bus fault or the instruction's
      own exception comes first, the trap is the interrupt's. */
  lemma NothingPasses(cfg: Config, st: State, i: Input)
    requires Raised(st, i)
    ensures !LeavesEx(cfg, st, i)
    ensures Advance(st, i) && st.ex.valid && !DataFault(st, i) && !SyncTrap(cfg, st, i) ==>
      Trapping(cfg, st, i) == Some(M.Trap(st.ex.pc, Csr.IrqCause(st.csr, i.pins), 0))
  {
    hide Advance, DataFault, SyncTrap, RefusalCause, CsrPort, OperandA, OperandB, Csr.IrqPending;
  }

  /** Until the trap the pending interrupt stays pending, since only an instruction in EX could mask it. */
  lemma StaysPending(cfg: Config, st: State, i: Input, j: Input)
    requires Raised(st, i) && !TrapEnter(cfg, st, i)
    ensures Raised(Step(cfg, st, i), j) == Raised(st, j)
  {
    NothingPasses(cfg, st, i);
    hide Step, Advance, TrapEnter, Csr.IrqPending, Redirecting;
    if Advance(st, i) {
      CsrIdles(cfg, st, i);
      CountedKeeps(st.csr, st.wb.valid, j.pins);
    } else {
      Frozen(cfg, st, i);
    }
  }

  // ---- How far the interrupt is from EX ------------------------------------------------------

  /** Advancing cycles until EX holds an instruction, or the core has woken and fetched one. */
  function Away(st: State): nat {
    if st.ex.valid then 0
    else if st.id.valid then 1 + if st.mem.valid then 2 else if st.wb.valid then 1 else 0
    else if st.sleep then 5
    else 4
  }

  lemma EmptyExFlows(w: Flight, st: State, i: Input, s: M.Arch, v: Csr.Volatile)
    requires Related(w, st, s, v) && Advance(st, i) && !st.ex.valid && !TrapEnter(w.cfg, st, i)
    ensures !FlushIfId(w.cfg, st, i)
    ensures StallId(st) <==> st.id.valid && Control(st.id.instr).csrEn && (st.mem.valid || st.wb.valid)
  {
    ExIsDecoded(w, st, s, v);
    hide Related, Advance, OperandA, OperandB, Control, CsrPort, Illegal, TargetMisaligned, DataMisaligned,
         Csr.WakePending, TrapEnter;
  }

  lemma PendingWakes(cfg: Config, st: State, i: Input)
    requires Raised(st, i) && !st.ex.valid
    ensures !Step(cfg, st, i).sleep
  {
    hide NextPc, NextFetch, NextId, NextEx, NextMem, NextWb, NextRegs, NextMdu, NextLatch, CsrCommand, Csr.Clock,
         Csr.ClockCycle, TrapEnter, Advance, Csr.External, Csr.Software, Csr.Timer;
  }

  lemma AdvanceNears(w: Flight, st: State, i: Input, s: M.Arch, v: Csr.Volatile)
    requires Related(w, st, s, v) && Raised(st, i) && Advance(st, i) && !TrapEnter(w.cfg, st, i)
    ensures Away(Step(w.cfg, st, i)) < Away(st)
  {
    NothingPasses(w.cfg, st, i);
    assert !st.ex.valid by { hide Advance, TrapEnter, Related, Raised; }
    EmptyExFlows(w, st, i, s, v);
    PendingWakes(w.cfg, st, i);
    MemWbMove(w.cfg, st, i);
    if StallId(st) {
      WaitStages(w.cfg, st, i);
    } else {
      MoveStages(w.cfg, st, i);
      if !st.sleep { FetchCompletes(st, i); }
    }
    hide Related, Step, Advance, TrapEnter, FlushIfId, StallId, Response, Fetch.Outputs, NormalNext, NextWb,
         NextRegs, IdRead, Control, Immediate, ExResult, OperandA, OperandB, Link, Fetch.Clock, MduResult, CsrPort,
         WfiSleep, Raised;
  }

  lemma WaitStages(cfg: Config, st: State, i: Input)
    requires Advance(st, i) && !FlushIfId(cfg, st, i) && StallId(st)
    ensures var t := Step(cfg, st, i); t.id == st.id && !t.ex.valid
  {
    hide Advance, SystemRedirect, Redirecting, StallId, IfIdInput, IdExInput, NextMem, NextWb, NextMdu, NextLatch,
         NextSleep, CsrCommand, Csr.Clock, NextFetch, NextPc, NextRegs, Csr.ClockCycle;
  }

  lemma StallStays(cfg: Config, st: State, i: Input)
    requires !Advance(st, i) && (!st.ex.valid ==> Benign(st.ex.ctrl))
    ensures Away(Step(cfg, st, i)) <= Away(st)
  {
    Frozen(cfg, st, i);
    hide Step, Advance, OperandA, OperandB;
  }

  // ---- Over runs -----------------------------------------------------------------------------

  /** Cycles left at most until the trap. */
  function Left(K: nat, st: State, q: Waits): int { Span(K, Away(st)) + Wait(K, st, q) }

  /** An advance brings EX nearer, and a stalled cycle the end of the stall. */
  lemma Nears(K: nat, st: State, q: Waits, st': State, q': Waits)
    requires 0 <= Wait(K, st, q) <= Bound(K) && 0 <= Wait(K, st', q') <= Bound(K)
    requires Away(st') < Away(st) || (Away(st') <= Away(st) && Wait(K, st', q') < Wait(K, st, q))
    ensures Left(K, st', q') < Left(K, st, q)
  {
    hide Away, Wait, Bound;
    if Away(st') < Away(st) { Scales(Away(st'), Away(st), Bound(K) + 1); }
  }

  /** If each port accepts within K cycles, then from any moment of any run, asleep or not: while an
      enabled interrupt is held pending no instruction completes EX, and a trap is entered within
      6(max(2K, 32) + 1) cycles: in the n-th one, unless the interrupt was held for fewer. */
  lemma {:induction false} HeldInterruptIsTaken(K: nat, cfg: Config, st0: State, before: seq<Input>, more: seq<Input>)
    returns (n: nat)
    requires Reset(cfg, st0) && K > 0 && AllPrompt(K, cfg, st0, before + more)
    requires forall i <- more :: Raised(Play(cfg, st0, before).st, i)
    ensures n <= |more| && (|more| >= 6 * (Bound(K) + 1) ==> n < |more|)
    ensures n < |more| ==> TrapEnter(cfg, Play(cfg, st0, before + more[..n]).st, more[n])
    ensures forall m :: 0 <= m <= n && m < |more| ==> !LeavesEx(cfg, Play(cfg, st0, before + more[..m]).st, more[m])
    ensures n == |more| ==>
      var st := Play(cfg, st0, before + more).st;
      && 0 <= |more| + Left(K, st, Watch(cfg, st0, before + more).waits) < 6 * (Bound(K) + 1)
      && forall i :: Raised(Play(cfg, st0, before).st, i) ==> Raised(st, i)
  {
    hide Reset, Play, Watch, Wait, Bound, Away, Left, TrapEnter, LeavesEx, Raised, Related, Step, Prompt, WaitsOk,
         NextWaits, Observe, Seen, Choices, Benign, Execution.Decoded, Advance, Distance;
    PipelineKeepsGoing(K, cfg, st0, before + more);
    var st', q' := Play(cfg, st0, before + more).st, Watch(cfg, st0, before + more).waits;
    AlwaysDescribed(cfg, st0, before + more);
    var x, s', v' :| Related(x, st', s', v') && x.cfg == cfg;
    WaitAfter(x, K, st', q', s', v');
    LeftBounded(K, st', q');
    if more == [] {
      assert before + more == before;
      n := 0;
    } else {
      var k := |more| - 1;
      var init, i := before + more[..k], more[k];
      assert (before + more)[..|before + more| - 1] == init && before + more == init + [i];
      n := HeldInterruptIsTaken(K, cfg, st0, before, more[..k]);
      if n == k {
        var st, q := Play(cfg, st0, init).st, Watch(cfg, st0, init);
        NothingPasses(cfg, st, i);
        if !TrapEnter(cfg, st, i) {
          AlwaysDescribed(cfg, st0, init);
          var w, s, v :| Related(w, st, s, v) && w.cfg == cfg;
          PipelineKeepsGoing(K, cfg, st0, init);
          PlayExtends(cfg, st0, init, i);
          Harness.WatchExtends(K, cfg, st0, init, i);
          WaitAfter(w, K, st, q.waits, s, v);
          if Advance(st, i) {
            AdvanceNears(w, st, i, s, v);
          } else {
            ExIsDecoded(w, st, s, v);
            StallStays(cfg, st, i);
            StallShrinks(w, K, st, i, q.waits, s, v);
          }
          Nears(K, st, q.waits, st', q');
          forall j | Raised(st, j) ensures Raised(st', j) { StaysPending(cfg, st, i, j); }
          n := k + 1;
        }
      }
      forall m | 0 <= m <= n && m < |more|
        ensures !LeavesEx(cfg, Play(cfg, st0, before + more[..m]).st, more[m])
      {
        if m < k { assert more[..k][..m] == more[..m] && more[..k][m] == more[m]; }
      }
      if n < k { assert more[..k][..n] == more[..n]; }
    }
  }

  lemma LeftBounded(K: nat, st: State, q: Waits)
    requires 0 <= Wait(K, st, q) <= Bound(K)
    ensures 0 <= Left(K, st, q) < 6 * (Bound(K) + 1)
  {
    assert Away(st) <= 5;
    hide Away, Wait, Bound;
    Scales(Away(st), 6, Bound(K) + 1);
  }

  // ---- Sleep and wake ------------------------------------------------------------------------

  /** In every run, whatever MIE is: a sleeping core wakes in the first cycle in which a line is raised whose
      bit in mie is set, and in no other; and a core falls asleep exactly when a WFI leaves EX, untrapped,
      with no such line. */
  lemma SleepsAndWakes(cfg: Config, st0: State, inputs: seq<Input>, i: Input, v: Csr.Volatile, ids: Csr.Ids)
    requires Reset(cfg, st0)
    ensures var st, t := Play(cfg, st0, inputs).st, Play(cfg, st0, inputs + [i]).st;
      var waiting := Waiting(See(st.csr, v, ids, 0x304), i.pins);
      && (st.sleep ==> (t.sleep <==> !waiting))
      && (!st.sleep ==> (t.sleep <==> LeavesEx(cfg, st, i) && st.ex.instr == 0x1050_0073 && !waiting))
  {
    hide Reset, Play, Related, TrapEnter, Advance, Csr.WakePending, Waiting, See, Observe, Seen, Choices, NextPc,
         NextFetch, NextId, NextEx, NextMem, NextWb, NextRegs, NextMdu, NextLatch, CsrCommand, Csr.Clock,
         Csr.ClockCycle, Execution.Decoded, Control, Benign;
    PlayExtends(cfg, st0, inputs, i);
    var st := Play(cfg, st0, inputs).st;
    InterruptIsSeen(st.csr, i.pins, v, ids);
    AlwaysDescribed(cfg, st0, inputs);
    var x: Flight, s: M.Arch, u: Csr.Volatile :| Related(x, st, s, u) && x.cfg == cfg;
    ExIsDecoded(x, st, s, u);
    if st.ex.valid {
      DecodedControl(st.ex);
      WfiDecodes(st.ex.instr);
    }
  }

  lemma WakesNow(cfg: Config, st: State, i: Input)
    requires st.sleep && Waiting(st.csr.enables, i.pins)
    ensures !Step(cfg, st, i).sleep
  {
    InterruptIsSeen(st.csr, i.pins, Csr.Volatile(0, 0, i.pins), cfg.ids);
    hide WfiSleep, NextPc, NextFetch, NextId, NextEx, NextMem, NextWb, NextRegs, NextMdu, NextLatch, CsrCommand,
         Csr.Clock, Csr.ClockCycle, Csr.WakePending;
  }

  /** Awake, or with an instruction that is past EX. */
  predicate Underway(st: State) { !st.sleep || st.mem.valid || st.wb.valid }

  /** A cycle without a commit or a trap keeps it so. */
  lemma StaysUnderway(cfg: Config, st: State, i: Input)
    requires Underway(st) && Committing(st, i) == None && Trapping(cfg, st, i) == None
    ensures Underway(Step(cfg, st, i)) && !Eventful(cfg, st, i)
  {
    hide Step, Advance, TrapEnter, TrapRecord, CommitOf, NextWb, NextRegs, Csr.WakePending, ExResult, OperandA,
         OperandB, MduResult, CsrPort, Link, Redirecting;
    if Advance(st, i) { MemWbMove(cfg, st, i); } else { Frozen(cfg, st, i); }
  }

  /** If a sleeping core saw an enabled line and no event has happened since, it is awake or has an instruction
      past EX, and every cycle but the first was silent. */
  ghost predicate Waking(cfg: Config, st0: State, before: seq<Input>, more: seq<Input>) {
    exists b, h :: b == Play(cfg, st0, before) && h == Play(cfg, st0, before + more) &&
      (more != [] && b.st.sleep && Waiting(b.st.csr.enables, more[0].pins) ==>
         && Events(h.log) >= Events(b.log)
         && (Events(h.log) == Events(b.log) ==>
               Underway(h.st) && Watch(cfg, st0, before + more).silent + 1 >= |more|))
  }

  lemma {:induction false} AlwaysWaking(cfg: Config, st0: State, before: seq<Input>, more: seq<Input>)
    requires Reset(cfg, st0)
    ensures Waking(cfg, st0, before, more)
  {
    hide Reset, Play, Watch, Step, Seen, Choices, Eventful, NextWaits, Advance, Waiting, Committing, Trapping,
         Transferring;
    var b := Play(cfg, st0, before);
    if more == [] || !b.st.sleep || !Waiting(b.st.csr.enables, more[0].pins) { return; }
    var n := |more| - 1;
    var init, i := before + more[..n], more[n];
    assert before + more == init + [i];
    var h, all := Play(cfg, st0, init), Play(cfg, st0, before + more);
    PlayExtends(cfg, st0, init, i);
    if n == 0 {
      assert init == before && before + more == before + [more[0]];
      WakesNow(cfg, b.st, more[0]);
    } else {
      AlwaysWaking(cfg, st0, before, more[..n]);
      Harness.WatchExtends(1, cfg, st0, init, i);
      if Underway(h.st) && Committing(h.st, i) == None && Trapping(cfg, h.st, i) == None {
        StaysUnderway(cfg, h.st, i);
      }
    }
    assert Events(all.log) == Events(h.log) + |M.AsSeq(Committing(h.st, i))| + |M.AsSeq(Trapping(cfg, h.st, i))|;
  }

  /** A sleeping core that sees a raised line whose bit in mie is set, for one cycle and whatever MIE is,
      retires or traps within 5(max(2K, 32) + 1) further cycles, if each port accepts within K cycles. */
  lemma SleeperGoesOn(K: nat, cfg: Config, st0: State, before: seq<Input>, more: seq<Input>, v: Csr.Volatile,
                      ids: Csr.Ids)
    requires Reset(cfg, st0) && K > 0 && AllPrompt(K, cfg, st0, before + more) && |more| > 5 * (Bound(K) + 1)
    ensures var b, h := Play(cfg, st0, before), Play(cfg, st0, before + more);
      b.st.sleep && Waiting(See(b.st.csr, v, ids, 0x304), more[0].pins) ==> Events(h.log) > Events(b.log)
  {
    hide Reset, Play, Watch, AllPrompt, Bound, Waiting, See, OnTime, Underway, Events;
    CountedIsSeen(Play(cfg, st0, before).st.csr, false, v, ids);
    AlwaysWaking(cfg, st0, before, more);
    PipelineKeepsGoing(K, cfg, st0, before + more);
  }
}
