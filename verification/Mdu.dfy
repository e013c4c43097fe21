/** The multiply/divide wrapper (mdu_unit.sv): who owns which engine, when the pipeline
    must wait, and when a result is consumed. */
module Mdu {
  import opened Powers
  import opened Words
  import M = Multiplier
  import D = Divider

  datatype State = State(mul: M.State, div: D.State)

  predicate Divides(f3: nat) { f3 >= 4 }

  function MulOp(f3: nat): M.Operation {
    if f3 == 0 then M.Mul else if f3 == 1 then M.Mulh else if f3 == 2 then M.Mulhsu else M.Mulhu
  }

  /** i_operation is funct3[1:0]. */
  function DivOp(f3: nat): D.Operation {
    if f3 % 4 == 0 then D.Div else if f3 % 4 == 1 then D.Divu else if f3 % 4 == 2 then D.Rem else D.Remu
  }

  predicate IsDone(N: nat, s: State, f3: nat) requires N >= 2 {
    if Divides(f3) then D.IsDone(N, s.div) else M.IsDone(N, s.mul)
  }

  predicate Stall(N: nat, s: State, active: bool, f3: nat) requires N >= 2 {
    active && !IsDone(N, s, f3)
  }

  function Result(N: nat, s: State, active: bool, f3: nat): nat requires N >= 2 {
    if !active then 0
    else if Divides(f3) then D.Result(N, s.div)
    else M.Result(N, s.mul)
  }

  /** The start and consume equations, then one edge of both engines. */
  function Clock(N: nat, s: State, active: bool, f3: nat, a: nat, b: nat, ready: bool): State
    requires N >= 2 && a < Pow2(N) && b < Pow2(N)
  {
    var mulDone, divDone := M.IsDone(N, s.mul), D.IsDone(N, s.div);
    var forMul, forDiv := active && !Divides(f3), active && Divides(f3);
    State(
      M.Clock(N, s.mul, forMul && s.mul.phase == M.Idle && !mulDone, forMul && mulDone && ready, a, b, MulOp(f3)),
      D.Clock(N, s.div, forDiv && s.div.phase == D.Idle && !divDone, forDiv && divDone && ready, a, b, DivOp(f3)))
  }

  /** What the eight M instructions compute. */
  function Expected(N: nat, f3: nat, a: nat, b: nat): nat
    requires N >= 2 && a < Pow2(N) && b < Pow2(N)
  {
    if Divides(f3) then D.Expected(N, DivOp(f3), a, b) else M.Expected(N, MulOp(f3), a, b)
  }

  predicate BothIdle(s: State) { s.mul.phase == M.Idle && s.div.phase == D.Idle }

  /** Engine ownership: an engine is busy only on behalf of the instruction now in EX, with
      that instruction's operands. */
  ghost predicate Owned(N: nat, s: State, active: bool, f3: nat, a: nat, b: nat)
    requires N >= 2 && a < Pow2(N) && b < Pow2(N)
  {
    if !active then BothIdle(s)
    else if Divides(f3) then
      s.mul.phase == M.Idle && (s.div.phase == D.Idle || D.Working(N, s.div, DivOp(f3), a, b))
    else
      s.div.phase == D.Idle && (s.mul.phase == M.Idle || M.Working(N, s.mul, MulOp(f3), a, b))
  }

  /** Cycles until the owning instruction has its result. */
  function Left(N: nat, s: State, active: bool, f3: nat): int requires N >= 2 {
    if !active then 0
    else if Divides(f3) then
      match s.div.phase case Idle => N case Run => N - 1 - s.div.iteration case Done => 0
    else
      match s.mul.phase case Idle => N case Run => N - 1 - s.mul.iteration case Done => 0
  }

  /** An edge either consumes the finished result, leaving both engines idle, or keeps the
      ownership with the same operands and brings the result one cycle nearer. */
  lemma ClockKeepsOwnership(N: nat, s: State, active: bool, f3: nat, a: nat, b: nat, ready: bool)
    requires N >= 2 && a < Pow2(N) && b < Pow2(N) && Owned(N, s, active, f3, a, b)
    ensures var t := Clock(N, s, active, f3, a, b, ready);
      && (Stall(N, s, active, f3) || !ready ==>
            && Owned(N, t, active, f3, a, b)
            && Left(N, t, active, f3) == (if Stall(N, s, active, f3) then Left(N, s, active, f3) - 1 else 0))
      && (!Stall(N, s, active, f3) && ready ==> BothIdle(t))
      && Left(N, s, active, f3) >= 0
      && (Stall(N, s, active, f3) <==> Left(N, s, active, f3) > 0)
  {
    if active && Divides(f3) {
      DivideClock(N, s, f3, a, b, ready);
    } else if active {
      MultiplyClock(N, s, f3, a, b, ready);
    } else {
      hide M.IsDone, D.IsDone;
    }
  }

  lemma DivideClock(N: nat, s: State, f3: nat, a: nat, b: nat, ready: bool)
    requires N >= 2 && a < Pow2(N) && b < Pow2(N) && Owned(N, s, true, f3, a, b) && Divides(f3)
    ensures var t := Clock(N, s, true, f3, a, b, ready);
      && (Stall(N, s, true, f3) || !ready ==>
            && Owned(N, t, true, f3, a, b)
            && Left(N, t, true, f3) == (if Stall(N, s, true, f3) then Left(N, s, true, f3) - 1 else 0))
      && (!Stall(N, s, true, f3) && ready ==> BothIdle(t))
      && Left(N, s, true, f3) >= 0
      && (Stall(N, s, true, f3) <==> Left(N, s, true, f3) > 0)
  {
    var op := DivOp(f3);
    if s.div.phase == D.Idle {
      D.Starts(N, s.div, false, op, a, b);
      hide D.Working;
    } else if !(D.IsDone(N, s.div) && ready) {
      D.Continues(N, s.div, false, a, b, op, op, a, b);
      hide D.Clock, D.Result, D.Expected, D.Loaded, D.Partial, Low, High, Pow2;
    } else {
      hide D.Loaded, D.Expected, D.Partial, Low, High, Pow2;
    }
  }

  lemma MultiplyClock(N: nat, s: State, f3: nat, a: nat, b: nat, ready: bool)
    requires N >= 2 && a < Pow2(N) && b < Pow2(N) && Owned(N, s, true, f3, a, b) && !Divides(f3)
    ensures var t := Clock(N, s, true, f3, a, b, ready);
      && (Stall(N, s, true, f3) || !ready ==>
            && Owned(N, t, true, f3, a, b)
            && Left(N, t, true, f3) == (if Stall(N, s, true, f3) then Left(N, s, true, f3) - 1 else 0))
      && (!Stall(N, s, true, f3) && ready ==> BothIdle(t))
      && Left(N, s, true, f3) >= 0
      && (Stall(N, s, true, f3) <==> Left(N, s, true, f3) > 0)
  {
    var op := MulOp(f3);
    if s.mul.phase == M.Idle {
      M.Starts(N, s.mul, false, op, a, b);
      hide M.Working;
    } else if !(M.IsDone(N, s.mul) && ready) {
      M.Continues(N, s.mul, false, a, b, op, op, a, b);
      hide M.Clock, M.Result, M.Expected, M.Loaded, M.Partial, Low, High, Pow2;
    } else {
      hide M.Loaded, M.Expected, M.Partial, Low, High, Pow2;
    }
  }

  /** When the wrapper stops stalling its result is the instruction's, whatever happened before. */
  lemma OwnedResult(N: nat, s: State, f3: nat, a: nat, b: nat)
    requires N >= 2 && a < Pow2(N) && b < Pow2(N) && Owned(N, s, true, f3, a, b)
    requires !Stall(N, s, true, f3)
    ensures Result(N, s, true, f3) == Expected(N, f3, a, b)
  {
    if Divides(f3) {
      D.DoneMeansExpected(N, s.div, DivOp(f3), a, b);
    } else {
      M.DoneMeansExpected(N, s.mul, MulOp(f3), a, b);
    }
  }

  // The 32-bit instance the pipeline uses.

  const WIDTH: nat := 32

  function WordClock(s: State, active: bool, f3: nat, a: Word, b: Word, ready: bool): State {
    WordWidth();
    Clock(WIDTH, s, active, f3, a, b, ready)
  }

  predicate WordStall(s: State, active: bool, f3: nat) {
    Stall(WIDTH, s, active, f3)
  }

  function WordResult(s: State, active: bool, f3: nat): Word {
    Wrap(Result(WIDTH, s, active, f3))
  }

  function WordExpected(f3: nat, a: Word, b: Word): Word {
    WordWidth();
    Wrap(Expected(WIDTH, f3, a, b))
  }

  ghost predicate WordOwned(s: State, active: bool, f3: nat, a: Word, b: Word) {
    WordWidth();
    Owned(WIDTH, s, active, f3, a, b)
  }

  function WordLeft(s: State, active: bool, f3: nat): int {
    Left(WIDTH, s, active, f3)
  }

  lemma WordClockKeepsOwnership(s: State, active: bool, f3: nat, a: Word, b: Word, ready: bool)
    requires WordOwned(s, active, f3, a, b)
    ensures var t := WordClock(s, active, f3, a, b, ready);
      && (WordStall(s, active, f3) || !ready ==>
            && WordOwned(t, active, f3, a, b)
            && WordLeft(t, active, f3) == (if WordStall(s, active, f3) then WordLeft(s, active, f3) - 1 else 0))
      && (!WordStall(s, active, f3) && ready ==> BothIdle(t))
      && WordLeft(s, active, f3) >= 0
      && (WordStall(s, active, f3) <==> WordLeft(s, active, f3) > 0)
  {
    WordWidth();
    hide Pow2, Clock, Owned, Stall, Left;
    ClockKeepsOwnership(WIDTH, s, active, f3, a, b, ready);
  }

  lemma WordOwnedResult(s: State, f3: nat, a: Word, b: Word)
    requires WordOwned(s, true, f3, a, b) && !WordStall(s, true, f3)
    ensures WordResult(s, true, f3) == WordExpected(f3, a, b)
  {
    WordWidth();
    hide Pow2, Owned, Stall, Result, Expected;
    OwnedResult(WIDTH, s, f3, a, b);
  }

  /** A fresh instruction may take ownership of idle engines; dropping a finished one leaves none busy. */
  lemma IdleIsOwned(s: State, active: bool, f3: nat, a: Word, b: Word)
    requires BothIdle(s)
    ensures WordOwned(s, active, f3, a, b)
  {
    WordWidth();
    hide Pow2, D.Working, M.Working;
  }

  /** The wrapper as clocked hardware: two engines behind the start and consume equations. */
  class Unit {
    const mul: M.Engine
    const div: D.Engine

    predicate Valid() {
      mul.N == WIDTH && div.N == WIDTH
    }

    function View(): State
      reads mul, div
    {
      State(mul.View(), div.View())
    }

    constructor ()
      ensures Valid() && fresh(mul) && fresh(div) && BothIdle(View())
    {
      mul := new M.Engine(WIDTH);
      div := new D.Engine(WIDTH);
    }

    method Tick(active: bool, f3: nat, a: Word, b: Word, ready: bool)
      requires Valid()
      modifies mul, div
      ensures View() == WordClock(old(View()), active, f3, a, b, ready)
    {
      WordWidth();
      hide Pow2, M.Clock, D.Clock;
      var mulDone := mul.phase == M.Done || (mul.phase == M.Run && mul.iteration == WIDTH - 1);
      var divDone := div.phase == D.Done || (div.phase == D.Run && div.iteration == WIDTH - 1);
      var forMul, forDiv := active && !Divides(f3), active && Divides(f3);
      mul.Tick(forMul && mul.phase == M.Idle && !mulDone, forMul && mulDone && ready, a, b, MulOp(f3));
      div.Tick(forDiv && div.phase == D.Idle && !divDone, forDiv && divDone && ready, a, b, DivOp(f3));
    }
  }
}
