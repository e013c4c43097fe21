/** The restoring divider (iterative_divider.sv), for every operand width N >= 2. */
module Divider {
  import opened Powers

  datatype Phase = Idle | Run | Done

  datatype Operation = Div | Divu | Rem | Remu

  /** The registers of one engine.  Payload registers have no reset: their value
      before the first start is arbitrary. */
  datatype State = State(
    phase: Phase, iteration: nat, dividend: nat, divisor: nat, quotient: nat, remainder: nat,
    quotientNegative: bool, remainderNegative: bool, selectRemainder: bool,
    special: bool, specialResult: nat)

  predicate SignedOp(op: Operation) { op == Div || op == Rem }

  predicate RemainderOp(op: Operation) { op == Rem || op == Remu }

  // The standard's result, section 7.2 of the RISC-V Unprivileged ISA 20191213.

  /** Integer division rounding towards zero. */
  function Quotient(x: int, y: int): int
    requires y != 0
  {
    var q := Abs(x) / Abs(y);
    if (x < 0) != (y < 0) then -q else q
  }

  /** The remainder left by Quotient; it takes the sign of the dividend. */
  function Remainder(x: int, y: int): int
    requires y != 0
  {
    var r := Abs(x) % Abs(y);
    if x < 0 then -r else r
  }

  /** Quotient and Remainder are the pair the standard describes, and the only one. */
  lemma QuotientUnique(x: int, y: int, q: int, r: int)
    requires y != 0
    ensures (q == Quotient(x, y) && r == Remainder(x, y))
       <==> (x == y * q + r && Abs(r) < Abs(y) && (r == 0 || (r < 0) == (x < 0)))
  {
    hide Quotient, Remainder;
    QuotientWorks(x, y);
    if x == y * q + r && Abs(r) < Abs(y) && (r == 0 || (r < 0) == (x < 0)) {
      QuotientOnly(x, y, q, r);
    }
  }

  lemma QuotientWorks(x: int, y: int)
    requires y != 0
    ensures var q, r := Quotient(x, y), Remainder(x, y);
      x == y * q + r && Abs(r) < Abs(y) && (r == 0 || (r < 0) == (x < 0))
  {
    var a, b := Abs(x), Abs(y);
    DivModJoins(a, b);
    var m := a / b;
    NegateProduct(b, m);
  }

  lemma QuotientOnly(x: int, y: int, q: int, r: int)
    requires y != 0 && x == y * q + r && Abs(r) < Abs(y) && (r == 0 || (r < 0) == (x < 0))
    ensures q == Quotient(x, y) && r == Remainder(x, y)
  {
    var a, b := Abs(x), Abs(y);
    var m := if (x < 0) != (y < 0) then -q else q;
    NegateProduct(y, q);
    NegateProduct(b, m);
    DivModUnique(a, b, m, Abs(r));
  }

  function Encode(N: nat, x: int): nat {
    Low(x, N)
  }

  function Expected(N: nat, op: Operation, a: nat, b: nat): nat
    requires N >= 1 && b < Pow2(N)
  {
    var x, y := if SignedOp(op) then Value(N, a) else a, if SignedOp(op) then Value(N, b) else b;
    if b == 0 then (if RemainderOp(op) then a else Pow2(N) - 1)
    else if SignedOp(op) && a == Pow2(N - 1) && b == Pow2(N) - 1 then (if RemainderOp(op) then 0 else a)
    else Encode(N, if RemainderOp(op) then Remainder(x, y) else Quotient(x, y))
  }

  // The datapath of one cycle.

  function Shifted(N: nat, s: State): nat requires N >= 1 {
    2 * s.remainder + High(s.dividend, N - 1) % 2
  }

  predicate Fits(N: nat, s: State) requires N >= 1 { Shifted(N, s) >= s.divisor }

  function RemainderNext(N: nat, s: State): nat requires N >= 1 {
    Low(if Fits(N, s) then Shifted(N, s) - s.divisor else Shifted(N, s), N)
  }

  function QuotientNext(N: nat, s: State): nat requires N >= 1 {
    Low(2 * s.quotient + if Fits(N, s) then 1 else 0, N)
  }

  function QuotientCorrected(N: nat, s: State): nat requires N >= 1 {
    if s.quotientNegative then Negate(N, QuotientNext(N, s)) else QuotientNext(N, s)
  }

  function RemainderCorrected(N: nat, s: State): nat requires N >= 1 {
    if s.remainderNegative then Negate(N, RemainderNext(N, s)) else RemainderNext(N, s)
  }

  predicate FinalIteration(N: nat, s: State) requires N >= 1 {
    s.phase == Run && s.iteration == N - 1
  }

  predicate IsDone(N: nat, s: State) requires N >= 1 {
    s.phase == Done || FinalIteration(N, s)
  }

  function Result(N: nat, s: State): nat requires N >= 1 {
    if s.special then s.specialResult
    else if FinalIteration(N, s) then
      (if s.selectRemainder then RemainderCorrected(N, s) else QuotientCorrected(N, s))
    else if s.selectRemainder then s.remainder else s.quotient
  }

  /** The registers loaded by i_start in the idle state. */
  function Loaded(N: nat, a: nat, b: nat, op: Operation): State
    requires N >= 2 && a < Pow2(N) && b < Pow2(N)
  {
    var na, nb := SignedOp(op) && Negative(N, a), SignedOp(op) && Negative(N, b);
    var overflow := SignedOp(op) && a == Pow2(N - 1) && b == Pow2(N) - 1;
    State(Run, 0, Magnitude(N, SignedOp(op), a), Magnitude(N, SignedOp(op), b), 0, 0,
          na != nb, na, RemainderOp(op), b == 0 || overflow,
          if b == 0 then (if RemainderOp(op) then a else Pow2(N) - 1)
          else if RemainderOp(op) then 0 else a)
  }

  /** One clock edge. */
  function Clock(N: nat, s: State, start: bool, consume: bool, a: nat, b: nat, op: Operation): State
    requires N >= 2 && a < Pow2(N) && b < Pow2(N)
  {
    match s.phase
    case Idle => if start then Loaded(N, a, b, op) else s
    case Run =>
      if FinalIteration(N, s) then
        var t := s.(phase := if consume then Idle else Done);
        if s.special then t
        else t.(quotient := QuotientCorrected(N, s), remainder := RemainderCorrected(N, s))
      else
        var t := s.(iteration := Low(s.iteration + 1, CountWidth(N)));
        if s.special then t
        else t.(dividend := Low(2 * s.dividend, N), quotient := QuotientNext(N, s),
                remainder := RemainderNext(N, s))
    case Done => if consume then s.(phase := Idle) else s
  }

  // What the registers mean while an operation is in progress.

  /** After k steps of long division of A by B: the top k bits of A have been divided,
      the rest wait in the shifting dividend register. */
  ghost predicate Partial(N: nat, k: nat, dividend: nat, quotient: nat, remainder: nat, A: nat, B: nat)
    requires k <= N
  {
    && dividend == Low(A, N - k) * Pow2(k)
    && High(A, N - k) == quotient * B + remainder
    && remainder < B
  }

  ghost predicate Working(N: nat, s: State, op: Operation, a: nat, b: nat)
    requires N >= 2 && a < Pow2(N) && b < Pow2(N)
  {
    var loaded := Loaded(N, a, b, op);
    && s.phase != Idle
    && s.quotientNegative == loaded.quotientNegative && s.remainderNegative == loaded.remainderNegative
    && s.selectRemainder == loaded.selectRemainder
    && s.special == loaded.special && s.specialResult == loaded.specialResult
    && s.iteration <= N - 1
    && (s.phase == Run && !s.special ==>
          && s.divisor == loaded.divisor
          && Partial(N, s.iteration, s.dividend, s.quotient, s.remainder, loaded.dividend, loaded.divisor))
    && (s.phase == Done ==> s.iteration == N - 1 && Result(N, s) == Expected(N, op, a, b))
  }

  lemma PartialStarts(N: nat, A: nat, B: nat)
    requires A < Pow2(N) && B > 0
    ensures Partial(N, 0, A, 0, 0, A, B)
  {
    LowSmall(A, N);
    assert Pow2(0) == 1;
  }

  /** The dividend register's top bit is the next bit of A; shifting drops exactly that bit. */
  lemma DividendShifts(N: nat, k: nat, A: nat, d: nat)
    requires k < N && d == Low(A, N - k) * Pow2(k)
    ensures High(d, N - 1) == High(A, N - k - 1) % 2
    ensures Low(2 * d, N) == Low(A, N - k - 1) * Pow2(k + 1)
  {
    var m := N - k - 1;
    var lo, hi := Low(A, m), High(A, m) % 2;
    SplitNext(A, m);
    Pow2Adds(m, k);
    var p, w := Pow2(k), lo * Pow2(k);
    assert Pow2(N) == 2 * Pow2(N - 1) && Pow2(k + 1) == 2 * p && Pow2(m) > 0;
    hide *;
    ShiftArithmetic(lo, hi, Pow2(m), p);
    Splits(d, N - 1, hi, w);
    Splits(2 * d, N, hi, 2 * w);
  }

  lemma ShiftArithmetic(lo: nat, hi: nat, pm: nat, p: nat)
    requires lo < pm && 0 < p
    ensures (lo + hi * pm) * p == hi * (pm * p) + lo * p
    ensures lo * p < pm * p && lo * (2 * p) == 2 * (lo * p)
    ensures hi * (2 * (pm * p)) == 2 * (hi * (pm * p))
  {
    Distributes(lo, hi * pm, p);
    Associates(hi, pm, p);
    MulMono(lo, pm - 1, p);
    Distributes(pm, -1, p);
  }

  /** One restoring step divides one more bit of A. */
  lemma PartialSteps(N: nat, k: nat, s: State, A: nat, B: nat)
    requires k < N && A < Pow2(N) && 0 < B < Pow2(N) && s.divisor == B
    requires Partial(N, k, s.dividend, s.quotient, s.remainder, A, B)
    ensures Partial(N, k + 1, Low(2 * s.dividend, N), QuotientNext(N, s), RemainderNext(N, s), A, B)
  {
    hide Low, High, Pow2;
    DividendShifts(N, k, A, s.dividend);
    var m := N - k - 1;
    SplitNext(A, m);
    HighBound(A, m);
    var hi := High(A, m) % 2;
    assert High(A, m) == 2 * High(A, N - k) + hi;
    var q, r := StepQuotient(s.quotient, s.remainder, hi, B);
    MulMono(1, B, q);
    LowSmall(r, N);
    LowSmall(q, N);
  }

  /** The trial subtraction, without truncation. */
  lemma StepQuotient(q0: nat, r0: nat, bit: nat, B: nat) returns (q: nat, r: nat)
    requires r0 < B && bit < 2
    ensures 2 * (q0 * B + r0) + bit == q * B + r && r < B && B * q == q * B
    ensures q == 2 * q0 + (if 2 * r0 + bit >= B then 1 else 0)
    ensures r == if 2 * r0 + bit >= B then 2 * r0 + bit - B else 2 * r0 + bit
  {
    var fits := 2 * r0 + bit >= B;
    q, r := 2 * q0 + (if fits then 1 else 0), if fits then 2 * r0 + bit - B else 2 * r0 + bit;
    Distributes(2 * q0, if fits then 1 else 0, B);
    Associates(2, q0, B);
  }

  /** The value the final iteration presents is the standard's result. */
  lemma FinalResult(N: nat, s: State, op: Operation, a: nat, b: nat)
    requires N >= 2 && a < Pow2(N) && b < Pow2(N)
    requires Working(N, s, op, a, b) && FinalIteration(N, s)
    ensures Result(N, s) == Expected(N, op, a, b)
  {
    if !s.special {
      var l := Loaded(N, a, b, op);
      var A, B := l.dividend, l.divisor;
      MagnitudeValue(N, SignedOp(op), a);
      MagnitudeValue(N, SignedOp(op), b);
      QuotientMagnitude(N, s, A, B);
      var x, y := if SignedOp(op) then Value(N, a) else a, if SignedOp(op) then Value(N, b) else b;
      EncodesQuotient(N, x, y);
      hide Low, High, Pow2, Magnitude, QuotientNext, RemainderNext, Quotient, Remainder, Negate, Value, Partial;
      assert Abs(x) == A && Abs(y) == B;
      assert (x < 0) == l.remainderNegative && ((x < 0) != (y < 0)) == l.quotientNegative by {
        SignOfValue(N, op, a, b);
      }
    }
  }

  lemma SignOfValue(N: nat, op: Operation, a: nat, b: nat)
    requires N >= 2 && a < Pow2(N) && b < Pow2(N)
    ensures SignedOp(op) ==> (Value(N, a) < 0 <==> Negative(N, a)) && (Value(N, b) < 0 <==> Negative(N, b))
  {
  }

  lemma EncodesQuotient(N: nat, x: int, y: int)
    requires N >= 1 && Abs(x) < Pow2(N) && 0 < Abs(y) < Pow2(N)
    ensures Encode(N, Quotient(x, y))
         == if (x < 0) != (y < 0) then Negate(N, Abs(x) / Abs(y)) else Abs(x) / Abs(y)
    ensures Encode(N, Remainder(x, y)) == if x < 0 then Negate(N, Abs(x) % Abs(y)) else Abs(x) % Abs(y)
  {
    hide Pow2, Encode, Negate;
    var q, r := Abs(x) / Abs(y), Abs(x) % Abs(y);
    QuotientBound(Abs(x), Abs(y));
    assert Quotient(x, y) == (if (x < 0) != (y < 0) then 0 - q else q) && Remainder(x, y) == if x < 0 then 0 - r else r;
    hide Quotient, Remainder, Abs;
    Encodes(N, q, (x < 0) != (y < 0));
    Encodes(N, r, x < 0);
  }

  lemma QuotientMagnitude(N: nat, s: State, A: nat, B: nat)
    requires N >= 1 && A < Pow2(N) && 0 < B < Pow2(N) && s.divisor == B
    requires Partial(N, N - 1, s.dividend, s.quotient, s.remainder, A, B)
    ensures QuotientNext(N, s) == A / B && RemainderNext(N, s) == A % B
  {
    PartialSteps(N, N - 1, s, A, B);
    assert Pow2(0) == 1;
    hide QuotientNext, RemainderNext;
    assert High(A, 0) == A;
    DivModUnique(A, B, QuotientNext(N, s), RemainderNext(N, s));
  }

  /** Sign correction produces the N-bit encoding of the signed value. */
  lemma Encodes(N: nat, m: nat, negative: bool)
    requires m < Pow2(N)
    ensures (if negative then Negate(N, m) else m) == Encode(N, if negative then 0 - m else m)
  {
    NegateValue(N, m);
    LowSmall(m, N);
  }

  lemma Starts(N: nat, s: State, consume: bool, op: Operation, a: nat, b: nat)
    requires N >= 2 && a < Pow2(N) && b < Pow2(N) && s.phase == Idle
    ensures Working(N, Clock(N, s, true, consume, a, b, op), op, a, b)
  {
    var t := Clock(N, s, true, consume, a, b, op);
    MagnitudeValue(N, SignedOp(op), a);
    MagnitudeValue(N, SignedOp(op), b);
    if !t.special {
      PartialStarts(N, t.dividend, t.divisor);
    }
  }

  /** Every cycle keeps the meaning of the registers; operands presented meanwhile are ignored. */
  lemma Continues(N: nat, s: State, start: bool, a': nat, b': nat, op': Operation, op: Operation, a: nat, b: nat)
    requires N >= 2 && a < Pow2(N) && b < Pow2(N) && a' < Pow2(N) && b' < Pow2(N)
    requires Working(N, s, op, a, b)
    ensures var t := Clock(N, s, start, false, a', b', op');
      && Working(N, t, op, a, b)
      && (IsDone(N, s) ==> IsDone(N, t) && Result(N, t) == Result(N, s))
      && (!IsDone(N, s) ==> t.phase == Run && t.iteration == s.iteration + 1)
  {
    hide Loaded, Expected, Partial, Shifted, Fits, QuotientNext, RemainderNext, Low, High, Pow2, Negate;
    if FinalIteration(N, s) {
      FinalResult(N, s, op, a, b);
    } else if s.phase == Run {
      Iterates(N, s, op, a, b);
      CountsUp(N, s.iteration);
    }
  }

  lemma Iterates(N: nat, s: State, op: Operation, a: nat, b: nat)
    requires N >= 2 && a < Pow2(N) && b < Pow2(N)
    requires Working(N, s, op, a, b) && s.phase == Run && !FinalIteration(N, s)
    ensures var l := Loaded(N, a, b, op);
      !s.special ==> Partial(N, s.iteration + 1, Low(2 * s.dividend, N), QuotientNext(N, s), RemainderNext(N, s),
                             l.dividend, l.divisor)
  {
    if !s.special {
      var l := Loaded(N, a, b, op);
      MagnitudeValue(N, SignedOp(op), a);
      MagnitudeValue(N, SignedOp(op), b);
      hide Low, High, Pow2, Negate, QuotientNext, RemainderNext;
      PartialSteps(N, s.iteration, s, l.dividend, l.divisor);
    }
  }

  lemma DoneMeansExpected(N: nat, s: State, op: Operation, a: nat, b: nat)
    requires N >= 2 && a < Pow2(N) && b < Pow2(N)
    requires Working(N, s, op, a, b) && IsDone(N, s)
    ensures Result(N, s) == Expected(N, op, a, b)
  {
    if s.phase != Done { FinalResult(N, s, op, a, b); }
  }

  /** The engine j clock edges after the edge that took the start, not consumed meanwhile,
      whatever the operand inputs then carry. */
  ghost function After(N: nat, s: State, op: Operation, a: nat, b: nat, j: nat, noise: nat -> (bool, nat, nat,
          Operation)): State
    requires N >= 2 && a < Pow2(N) && b < Pow2(N)
    requires forall i: nat :: noise(i).1 < Pow2(N) && noise(i).2 < Pow2(N)
  {
    if j == 0 then Clock(N, s, true, false, a, b, op)
    else
      var t := After(N, s, op, a, b, j - 1, noise);
      Clock(N, t, noise(j).0, false, noise(j).1, noise(j).2, noise(j).3)
  }

  /** DIV, DIVU, REM and REMU for every width and operand pair: done is raised in the N-th
      cycle after the start and not before, and from then until the result is consumed
      the output is the standard's value. */
  lemma {:induction false} DividesInNCycles(
    N: nat, s: State, op: Operation, a: nat, b: nat, j: nat, noise: nat -> (bool, nat, nat, Operation))
    requires N >= 2 && a < Pow2(N) && b < Pow2(N) && s.phase == Idle
    requires forall i: nat :: noise(i).1 < Pow2(N) && noise(i).2 < Pow2(N)
    ensures var t := After(N, s, op, a, b, j, noise);
      && Working(N, t, op, a, b)
      && (IsDone(N, t) <==> j + 1 >= N)
      && (IsDone(N, t) ==> Result(N, t) == Expected(N, op, a, b))
      && (j + 1 <= N ==> t.phase == Run && t.iteration == j)
  {
    if j == 0 {
      Starts(N, s, false, op, a, b);
    } else {
      DividesInNCycles(N, s, op, a, b, j - 1, noise);
      var t := After(N, s, op, a, b, j - 1, noise);
      hide Clock, Working, Result, Expected;
      Continues(N, t, noise(j).0, noise(j).1, noise(j).2, noise(j).3, op, a, b);
    }
    var t := After(N, s, op, a, b, j, noise);
    if IsDone(N, t) { DoneMeansExpected(N, t, op, a, b); }
  }

  /** The engine as clocked hardware. */
  class Engine {
    const N: nat
    var phase: Phase
    var iteration: nat
    var dividend: nat
    var divisor: nat
    var quotient: nat
    var remainder: nat
    var quotientNegative: bool
    var remainderNegative: bool
    var selectRemainder: bool
    var special: bool
    var specialResult: nat

    function View(): State
      reads this
    {
      State(phase, iteration, dividend, divisor, quotient, remainder, quotientNegative, remainderNegative,
            selectRemainder, special, specialResult)
    }

    constructor (N: nat)
      ensures this.N == N && phase == Idle
    {
      this.N := N;
      phase := Idle;
    }

    method Load(a: nat, b: nat, op: Operation)
      requires N >= 2 && a < Pow2(N) && b < Pow2(N)
      modifies this
      ensures View() == Loaded(N, a, b, op)
    {
      hide Low, High, Pow2, Negative, Negate, Magnitude;
      var na, nb := SignedOp(op) && Negative(N, a), SignedOp(op) && Negative(N, b);
      phase, iteration, quotient, remainder := Run, 0, 0, 0;
      dividend := Magnitude(N, SignedOp(op), a);
      divisor := Magnitude(N, SignedOp(op), b);
      quotientNegative, remainderNegative := na != nb, na;
      selectRemainder := RemainderOp(op);
      special := b == 0 || (SignedOp(op) && a == Pow2(N - 1) && b == Pow2(N) - 1);
      specialResult := if b == 0 then (if RemainderOp(op) then a else Pow2(N) - 1)
                       else if RemainderOp(op) then 0 else a;
    }

    /** One iteration, the last of which corrects the signs and finishes. */
    method Iterate(consume: bool)
      requires N >= 2 && phase == Run
      modifies this
      ensures var s := old(View());
        View() == if FinalIteration(N, s) then
                    var t := s.(phase := if consume then Idle else Done);
                    if s.special then t
                    else t.(quotient := QuotientCorrected(N, s), remainder := RemainderCorrected(N, s))
                  else
                    var t := s.(iteration := Low(s.iteration + 1, CountWidth(N)));
                    if s.special then t
                    else t.(dividend := Low(2 * s.dividend, N), quotient := QuotientNext(N, s),
                            remainder := RemainderNext(N, s))
    {
      ghost var s := View();
      hide Low, High, Pow2, Negate, CountWidth;
      var shifted := 2 * remainder + High(dividend, N - 1) % 2;
      var fits := shifted >= divisor;
      var r := Low(if fits then shifted - divisor else shifted, N);
      var q := Low(2 * quotient + if fits then 1 else 0, N);
      assert r == RemainderNext(N, s) && q == QuotientNext(N, s);
      if iteration == N - 1 {
        phase := if consume then Idle else Done;
        if !special {
          quotient := if quotientNegative then Negate(N, q) else q;
          remainder := if remainderNegative then Negate(N, r) else r;
        }
      } else {
        if !special {
          dividend, quotient, remainder := Low(2 * dividend, N), q, r;
        }
        iteration := Low(iteration + 1, CountWidth(N));
      }
    }

    method Tick(start: bool, consume: bool, a: nat, b: nat, op: Operation)
      requires N >= 2 && a < Pow2(N) && b < Pow2(N)
      modifies this
      ensures View() == Clock(N, old(View()), start, consume, a, b, op)
    {
      hide Low, High, Pow2, Loaded, QuotientNext, RemainderNext, QuotientCorrected, RemainderCorrected, CountWidth;
      match phase {
        case Idle =>
          if start { Load(a, b, op); }
        case Run =>
          Iterate(consume);
        case Done =>
          if consume { phase := Idle; }
      }
    }
  }
}
