/** The shift-add multiplier (iterative_multiplier.sv), for every operand width N >= 2. */
module Multiplier {
  import opened Powers

  datatype Phase = Idle | Run | Done

  datatype Operation = Mul | Mulh | Mulhsu | Mulhu

  /** `product` is the 2N-bit register: accumulator above, unused multiplier bits below. */
  datatype State = State(phase: Phase, iteration: nat, product: nat, multiplicand: nat,
                         negate: bool, selectHigh: bool)

  predicate SignedA(op: Operation) { op == Mulh || op == Mulhsu }

  predicate SignedB(op: Operation) { op == Mulh }

  function OperandA(N: nat, op: Operation, a: nat): int requires N >= 1 {
    if SignedA(op) then Value(N, a) else a
  }

  function OperandB(N: nat, op: Operation, b: nat): int requires N >= 1 {
    if SignedB(op) then Value(N, b) else b
  }

  /** The standard's result: one half of the exact product
      (section 7.1 of the RISC-V Unprivileged ISA 20191213). */
  function Expected(N: nat, op: Operation, a: nat, b: nat): nat
    requires N >= 1
  {
    var product := OperandA(N, op, a) * OperandB(N, op, b);
    if op == Mul then Low(product, N) else Low(High(product, N), N)
  }

  function Addend(s: State): nat {
    if s.product % 2 == 1 then s.multiplicand else 0
  }

  /** The N+1-bit sum of accumulator and selected multiplicand. */
  function UpperSum(N: nat, s: State): nat {
    Low(High(s.product, N) + Addend(s), N + 1)
  }

  function ProductNext(N: nat, s: State): nat requires N >= 1 {
    UpperSum(N, s) * Pow2(N - 1) + Low(s.product, N) / 2
  }

  function Corrected(N: nat, s: State): nat requires N >= 1 {
    if s.negate then Negate(2 * N, ProductNext(N, s)) else ProductNext(N, s)
  }

  predicate FinalIteration(N: nat, s: State) requires N >= 1 {
    s.phase == Run && s.iteration == N - 1
  }

  predicate IsDone(N: nat, s: State) requires N >= 1 {
    s.phase == Done || FinalIteration(N, s)
  }

  function Select(N: nat, high: bool, product: nat): nat {
    Low(if high then High(product, N) else product, N)
  }

  function Result(N: nat, s: State): nat requires N >= 1 {
    Select(N, s.selectHigh, if FinalIteration(N, s) then Corrected(N, s) else s.product)
  }

  function Loaded(N: nat, a: nat, b: nat, op: Operation): State
    requires N >= 2
  {
    var na, nb := SignedA(op) && Negative(N, a), SignedB(op) && Negative(N, b);
    State(Run, 0, Magnitude(N, SignedB(op), b), Magnitude(N, SignedA(op), a), na != nb, op != Mul)
  }

  /** One clock edge. */
  function Clock(N: nat, s: State, start: bool, consume: bool, a: nat, b: nat, op: Operation): State
    requires N >= 2
  {
    match s.phase
    case Idle => if start then Loaded(N, a, b, op) else s
    case Run =>
      if FinalIteration(N, s) then
        s.(phase := if consume then Idle else Done, product := Corrected(N, s))
      else
        s.(product := ProductNext(N, s), iteration := Low(s.iteration + 1, CountWidth(N)))
    case Done => if consume then s.(phase := Idle) else s
  }

  /** After k steps the low k multiplier bits have been multiplied in and the rest remain. */
  ghost predicate Partial(N: nat, k: nat, product: nat, A: nat, M: nat)
    requires k <= N
  {
    && product == A * Low(M, k) * Pow2(N - k) + High(M, k)
    && High(product, N) < Pow2(N)
  }

  ghost predicate Working(N: nat, s: State, op: Operation, a: nat, b: nat)
    requires N >= 2 && a < Pow2(N) && b < Pow2(N)
  {
    var loaded := Loaded(N, a, b, op);
    && s.phase != Idle
    && s.negate == loaded.negate && s.selectHigh == loaded.selectHigh
    && s.iteration <= N - 1
    && (s.phase == Run ==>
          && s.multiplicand == loaded.multiplicand
          && Partial(N, s.iteration, s.product, loaded.multiplicand, loaded.product))
    && (s.phase == Done ==> s.iteration == N - 1 && Result(N, s) == Expected(N, op, a, b))
  }

  lemma PartialStarts(N: nat, A: nat, M: nat)
    requires M < Pow2(N)
    ensures Partial(N, 0, M, A, M)
  {
    LowSmall(M, N);
    assert Pow2(0) == 1;
    assert Low(M, 0) == 0 && High(M, 0) == M;
  }

  /** The register's lowest bit is the next multiplier bit. */
  lemma NextBit(N: nat, k: nat, V: nat, A: nat, M: nat)
    requires k < N && Partial(N, k, V, A, M)
    ensures V % 2 == High(M, k) % 2
  {
    var p, x := Pow2(N - k - 1), A * Low(M, k);
    assert Pow2(N - k) == 2 * p;
    hide *;
    Associates(x, 2, p);
    assert x * (2 * p) == 2 * (x * p) by { Associates(2, x, p); }
  }

  /** Twice the shifted register is the old one with the selected multiplicand added on top. */
  lemma ShiftDoubles(N: nat, s: State)
    requires N >= 1 && s.multiplicand < Pow2(N) && High(s.product, N) < Pow2(N)
    ensures 2 * ProductNext(N, s) == s.product - s.product % 2 + Addend(s) * Pow2(N)
    ensures High(ProductNext(N, s), N) < Pow2(N)
  {
    hide Pow2, Low, High;
    var V, p := s.product, Pow2(N - 1);
    var U, L, S := High(V, N), Low(V, N), High(V, N) + Addend(s);
    Pow2Next(N - 1);
    Pow2Next(N);
    Joins(V, N);
    LowSmall(S, N + 1);
    EvenSplit(U, p, L);
    Distributes(U, Addend(s), 2 * p);
    Associates(S, 2, p);
    Associates(2, S, p);
    var h, b := S / 2, S % 2;
    Distributes(2 * h, b, p);
    Associates(2, h, p);
    Associates(h, 2, p);
    assert b * p == (if b == 1 then p else 0);
    Splits(ProductNext(N, s), N, h, b * p + L / 2);
  }

  lemma EvenSplit(U: nat, p: nat, L: nat)
    ensures (U * (2 * p) + L) % 2 == L % 2
  {
    Associates(U, 2, p);
    Associates(2, U, p);
  }

  lemma PartialSteps(N: nat, k: nat, s: State, A: nat, M: nat)
    requires k < N && A < Pow2(N) && s.multiplicand == A
    requires Partial(N, k, s.product, A, M)
    ensures Partial(N, k + 1, ProductNext(N, s), A, M)
  {
    NextBit(N, k, s.product, A, M);
    ShiftDoubles(N, s);
    SplitNext(M, k);
    Pow2Adds(k, N - k);
    assert Pow2(N - k) == 2 * Pow2(N - k - 1);
    hide Pow2, Low, High, ProductNext;
    StepDoubles(A, Low(M, k), High(M, k) % 2, Pow2(k), Pow2(N - k - 1));
  }

  lemma StepDoubles(A: nat, l: nat, bit: nat, pk: nat, p: nat)
    requires bit < 2
    ensures 2 * (A * (l + bit * pk) * p) == A * l * (2 * p) + (if bit == 1 then A else 0) * (pk * (2 * p))
  {
    var al := A * l;
    Associates(2, al, p);
    Associates(al, 2, p);
    if bit == 1 {
      Distributes(l, pk, A);
      assert A * (l + pk) == al + A * pk;
      Distributes(al, A * pk, p);
      Associates(A, pk, p);
      Associates(A, pk, 2 * p);
      Associates(A * pk, 2, p);
      Associates(2, A * pk, p);
    } else {
      assert bit * pk == 0;
    }
  }

  /** After N steps no multiplier bit is left: the register is the exact magnitude product. */
  lemma ExactProduct(N: nat, s: State, A: nat, M: nat)
    requires N >= 1 && A < Pow2(N) && M < Pow2(N) && s.multiplicand == A
    requires Partial(N, N - 1, s.product, A, M)
    ensures ProductNext(N, s) == A * M < Pow2(2 * N)
  {
    PartialSteps(N, N - 1, s, A, M);
    var v := ProductNext(N, s);
    hide ProductNext;
    NothingLeft(N, v, A, M);
    BoundedByHigh(N, v);
  }

  lemma NothingLeft(N: nat, v: nat, A: nat, M: nat)
    requires M < Pow2(N) && Partial(N, N, v, A, M)
    ensures v == A * M
  {
    LowSmall(M, N);
    assert Pow2(0) == 1;
    hide High, Low;
  }

  lemma BoundedByHigh(N: nat, v: nat)
    requires High(v, N) < Pow2(N)
    ensures v < Pow2(2 * N)
  {
    Joins(v, N);
    Pow2Adds(N, N);
    hide High, Low, Pow2;
    var p := Pow2(N);
    MulMono(High(v, N), p - 1, p);
    Distributes(p, -1, p);
  }

  /** Truncating to 2N bits loses nothing either half shows. */
  lemma HalvesOfLow(N: nat, x: int)
    ensures Low(Low(x, 2 * N), N) == Low(x, N)
    ensures Low(High(Low(x, 2 * N), N), N) == Low(High(x, N), N)
  {
    var y, p := Low(x, 2 * N), Pow2(N);
    Joins(x, 2 * N);
    Joins(x, N);
    Joins(y, N);
    Pow2Adds(N, N);
    hide High, Low, Pow2;
    var q := High(x, 2 * N);
    Associates(q, p, p);
    Distributes(q * p, High(y, N), p);
    Splits(x, N, q * p + High(y, N), Low(y, N));
    Joins(High(y, N), N);
    var z := High(y, N);
    Distributes(q, High(z, N), p);
    Splits(q * p + z, N, q + High(z, N), Low(z, N));
  }

  lemma FinalResult(N: nat, s: State, op: Operation, a: nat, b: nat)
    requires N >= 2 && a < Pow2(N) && b < Pow2(N)
    requires Working(N, s, op, a, b) && FinalIteration(N, s)
    ensures Result(N, s) == Expected(N, op, a, b)
  {
    hide Low, High, Pow2, ProductNext, Magnitude, Negate, Negative, Value, Partial;
    var l := Loaded(N, a, b, op);
    var x, y := OperandA(N, op, a), OperandB(N, op, b);
    MagnitudeValue(N, SignedA(op), a);
    MagnitudeValue(N, SignedB(op), b);
    ExactProduct(N, s, l.multiplicand, l.product);
    SignedProduct(x, y);
    SignOfOperands(N, op, a, b);
    CorrectedIsLow(N, s, x * y);
    HalvesOfLow(N, x * y);
  }

  /** Sign correction gives the low 2N bits of the signed product. */
  lemma CorrectedIsLow(N: nat, s: State, product: int)
    requires N >= 1 && ProductNext(N, s) < Pow2(2 * N)
    requires product == if s.negate then 0 - ProductNext(N, s) else ProductNext(N, s)
    ensures Corrected(N, s) == Low(product, 2 * N)
  {
    hide Low, High, Pow2, ProductNext, Negate;
    NegateValue(2 * N, ProductNext(N, s));
    LowSmall(ProductNext(N, s), 2 * N);
  }

  lemma SignOfOperands(N: nat, op: Operation, a: nat, b: nat)
    requires N >= 2 && a < Pow2(N) && b < Pow2(N)
    ensures Loaded(N, a, b, op).negate <==> (OperandA(N, op, a) < 0) != (OperandB(N, op, b) < 0)
  {
  }

  lemma SignedProduct(x: int, y: int)
    ensures x * y == if (x < 0) != (y < 0) then 0 - Abs(x) * Abs(y) else Abs(x) * Abs(y)
  {
    NegateProduct(Abs(x), Abs(y));
  }

  lemma Starts(N: nat, s: State, consume: bool, op: Operation, a: nat, b: nat)
    requires N >= 2 && a < Pow2(N) && b < Pow2(N) && s.phase == Idle
    ensures Working(N, Clock(N, s, true, consume, a, b, op), op, a, b)
  {
    MagnitudeValue(N, SignedB(op), b);
    var t := Clock(N, s, true, consume, a, b, op);
    PartialStarts(N, t.multiplicand, t.product);
  }

  lemma LoadedFits(N: nat, a: nat, b: nat, op: Operation)
    requires N >= 2 && a < Pow2(N)
    ensures Loaded(N, a, b, op).multiplicand < Pow2(N)
  {
    MagnitudeValue(N, SignedA(op), a);
  }

  /** Every cycle keeps the meaning of the registers; operands presented meanwhile are ignored. */
  lemma Continues(N: nat, s: State, start: bool, a': nat, b': nat, op': Operation, op: Operation, a: nat, b: nat)
    requires N >= 2 && a < Pow2(N) && b < Pow2(N)
    requires Working(N, s, op, a, b)
    ensures var t := Clock(N, s, start, false, a', b', op');
      && Working(N, t, op, a, b)
      && (IsDone(N, s) ==> IsDone(N, t) && Result(N, t) == Result(N, s))
      && (!IsDone(N, s) ==> t.phase == Run && t.iteration == s.iteration + 1)
  {
    hide Loaded, Expected, Partial, ProductNext, Corrected, Low, High, Pow2, Select, CountWidth;
    var l := Loaded(N, a, b, op);
    LoadedFits(N, a, b, op);
    if FinalIteration(N, s) {
      FinalResult(N, s, op, a, b);
    } else if s.phase == Run {
      PartialSteps(N, s.iteration, s, l.multiplicand, l.product);
      CountsUp(N, s.iteration);
    }
  }

  lemma DoneMeansExpected(N: nat, s: State, op: Operation, a: nat, b: nat)
    requires N >= 2 && a < Pow2(N) && b < Pow2(N)
    requires Working(N, s, op, a, b) && IsDone(N, s)
    ensures Result(N, s) == Expected(N, op, a, b)
  {
    if s.phase != Done { FinalResult(N, s, op, a, b); }
  }

  /** The engine j clock edges after the edge that took the start, not consumed meanwhile,
      whatever the operand inputs then carry. */
  ghost function After(N: nat, s: State, op: Operation, a: nat, b: nat, j: nat, noise: nat -> (bool, nat, nat,
          Operation)): State
    requires N >= 2
  {
    if j == 0 then Clock(N, s, true, false, a, b, op)
    else
      var t := After(N, s, op, a, b, j - 1, noise);
      Clock(N, t, noise(j).0, false, noise(j).1, noise(j).2, noise(j).3)
  }

  /** MUL, MULH, MULHSU and MULHU for every width and operand pair: done is raised in the N-th
      cycle after the start and not before, and from then until the result is consumed the
      output is the right half of the exact product. */
  lemma {:induction false} MultipliesInNCycles(
    N: nat, s: State, op: Operation, a: nat, b: nat, j: nat, noise: nat -> (bool, nat, nat, Operation))
    requires N >= 2 && a < Pow2(N) && b < Pow2(N) && s.phase == Idle
    ensures var t := After(N, s, op, a, b, j, noise);
      && Working(N, t, op, a, b)
      && (IsDone(N, t) <==> j + 1 >= N)
      && (IsDone(N, t) ==> Result(N, t) == Expected(N, op, a, b))
      && (j + 1 <= N ==> t.phase == Run && t.iteration == j)
  {
    if j == 0 {
      Starts(N, s, false, op, a, b);
    } else {
      MultipliesInNCycles(N, s, op, a, b, j - 1, noise);
      var t := After(N, s, op, a, b, j - 1, noise);
      hide Clock, Working, Result, Expected;
      Continues(N, t, noise(j).0, noise(j).1, noise(j).2, noise(j).3, op, a, b);
    }
    var t := After(N, s, op, a, b, j, noise);
    if IsDone(N, t) { DoneMeansExpected(N, t, op, a, b); }
  }

  /** The engine as clocked hardware. */
  class Engine {
    const N: nat
    var phase: Phase
    var iteration: nat
    var product: nat
    var multiplicand: nat
    var negate: bool
    var selectHigh: bool

    function View(): State
      reads this
    {
      State(phase, iteration, product, multiplicand, negate, selectHigh)
    }

    constructor (N: nat)
      ensures this.N == N && phase == Idle
    {
      this.N := N;
      phase := Idle;
    }

    method Tick(start: bool, consume: bool, a: nat, b: nat, op: Operation)
      requires N >= 2
      modifies this
      ensures View() == Clock(N, old(View()), start, consume, a, b, op)
    {
      hide Low, High, Pow2, Negative, Negate, Magnitude;
      match phase {
        case Idle =>
          if start {
            var na, nb := SignedA(op) && Negative(N, a), SignedB(op) && Negative(N, b);
            phase, iteration := Run, 0;
            product := Magnitude(N, SignedB(op), b);
            multiplicand := Magnitude(N, SignedA(op), a);
            negate, selectHigh := na != nb, op != Mul;
          }
        case Run =>
          var sum := Low(High(product, N) + if product % 2 == 1 then multiplicand else 0, N + 1);
          var next := sum * Pow2(N - 1) + Low(product, N) / 2;
          if iteration == N - 1 {
            phase := if consume then Idle else Done;
            product := if negate then Negate(2 * N, next) else next;
          } else {
            product := next;
            iteration := Low(iteration + 1, CountWidth(N));
          }
        case Done =>
          if consume { phase := Idle; }
      }
    }
  }
}
