/** The instruction set of the RISC-V Unprivileged ISA 20191213 in integers and binary digits: the
    encodings of chapter 24 and the meanings of chapters 2, 3, 7 and 9, with the MRET, WFI and exception
    codes of the Privileged Architecture 20211203.  No definition of the datapath or the decoder is used;
    what CSR accesses do is stated in module Software.  The reference machine is proved to execute exactly
    this. */
module Isa {
  import opened Words
  import opened Powers
  import opened Bits
  import opened Software
  import Decode
  import Alu
  import Fetch
  import LoadStore
  import Memory
  import Mdu
  import Csr
  import A = Assembler
  import E = Encode
  import P = Predicted
  import M = Machine

  // ---- Instructions --------------------------------------------------------------------------

  datatype Comparison = Eq | Ne | Lt | Ge | Ltu | Geu

  datatype Operation = Add | Sub | Sll | Slt | Sltu | Xor | Srl | Sra | Or | And
                     | Mul | Mulh | Mulhsu | Mulhu | Div | Divu | Rem | Remu

  datatype Update = Swap | SetBits | ClearBits

  datatype Instruction =
    | Lui(rd: Reg, upper: Word)
    | Auipc(rd: Reg, upper: Word)
    | Jal(rd: Reg, offset: int)
    | Jalr(rd: Reg, rs1: Reg, offset: int)
    | Branch(c: Comparison, rs1: Reg, rs2: Reg, offset: int)
    | Load(width: nat, signed: bool, rd: Reg, rs1: Reg, offset: int)
    | Store(width: nat, rs1: Reg, rs2: Reg, offset: int)
    | Immediate(op: Operation, rd: Reg, rs1: Reg, imm: int)
    | Register(op: Operation, rd: Reg, rs1: Reg, rs2: Reg)
    | CsrOp(u: Update, immediate: bool, rd: Reg, source: Reg, addr: nat)
    | Fence
    | Ecall
    | Ebreak
    | Mret
    | Wfi

  /** `size` values of the field whose lowest bit has this weight. */
  function Field(w: Word, weight: nat, size: nat): (r: nat)
    requires weight > 0 && size > 0
    ensures r < size
  {
    (w / weight) % size
  }

  function TwosComplement(v: nat, half: nat): int { if v < half then v else v - 2 * half }

  function OffsetI(w: Word): int { TwosComplement(w / 0x10_0000, 0x800) }

  function OffsetS(w: Word): int { TwosComplement((w / 0x200_0000) * 0x20 + Field(w, 0x80, 0x20), 0x800) }

  /** imm[12|10:5] at bits 31 to 25, imm[4:1|11] at bits 11 to 7; the sign bit weighs -4096. */
  function OffsetB(w: Word): int {
    -0x1000 * (w / 0x8000_0000) + 0x800 * Field(w, 0x80, 2) + 0x20 * Field(w, 0x200_0000, 0x40)
    + 2 * Field(w, 0x100, 0x10)
  }

  /** imm[20|10:1|11|19:12] at bits 31 to 12; the sign bit weighs -2^20. */
  function OffsetJ(w: Word): int {
    -0x10_0000 * (w / 0x8000_0000) + 0x1000 * Field(w, 0x1000, 0x100) + 0x800 * Field(w, 0x10_0000, 2)
    + 2 * Field(w, 0x20_0000, 0x400)
  }

  function BranchOf(f3: nat): Option<Comparison> {
    match f3
    case 0 => Some(Eq)
    case 1 => Some(Ne)
    case 4 => Some(Lt)
    case 5 => Some(Ge)
    case 6 => Some(Ltu)
    case 7 => Some(Geu)
    case _ => None
  }

  function RegisterOf(f3: nat, f7: nat): Option<Operation> {
    match (f7, f3)
    case (0, 0) => Some(Add)
    case (0x20, 0) => Some(Sub)
    case (0, 1) => Some(Sll)
    case (0, 2) => Some(Slt)
    case (0, 3) => Some(Sltu)
    case (0, 4) => Some(Xor)
    case (0, 5) => Some(Srl)
    case (0x20, 5) => Some(Sra)
    case (0, 6) => Some(Or)
    case (0, 7) => Some(And)
    case (1, 0) => Some(Mul)
    case (1, 1) => Some(Mulh)
    case (1, 2) => Some(Mulhsu)
    case (1, 3) => Some(Mulhu)
    case (1, 4) => Some(Div)
    case (1, 5) => Some(Divu)
    case (1, 6) => Some(Rem)
    case (1, 7) => Some(Remu)
    case _ => None
  }

  function ImmediateOf(w: Word, f3: nat, f7: nat, rd: Reg, rs1: Reg): Option<Instruction> {
    match f3
    case 0 => Some(Immediate(Add, rd, rs1, OffsetI(w)))
    case 2 => Some(Immediate(Slt, rd, rs1, OffsetI(w)))
    case 3 => Some(Immediate(Sltu, rd, rs1, OffsetI(w)))
    case 4 => Some(Immediate(Xor, rd, rs1, OffsetI(w)))
    case 6 => Some(Immediate(Or, rd, rs1, OffsetI(w)))
    case 7 => Some(Immediate(And, rd, rs1, OffsetI(w)))
    case 1 => if f7 == 0 then Some(Immediate(Sll, rd, rs1, Field(w, 0x10_0000, 0x20))) else None
    case 5 =>
      if f7 == 0 then Some(Immediate(Srl, rd, rs1, Field(w, 0x10_0000, 0x20)))
      else if f7 == 0x20 then Some(Immediate(Sra, rd, rs1, Field(w, 0x10_0000, 0x20)))
      else None
    case _ => None
  }

  function SystemOf(w: Word, f3: nat, rd: Reg, rs1: Reg): Option<Instruction> {
    match f3
    case 0 =>
      if w == 0x0000_0073 then Some(Ecall)
      else if w == 0x0010_0073 then Some(Ebreak)
      else if w == 0x3020_0073 then Some(Mret)
      else if w == 0x1050_0073 then Some(Wfi)
      else None
    case 1 => Some(CsrOp(Swap, false, rd, rs1, w / 0x10_0000))
    case 2 => Some(CsrOp(SetBits, false, rd, rs1, w / 0x10_0000))
    case 3 => Some(CsrOp(ClearBits, false, rd, rs1, w / 0x10_0000))
    case 5 => Some(CsrOp(Swap, true, rd, rs1, w / 0x10_0000))
    case 6 => Some(CsrOp(SetBits, true, rd, rs1, w / 0x10_0000))
    case 7 => Some(CsrOp(ClearBits, true, rd, rs1, w / 0x10_0000))
    case _ => None
  }

  /** The instruction a full-size word encodes, if any. */
  function Parse(w: Word): Option<Instruction> {
    var f3, f7 := Field(w, 0x1000, 8), w / 0x200_0000;
    var rd, rs1, rs2 := Field(w, 0x80, 0x20), Field(w, 0x8000, 0x20), Field(w, 0x10_0000, 0x20);
    match w % 0x80
    case 0x37 => Some(Lui(rd, w - w % 0x1000))
    case 0x17 => Some(Auipc(rd, w - w % 0x1000))
    case 0x6F => Some(Jal(rd, OffsetJ(w)))
    case 0x67 => if f3 == 0 then Some(Jalr(rd, rs1, OffsetI(w))) else None
    case 0x63 => (match BranchOf(f3) case Some(c) => Some(Branch(c, rs1, rs2, OffsetB(w))) case None => None)
    case 0x03 =>
      if f3 in {0, 1, 2} then Some(Load([1, 2, 4][f3], true, rd, rs1, OffsetI(w)))
      else if f3 in {4, 5} then Some(Load([1, 2][f3 - 4], false, rd, rs1, OffsetI(w)))
      else None
    case 0x23 => if f3 in {0, 1, 2} then Some(Store([1, 2, 4][f3], rs1, rs2, OffsetS(w))) else None
    case 0x13 => ImmediateOf(w, f3, f7, rd, rs1)
    case 0x33 => (match RegisterOf(f3, f7) case Some(op) => Some(Register(op, rd, rs1, rs2)) case None => None)
    case 0x0F => if f3 <= 1 then Some(Fence) else None
    case 0x73 => SystemOf(w, f3, rd, rs1)
    case _ => None
  }

  // ---- What they compute ---------------------------------------------------------------------

  function Value(w: Word): int { TwosComplement(w, 0x8000_0000) }

  predicate Holds(c: Comparison, a: Word, b: Word) {
    match c
    case Eq => a == b
    case Ne => a != b
    case Lt => Value(a) < Value(b)
    case Ge => Value(a) >= Value(b)
    case Ltu => a < b
    case Geu => a >= b
  }

  /** The quotient rounded toward zero. */
  function Truncated(x: int, y: int): int
    requires y != 0
  {
    var m := (if x < 0 then -x else x) / (if y < 0 then -y else y);
    if (x < 0) == (y < 0) then m else -m
  }

  function Quotient(a: Word, b: Word): int {
    if b == 0 then -1
    else if Value(a) == -0x8000_0000 && Value(b) == -1 then -0x8000_0000
    else Truncated(Value(a), Value(b))
  }

  function Remainder(a: Word, b: Word): int {
    if b == 0 then Value(a)
    else if Value(a) == -0x8000_0000 && Value(b) == -1 then 0
    else Value(a) - Value(b) * Truncated(Value(a), Value(b))
  }

  /** The result of an operation on two words, before truncation to 32 bits. */
  function Result(op: Operation, a: Word, b: Word): int
    requires op !in {Xor, Or, And}
  {
    match op
    case Add => a + b
    case Sub => a - b
    case Sll => a * Pow2(b % 0x20)
    case Slt => if Value(a) < Value(b) then 1 else 0
    case Sltu => if a < b then 1 else 0
    case Srl => a / Pow2(b % 0x20)
    case Sra => Value(a) / Pow2(b % 0x20)
    case Mul => a * b
    case Mulh => (Value(a) * Value(b)) / 0x1_0000_0000
    case Mulhsu => (Value(a) * b) / 0x1_0000_0000
    case Mulhu => (a * b) / 0x1_0000_0000
    case Div => Quotient(a, b)
    case Divu => if b == 0 then 0xFFFF_FFFF else a / b
    case Rem => Remainder(a, b)
    case Remu => if b == 0 then a else a % b
    case _ => 0
  }

  ghost predicate Computes(op: Operation, a: Word, b: Word, r: Word) {
    match op
    case Xor => forall k: nat :: k < 32 ==> (Digit(r, k) == 1 <==> Digit(a, k) != Digit(b, k))
    case Or => forall k: nat :: k < 32 ==> (Digit(r, k) == 1 <==> Digit(a, k) == 1 || Digit(b, k) == 1)
    case And => forall k: nat :: k < 32 ==> (Digit(r, k) == 1 <==> Digit(a, k) == 1 && Digit(b, k) == 1)
    case _ => r == Result(op, a, b) % 0x1_0000_0000
  }

  /** The new value of a CSR: old bits, a register or a five-bit number, and the new bits. */
  ghost predicate Updates(u: Update, before: Word, x: Word, r: Word) {
    match u
    case Swap => r == x
    case SetBits => forall k: nat :: k < 32 ==> (Digit(r, k) == 1 <==> Digit(before, k) == 1 || Digit(x, k) == 1)
    case ClearBits => forall k: nat :: k < 32 ==> (Digit(r, k) == 1 <==> Digit(before, k) == 1 && Digit(x, k) == 0)
  }

  // ---- Memory accesses -----------------------------------------------------------------------

  /** Byte k of a word. */
  function Octet(w: Word, k: nat): nat
    requires k < 4
  {
    Field(w, [1, 0x100, 0x1_0000, 0x100_0000][k], 0x100)
  }

  /** The number in `width` bytes of a bus word from lane `offset` on. */
  function Lanes(w: Word, offset: nat, width: nat): nat
    requires offset + width <= 4 && width in {1, 2, 4}
  {
    if width == 1 then Octet(w, offset)
    else if width == 2 then Octet(w, offset) + 0x100 * Octet(w, offset + 1)
    else w
  }

  /** What a load of this width gets from the bus word around its address. */
  function Extended(width: nat, signed: bool, addr: Word, rdata: Word): Word
    requires width in {1, 2, 4} && addr % width == 0
  {
    var v := Lanes(rdata, addr % 4, width);
    if !signed || width == 4 then v
    else if width == 1 then TwosComplement(v, 0x80) % 0x1_0000_0000
    else TwosComplement(v, 0x8000) % 0x1_0000_0000
  }

  ghost predicate Reads(o: M.Outcome, width: nat, signed: bool, addr: Word)
    requires o.Done? && width in {1, 2, 4} && addr % width == 0
  {
    && o.access.Load?
    && (forall rdata: Word, error: bool ::
          M.TransferOf(o.access, rdata, error)
            == Some(M.Transfer(false, addr, 0, 0, if width == 1 then 0 else if width == 2 then 1 else 2, rdata, error)))
    && forall rdata: Word :: M.Loaded(o, rdata) == Extended(width, signed, addr, rdata)
  }

  /** The lanes from the address on, and no others, are strobed and carry the register's low bytes. */
  ghost predicate Stores(o: M.Outcome, width: nat, addr: Word, data: Word)
    requires o.Done? && width in {1, 2, 4} && addr % width == 0
  {
    && o.access.Store?
    && forall rdata: Word, error: bool ::
         var t := M.TransferOf(o.access, rdata, error);
         && t.Some? && t.value.write && t.value.addr == addr && t.value.rdata == rdata && t.value.error == error
         && t.value.size == (if width == 1 then 0 else if width == 2 then 1 else 2)
         && t.value.strobes < 16
         && forall lane: nat :: lane < 4 ==>
              && (Digit(t.value.strobes, lane) == 1 <==> addr % 4 <= lane < addr % 4 + width)
              && (addr % 4 <= lane < addr % 4 + width ==>
                    Octet(t.value.data, lane) == Octet(data, lane - addr % 4))
  }

  // ---- What they do --------------------------------------------------------------------------

  function Read(s: M.Arch, r: Reg): Word { if r == 0 then 0 else s.x[r] }

  function Next(s: M.Arch, length: nat): Word { (s.pc + length) % 0x1_0000_0000 }

  function Quiet(s: M.Arch, next: Word): M.Outcome { M.Done(next, false, 0, 0, M.NoAccess, s.csr) }

  function Sets(s: M.Arch, next: Word, rd: Reg, value: Word): M.Outcome {
    M.Done(next, true, rd, value, M.NoAccess, s.csr)
  }

  ghost predicate CsrMeans(u: Update, immediate: bool, rd: Reg, source: Reg, addr: nat, next: Word, raw: Word,
                           ids: Csr.Ids, s: M.Arch, v: Csr.Volatile, o: M.Outcome) {
    var port, x := Csr.Read(s.csr, v, ids, addr), if immediate then source else Read(s, source);
    var writes := u == Swap || source != 0;
    if !port.valid || (writes && !port.writable) then o == M.Except(2, raw)
    else
      && o.Done? && o == M.Done(next, true, rd, port.data, M.NoAccess, o.csr)
      && if writes then exists w: Word :: Updates(u, port.data, x, w) && o.csr == Csr.Write(s.csr, addr, w)
         else o.csr == s.csr
  }

  /** What an instruction of this length does, up to the answer of memory. */
  ghost predicate Means(i: Instruction, length: nat, raw: Word, ids: Csr.Ids, s: M.Arch, v: Csr.Volatile,
                        o: M.Outcome) {
    var next := Next(s, length);
    match i
    case Lui(rd, upper) => o == Sets(s, next, rd, upper)
    case Auipc(rd, upper) => o == Sets(s, next, rd, (s.pc + upper) % 0x1_0000_0000)
    case Jal(rd, offset) =>
      var target := (s.pc + offset) % 0x1_0000_0000;
      o == if target % 2 == 1 then M.Except(0, target) else Sets(s, target, rd, next)
    case Jalr(rd, rs1, offset) =>
      var sum := (Read(s, rs1) + offset) % 0x1_0000_0000;
      o == Sets(s, sum - sum % 2, rd, next)
    case Branch(c, rs1, rs2, offset) =>
      var target := (s.pc + offset) % 0x1_0000_0000;
      o == if !Holds(c, Read(s, rs1), Read(s, rs2)) then Quiet(s, next)
           else if target % 2 == 1 then M.Except(0, target)
           else Quiet(s, target)
    case Load(width, signed, rd, rs1, offset) =>
      width in {1, 2, 4} &&
      var addr := (Read(s, rs1) + offset) % 0x1_0000_0000;
      if addr % width != 0 then o == M.Except(4, addr)
      else o.Done? && o == M.Done(next, true, rd, 0, o.access, s.csr) && Reads(o, width, signed, addr)
    case Store(width, rs1, rs2, offset) =>
      width in {1, 2, 4} &&
      var addr := (Read(s, rs1) + offset) % 0x1_0000_0000;
      if addr % width != 0 then o == M.Except(6, addr)
      else o.Done? && o == M.Done(next, false, 0, 0, o.access, s.csr) && Stores(o, width, addr, Read(s, rs2))
    case Immediate(op, rd, rs1, imm) =>
      o.Done? && o == Sets(s, next, rd, o.value) && Computes(op, Read(s, rs1), imm % 0x1_0000_0000, o.value)
    case Register(op, rd, rs1, rs2) =>
      o.Done? && o == Sets(s, next, rd, o.value) && Computes(op, Read(s, rs1), Read(s, rs2), o.value)
    case CsrOp(u, immediate, rd, source, addr) =>
      CsrMeans(u, immediate, rd, source, addr, next, raw, ids, s, v, o)
    case Fence => o == Quiet(s, next)
    case Ecall => o == M.Except(11, 0)
    case Ebreak => o == M.Except(3, 0)
    case Mret => o == M.Done(s.csr.mepc, false, 0, 0, M.NoAccess, s.csr.(mie := s.csr.mpie, mpie := true))
    case Wfi => o == Quiet(s, next)
  }

  // ---- The reference machine executes it -----------------------------------------------------

  /** The decoder's fields and immediates are those of the standard. */
  lemma FieldsAgree(w: Word)
    ensures Decode.Opcode(w) == w % 0x80 && Decode.Funct3(w) == Field(w, 0x1000, 8)
    ensures Decode.Funct7(w) == w / 0x200_0000 && Decode.CsrField(w) == w / 0x10_0000
    ensures Decode.Rd(w) == Field(w, 0x80, 0x20) && Decode.Rs1(w) == Field(w, 0x8000, 0x20)
    ensures Decode.Rs2(w) == Field(w, 0x10_0000, 0x20)
    ensures Decode.ImmU(w) == w - w % 0x1000
  {
  }

  /** A sign digit of weight -half against sign extension. */
  lemma SignWeighs(top: nat, rest: nat, half: nat)
    requires 0 < half <= 0x8000_0000 && top < 2 && rest < half
    ensures SignExtend(top * half + rest, half) == Wrap(rest - top * half)
  {
    if top == 0 { assert top * half == 0; } else { assert top == 1 && top * half == half; }
  }

  lemma OffsetIAgrees(w: Word)
    ensures Decode.ImmI(w) == Wrap(OffsetI(w))
    ensures Decode.ImmI(w) % 0x20 == Field(w, 0x10_0000, 0x20)
  {
  }

  lemma OffsetSAgrees(w: Word)
    ensures Decode.ImmS(w) == Wrap(OffsetS(w))
  {
    FieldsAgree(w);
    assert Field(w, 0x80, 0x20) < 0x20 && w / 0x200_0000 < 0x80;
    hide Field, Decode.Funct7, Decode.Rd;
  }

  lemma OffsetBAgrees(w: Word)
    ensures Decode.ImmB(w) == Wrap(OffsetB(w))
  {
    var a, b, c, d := w / 0x8000_0000, Field(w, 0x80, 2), Field(w, 0x200_0000, 0x40), Field(w, 0x100, 0x10);
    assert a < 2 && b < 2 && c < 0x40 && d < 0x10;
    SignWeighs(a, 0x800 * b + 0x20 * c + 2 * d, 0x1000);
    hide Wrap, SignExtend;
  }

  lemma OffsetJAgrees(w: Word)
    ensures Decode.ImmJ(w) == Wrap(OffsetJ(w))
  {
    var a, b, c, d := w / 0x8000_0000, Field(w, 0x1000, 0x100), Field(w, 0x10_0000, 2), Field(w, 0x20_0000, 0x400);
    assert a < 2 && b < 0x100 && c < 2 && d < 0x400;
    SignWeighs(a, 0x1000 * b + 0x800 * c + 2 * d, 0x10_0000);
    hide Wrap, SignExtend;
  }

  lemma WrapAdds(x: int, y: int)
    ensures Wrap(x + Wrap(y)) == (x + y) % 0x1_0000_0000
  {
  }

  function AluOf(op: Operation): Decode.AluOp {
    match op
    case Add => Decode.AluAdd
    case Sub => Decode.AluSub
    case Sll => Decode.AluSll
    case Slt => Decode.AluSlt
    case Sltu => Decode.AluSltu
    case Xor => Decode.AluXor
    case Srl => Decode.AluSrl
    case Sra => Decode.AluSra
    case Or => Decode.AluOr
    case And => Decode.AluAnd
    case _ => Decode.AluMul
  }

  function Named(op: Operation): A.Mnemonic {
    match op
    case Mul => A.Mul
    case Mulh => A.Mulh
    case Mulhsu => A.Mulhsu
    case Mulhu => A.Mulhu
    case Div => A.Div
    case Divu => A.Divu
    case Rem => A.Rem
    case Remu => A.Remu
    case _ => A.Add
  }

  predicate Single(op: Operation) { op in {Add, Sub, Sll, Slt, Sltu, Xor, Srl, Sra, Or, And} }

  lemma GatesMean(a: Word, b: Word)
    ensures Computes(Xor, a, b, Alu.Xor(a, b)) && Computes(Or, a, b, Alu.Or(a, b)) && Computes(And, a, b, Alu.And(a, b))
  {
    hide Digit, Alu.Xor, Alu.Or, Alu.And, Alu.Not, Result;
    forall k: nat | k < 32
      ensures Digit(Alu.Xor(a, b), k) == 1 <==> Digit(a, k) != Digit(b, k)
      ensures Digit(Alu.Or(a, b), k) == 1 <==> Digit(a, k) == 1 || Digit(b, k) == 1
      ensures Digit(Alu.And(a, b), k) == 1 <==> Digit(a, k) == 1 && Digit(b, k) == 1
    {
      Alu.BitwiseByDigits(a, b, k);
    }
  }

  /** The single-cycle datapath. */
  lemma ComputeMeans(op: Operation, a: Word, b: Word)
    requires Single(op)
    ensures Computes(op, a, b, Alu.Compute(AluOf(op), a, b))
  {
    hide Digit, Alu.Xor, Alu.Or, Alu.And, Pow2, Alu.ShiftRightSigned, Alu.ShiftRight, Alu.ShiftLeft;
    GatesMean(a, b);
    P.ShiftsAgree(a, b % 32);
    P.FlooredShift(a, b % 32);
  }

  lemma TruncatedIsQuotient(x: int, y: int)
    requires y != 0
    ensures Truncated(x, y) == P.SignedQuotient(x, y) && y * Truncated(x, y) == P.SignedQuotient(x, y) * y
  {
    assert Truncated(x, y) == P.SignedQuotient(x, y);
    hide Truncated, P.SignedQuotient;
  }

  lemma ValueIsSigned(a: Word)
    ensures Value(a) == Signed(a)
  {
  }

  /** The multiply and divide engines. */
  lemma MultiplyMeans(op: Operation, w: Word, a: Word, b: Word)
    requires !Single(op) && Decode.Opcode(w) == 0x33
    requires Decode.Funct3(w) == A.F3(Named(op)) && Decode.Funct7(w) == 1
    ensures Computes(op, a, b, M.RegisterOp(w, a, b))
  {
    hide Decode.Opcode, Decode.Funct3, Decode.Funct7, M.RegisterOp, Result, P.RegisterValue;
    P.RegisterValueAgrees(Named(op), w, a, b);
    if op in {Mul, Mulh, Mulhsu, Mulhu} { ProductIs(op, a, b); } else { QuotientIs(op, a, b); }
  }

  lemma ProductIs(op: Operation, a: Word, b: Word)
    requires op in {Mul, Mulh, Mulhsu, Mulhu}
    ensures Result(op, a, b) == P.RegisterValue(Named(op), a, b)
  {
    hide Value, Signed, P.Division;
    ValueIsSigned(a);
    ValueIsSigned(b);
  }

  lemma QuotientIs(op: Operation, a: Word, b: Word)
    requires op in {Div, Divu, Rem, Remu}
    ensures Result(op, a, b) == P.RegisterValue(Named(op), a, b)
  {
    hide Value, Signed, Truncated, P.SignedQuotient;
    ValueIsSigned(a);
    ValueIsSigned(b);
    if b != 0 {
      ValueNonZero(b);
      TruncatedIsQuotient(Value(a), Value(b));
    }
  }

  lemma ValueNonZero(b: Word)
    requires b != 0
    ensures Value(b) != 0
  {
  }

  /** What fetch delivers is executed as the standard says, or refused as illegal with the word as it was
      fetched. */
  ghost predicate Meant(f: Fetch.Fetched, ids: Csr.Ids, s: M.Arch, v: Csr.Volatile) {
    var o := M.Execute(ids, f, s, v);
    match Parse(f.instr)
    case Some(i) => Means(i, if f.compressed then 2 else 4, f.raw, ids, s, v, o)
    case None => o == M.Except(2, f.raw)
  }

  lemma UpperMeans(f: Fetch.Fetched, ids: Csr.Ids, s: M.Arch, v: Csr.Volatile)
    requires !f.fault && f.instr % 0x80 in {0x37, 0x17}
    ensures Meant(f, ids, s, v)
  {
    FieldsAgree(f.instr);
    hide Field, Decode.Opcode, Decode.Funct3, Decode.Funct7, Decode.Rd, Decode.ImmU, Decode.Rs1, Decode.Rs2;
  }

  lemma JalMeans(f: Fetch.Fetched, ids: Csr.Ids, s: M.Arch, v: Csr.Volatile)
    requires !f.fault && f.instr % 0x80 == 0x6F
    ensures Meant(f, ids, s, v)
  {
    var w := f.instr;
    hide Field, Decode.Opcode, Decode.Funct3, Decode.Funct7, Decode.Rd, Decode.ImmJ, OffsetJ, Decode.Rs1, Decode.Rs2;
    FieldsAgree(w);
    OffsetJAgrees(w);
    WrapAdds(s.pc, OffsetJ(w));
  }

  lemma JalrMeans(f: Fetch.Fetched, ids: Csr.Ids, s: M.Arch, v: Csr.Volatile)
    requires !f.fault && f.instr % 0x80 == 0x67
    ensures Meant(f, ids, s, v)
  {
    var w := f.instr;
    hide Field, Decode.Opcode, Decode.Funct3, Decode.Funct7, Decode.Rd, Decode.ImmI, OffsetI, Decode.Rs1, Decode.Rs2;
    FieldsAgree(w);
    OffsetIAgrees(w);
    WrapAdds(Read(s, Field(w, 0x8000, 0x20)), OffsetI(w));
  }

  lemma BranchMeans(f: Fetch.Fetched, ids: Csr.Ids, s: M.Arch, v: Csr.Volatile)
    requires !f.fault && f.instr % 0x80 == 0x63
    ensures Meant(f, ids, s, v)
  {
    var w := f.instr;
    FieldsAgree(w);
    OffsetBAgrees(w);
    WrapAdds(s.pc, OffsetB(w));
    hide Field, Decode.Opcode, Decode.Funct3, Decode.Funct7, Decode.Rd, Decode.ImmU, Decode.Rs1, Decode.Rs2,
         Decode.ImmB, OffsetB;
  }

  lemma LoadedIs(o: M.Outcome, width: nat, signed: bool, addr: Word)
    requires o.Done? && width in {1, 2, 4} && addr % width == 0 && (width == 4 ==> signed)
    requires o.access == M.Load(addr, if width == 1 then (if signed then 0 else 4)
                                      else if width == 2 then (if signed then 1 else 5) else 2)
    ensures Reads(o, width, signed, addr)
  {
    forall rdata: Word ensures M.Loaded(o, rdata) == Extended(width, signed, addr, rdata) {
      ExtendedIs(width, signed, addr, rdata);
    }
    hide LoadStore.LoadData, Extended;
  }

  lemma SignsExtend(v: nat, half: nat)
    requires 0 < half <= 0x8000 && v < 2 * half
    ensures SignExtend(v, half) == TwosComplement(v, half) % 0x1_0000_0000
  {
  }

  lemma ByteIs(signed: bool, offset: nat, w: Word)
    requires offset < 4
    ensures LoadStore.LoadData(if signed then 0 else 4, offset, w)
         == if signed then TwosComplement(Octet(w, offset), 0x80) % 0x1_0000_0000 else Octet(w, offset)
  {
    OctetsAre(w);
    SignsExtend(Octet(w, offset), 0x80);
    hide Octet, LoadStore.Byte, LoadStore.HalfOf, SignExtend, TwosComplement;
  }

  lemma HalfIs(signed: bool, offset: nat, w: Word)
    requires offset in {0, 2}
    ensures var v := Octet(w, offset) + 0x100 * Octet(w, offset + 1);
      LoadStore.LoadData(if signed then 1 else 5, offset, w)
        == if signed then TwosComplement(v, 0x8000) % 0x1_0000_0000 else v
  {
    OctetsAre(w);
    SignsExtend(LoadStore.HalfOf(w, offset), 0x8000);
    hide Octet, LoadStore.Byte, LoadStore.HalfOf, SignExtend, TwosComplement;
  }

  lemma ExtendedIs(width: nat, signed: bool, addr: Word, rdata: Word)
    requires width in {1, 2, 4} && addr % width == 0 && (width == 4 ==> signed)
    ensures LoadStore.LoadData(if width == 1 then (if signed then 0 else 4)
                               else if width == 2 then (if signed then 1 else 5) else 2, addr % 4, rdata)
         == Extended(width, signed, addr, rdata)
  {
    hide Octet, TwosComplement;
    if width == 1 {
      ByteIs(signed, addr % 4, rdata);
      hide LoadStore.LoadData;
    } else if width == 2 {
      HalfIs(signed, addr % 4, rdata);
      hide LoadStore.LoadData;
    } else {
      WordIs(addr % 4, rdata);
      hide LoadStore.LoadData;
    }
  }

  lemma WordIs(offset: nat, w: Word)
    ensures LoadStore.LoadData(2, offset, w) == w
  {
  }

  lemma OctetsAre(w: Word)
    ensures forall k: nat :: k < 4 ==> Octet(w, k) == LoadStore.Byte(w, k)
    ensures LoadStore.HalfOf(w, 0) == Octet(w, 0) + 0x100 * Octet(w, 1)
    ensures LoadStore.HalfOf(w, 2) == Octet(w, 2) + 0x100 * Octet(w, 3)
  {
  }

  lemma LoadMeans(f: Fetch.Fetched, ids: Csr.Ids, s: M.Arch, v: Csr.Volatile)
    requires !f.fault && f.instr % 0x80 == 0x03
    ensures Meant(f, ids, s, v)
  {
    var w := f.instr;
    FieldsAgree(w);
    OffsetIAgrees(w);
    var addr: Word := (Read(s, Field(w, 0x8000, 0x20)) + OffsetI(w)) % 0x1_0000_0000;
    WrapAdds(Read(s, Field(w, 0x8000, 0x20)), OffsetI(w));
    hide Field, Decode.Opcode, Decode.Funct3, Decode.Funct7, Decode.Rd, Decode.ImmU, Decode.Rs1, Decode.Rs2,
         Decode.ImmI, OffsetI, Reads;
    var o := M.Execute(ids, f, s, v);
    match Parse(w) {
      case Some(i) => if o.Done? { LoadedIs(o, i.width, i.signed, addr); }
      case None =>
    }
  }

  lemma StoredIs(o: M.Outcome, width: nat, addr: Word, data: Word)
    requires o.Done? && width in {1, 2, 4} && addr % width == 0
    requires o.access == M.Store(addr, if width == 1 then 0 else if width == 2 then 1 else 2, data)
    ensures Stores(o, width, addr, data)
  {
    hide LoadStore.StoreData, LoadStore.ByteEnable, Octet, Digit, LoadStore.Byte, LoadStore.HalfOf;
    OctetsAre(data);
    OctetsAre(LoadStore.StoreData(o.access.ty, addr % 4, data));
    forall lane: nat | lane < 4
      ensures Digit(LoadStore.ByteEnable(o.access.ty, addr % 4), lane) == 1 <==> addr % 4 <= lane < addr % 4 + width
      ensures addr % 4 <= lane < addr % 4 + width ==>
        Octet(LoadStore.StoreData(o.access.ty, addr % 4, data), lane) == Octet(data, lane - addr % 4)
    {
      StrobeIs(width, addr % 4, lane);
      if addr % 4 <= lane < addr % 4 + width {
        Memory.StoreLanes(o.access.ty, addr % 4, data, lane - addr % 4);
      }
    }
  }

  lemma StrobeIs(width: nat, offset: nat, lane: nat)
    requires width in {1, 2, 4} && offset < 4 && offset % width == 0 && lane < 4
    ensures Digit(LoadStore.ByteEnable(if width == 1 then 0 else if width == 2 then 1 else 2, offset), lane) == 1
       <==> offset <= lane < offset + width
  {
    assert Pow2(0) == 1 && Pow2(1) == 2 && Pow2(2) == 4 && Pow2(3) == 8;
  }

  lemma StoreMeans(f: Fetch.Fetched, ids: Csr.Ids, s: M.Arch, v: Csr.Volatile)
    requires !f.fault && f.instr % 0x80 == 0x23
    ensures Meant(f, ids, s, v)
  {
    var w := f.instr;
    FieldsAgree(w);
    OffsetSAgrees(w);
    var addr: Word := (Read(s, Field(w, 0x8000, 0x20)) + OffsetS(w)) % 0x1_0000_0000;
    WrapAdds(Read(s, Field(w, 0x8000, 0x20)), OffsetS(w));
    hide Field, Decode.Opcode, Decode.Funct3, Decode.Funct7, Decode.Rd, Decode.ImmU, Decode.Rs1, Decode.Rs2,
         Decode.ImmS, OffsetS, Stores;
    var o := M.Execute(ids, f, s, v);
    match Parse(w) {
      case Some(i) => if o.Done? { StoredIs(o, i.width, addr, Read(s, i.rs2)); }
      case None =>
    }
  }

  lemma ImmediateMeans(f: Fetch.Fetched, ids: Csr.Ids, s: M.Arch, v: Csr.Volatile)
    requires !f.fault && f.instr % 0x80 == 0x13
    ensures Meant(f, ids, s, v)
  {
    var w := f.instr;
    hide Field, Decode.Opcode, Decode.Funct3, Decode.Funct7, Decode.Rd, Decode.Rs1, Decode.Rs2, Decode.ImmI, OffsetI,
         Alu.Compute, Computes, M.Jump, M.Branch, M.ExecuteLoad, M.ExecuteStore, M.ExecuteSystem, M.RegisterOp,
         SystemOf, BranchOf, RegisterOf, CsrMeans, Reads, Stores, Holds;
    FieldsAgree(w);
    OffsetIAgrees(w);
    match Parse(w) {
      case Some(i) =>
        ComputeMeans(i.op, Read(s, i.rs1), Decode.ImmI(w));
        if i.op in {Sll, Srl, Sra} {
          AmountOnly(i.op, Read(s, i.rs1), Decode.ImmI(w), i.imm, M.ImmediateOp(w, Read(s, i.rs1)));
        }
      case None =>
    }
  }

  /** A shift looks at the five low bits only. */
  lemma AmountOnly(op: Operation, a: Word, b: Word, n: int, r: Word)
    requires op in {Sll, Srl, Sra} && 0 <= n < 0x20 && b % 0x20 == n && Computes(op, a, b, r)
    ensures Computes(op, a, n % 0x1_0000_0000, r)
  {
    hide Pow2;
  }

  lemma RegisterMeans(f: Fetch.Fetched, ids: Csr.Ids, s: M.Arch, v: Csr.Volatile)
    requires !f.fault && f.instr % 0x80 == 0x33
    ensures Meant(f, ids, s, v)
  {
    var w := f.instr;
    hide Field, Decode.Opcode, Decode.Funct3, Decode.Funct7, Decode.Rd, Decode.Rs1, Decode.Rs2, Alu.Compute, Computes,
         Mdu.WordExpected, M.Jump, M.Branch, M.ExecuteLoad, M.ExecuteStore, M.ExecuteSystem, M.ImmediateOp, SystemOf,
         BranchOf, ImmediateOf, CsrMeans, Reads, Stores, Holds;
    FieldsAgree(w);
    match Parse(w) {
      case Some(i) =>
        if Single(i.op) {
          ComputeMeans(i.op, Read(s, i.rs1), Read(s, i.rs2));
        } else {
          MultiplyMeans(i.op, w, Read(s, i.rs1), Read(s, i.rs2));
        }
      case None =>
    }
  }

  lemma FenceMeans(f: Fetch.Fetched, ids: Csr.Ids, s: M.Arch, v: Csr.Volatile)
    requires !f.fault && f.instr % 0x80 == 0x0F
    ensures Meant(f, ids, s, v)
  {
    hide Field, Decode.Opcode, Decode.Funct3, Decode.Funct7, Decode.Rd, Decode.Rs1, Decode.Rs2;
    FieldsAgree(f.instr);
  }

  lemma UpdateMeans(u: Update, before: Word, x: Word)
    ensures Updates(u, before, x, M.CsrResult(match u case Swap => Decode.CsrAssign case SetBits => Decode.CsrSet
                                              case ClearBits => Decode.CsrClear, before, x))
  {
    hide Digit, Alu.Xor, Alu.Or, Alu.And, Alu.Not;
    forall k: nat | k < 32
      ensures Digit(Alu.Or(before, x), k) == 1 <==> Digit(before, k) == 1 || Digit(x, k) == 1
      ensures Digit(Alu.And(before, Alu.Not(x)), k) == 1 <==> Digit(before, k) == 1 && Digit(x, k) == 0
    {
      Alu.BitwiseByDigits(before, x, k);
      Alu.BitwiseByDigits(x, before, k);
      Alu.BitwiseByDigits(before, Alu.Not(x), k);
    }
  }

  lemma SystemMeans(f: Fetch.Fetched, ids: Csr.Ids, s: M.Arch, v: Csr.Volatile)
    requires !f.fault && f.instr % 0x80 == 0x73
    ensures Meant(f, ids, s, v)
  {
    var w := f.instr;
    hide Field, Decode.Opcode, Decode.Funct3, Decode.Funct7, Decode.Rd, Decode.Rs1, Decode.Rs2, Decode.CsrField,
         Csr.Read, Csr.Write, Updates, M.CsrResult;
    FieldsAgree(w);
    match Parse(w) {
      case Some(i) =>
        if i.CsrOp? {
          UpdateMeans(i.u, Csr.Read(s.csr, v, ids, i.addr).data, if i.immediate then i.source else Read(s, i.source));
        }
      case None =>
    }
  }

  lemma OthersAreIllegal(f: Fetch.Fetched, ids: Csr.Ids, s: M.Arch, v: Csr.Volatile)
    requires !f.fault && f.instr % 0x80 !in {0x37, 0x17, 0x6F, 0x67, 0x63, 0x03, 0x23, 0x13, 0x33, 0x0F, 0x73}
    ensures Meant(f, ids, s, v)
  {
    hide Field, Decode.Funct3, Decode.Funct7;
  }

  /** For every word fetch delivers and every state: the reference machine does what the standard says the
      instruction does, with the standard's exception codes, and refuses exactly the words that encode no
      instruction. */
  lemma ExecuteMeans(f: Fetch.Fetched, ids: Csr.Ids, s: M.Arch, v: Csr.Volatile)
    ensures if f.fault then M.Execute(ids, f, s, v) == M.Except(1, s.pc) else Meant(f, ids, s, v)
  {
    hide Meant;
    if !f.fault {
      match f.instr % 0x80 {
        case 0x37 => UpperMeans(f, ids, s, v);
        case 0x17 => UpperMeans(f, ids, s, v);
        case 0x6F => JalMeans(f, ids, s, v);
        case 0x67 => JalrMeans(f, ids, s, v);
        case 0x63 => BranchMeans(f, ids, s, v);
        case 0x03 => LoadMeans(f, ids, s, v);
        case 0x23 => StoreMeans(f, ids, s, v);
        case 0x13 => ImmediateMeans(f, ids, s, v);
        case 0x33 => RegisterMeans(f, ids, s, v);
        case 0x0F => FenceMeans(f, ids, s, v);
        case 0x73 => SystemMeans(f, ids, s, v);
        case _ => OthersAreIllegal(f, ids, s, v);
      }
    }
  }

  // ---- One step of the reference machine -----------------------------------------------------

  /** An access fault is 5 for a load and 7 for a store. */
  function FaultOf(a: M.Access): Word { if a.Load? then 5 else 7 }

  ghost predicate Traps(s: M.Arch, t: M.Arch, cause: Word, value: Word) {
    t.x == s.x && t.pc == s.csr.mtvec - s.csr.mtvec % 4 && Trapped(s.csr, t.csr, s.pc, cause, value)
  }

  /** After an instruction the outcome leaves: the exception or access fault is taken, recorded for the
      instruction's own PC and shown as the one trap; or the successor is next, the destination and no
      other register has the result, the counter of instructions is one more, and the retirement shows
      that write and the store as the bus saw it. */
  lemma StepMeans(mem: Fetch.Imem, ids: Csr.Ids, s: M.Arch, v: Csr.Volatile, rdata: Word, error: bool)
    ensures var f := Fetch.InstructionAt(mem, s.pc);
      var o := M.Execute(ids, f, s, v);
      var (t, e) := M.Step(mem, ids, s, M.Proceed(v, rdata, error));
      match o
      case Except(cause, value) =>
        Traps(s, t, cause, value) && e == M.Event(None, Some(M.Trap(s.pc, cause, value)), None)
      case Done(next, writes, rd, _, access, csr) =>
        if access != M.NoAccess && error then
          && Traps(s, t, FaultOf(access), access.addr)
          && e == M.Event(None, Some(M.Trap(s.pc, FaultOf(access), access.addr)), M.TransferOf(access, rdata, true))
        else
          var result, bus := M.Loaded(o, rdata), M.TransferOf(access, rdata, false);
          && t.pc == next && OneMore(csr, t.csr)
          && (forall r: Reg :: Read(t, r) == if writes && r == rd && r != 0 then result else Read(s, r))
          && e == M.Event(Some(M.Commit(s.pc, f.raw, if writes && rd != 0 then Some(M.RegWrite(rd, result)) else None,
                                        if access.Store? then
                                          Some(M.MemWrite(access.addr, bus.value.data, bus.value.strobes))
                                        else None)),
                          None, bus)
  {
    hide Fetch.InstructionAt, M.Execute, Trapped, OneMore, M.Loaded, LoadStore.StoreData, LoadStore.ByteEnable,
         LoadStore.Size, Csr.Retire, Csr.EnterTrap;
    var f := Fetch.InstructionAt(mem, s.pc);
    match M.Execute(ids, f, s, v) {
      case Except(cause, value) => TrapIsSeen(s.csr, s.pc, cause, value);
      case Done(_, _, _, _, access, csr) =>
        if access != M.NoAccess && error {
          TrapIsSeen(s.csr, s.pc, FaultOf(access), access.addr);
        } else {
          RetireIsSeen(csr);
        }
    }
  }

  /** An interrupt is taken before the instruction at the PC: for the first enabled and raised line, without a
      value, to the vector of that line. */
  lemma InterruptMeans(mem: Fetch.Imem, ids: Csr.Ids, s: M.Arch, p: Csr.Pins, v: Csr.Volatile)
    requires M.Possible(s, M.Interrupt(p))
    ensures var mie, cause := See(s.csr, v, ids, 0x304), CauseOf(See(s.csr, v, ids, 0x304), p);
      var (t, e) := M.Step(mem, ids, s, M.Interrupt(p));
      && (See(s.csr, v, ids, 0x300) / 8) % 2 == 1 && Waiting(mie, p)
      && t.x == s.x && t.pc == Target(See(s.csr, v, ids, 0x305), cause) && Trapped(s.csr, t.csr, s.pc, cause, 0)
      && e == M.Event(None, Some(M.Trap(s.pc, cause, 0)), None)
  {
    hide Trapped, Csr.EnterTrap, See, Csr.IrqPending, Csr.IrqCause, M.InterruptVector, Waiting, Target;
    InterruptIsSeen(s.csr, p, v, ids);
    var cause := CauseOf(See(s.csr, v, ids, 0x304), p);
    TrapIsSeen(s.csr, s.pc, cause, 0);
    VectorsAreSeen(s.csr, v, ids, cause);
  }

  // ---- The test encoders -----------------------------------------------------------------------

  /** The instruction each encoder of the tests is named after. */
  function Asked(m: A.Mnemonic, rd: Reg, rs1: Reg, rs2: Reg, imm: int): Instruction
    requires A.Fits(m, imm)
  {
    match m
    case Lui => Lui(rd, imm * 0x1000)
    case Auipc => Auipc(rd, imm * 0x1000)
    case Jal => Jal(rd, imm)
    case Jalr => Jalr(rd, rs1, imm)
    case Beq => Branch(Eq, rs1, rs2, imm)
    case Bne => Branch(Ne, rs1, rs2, imm)
    case Blt => Branch(Lt, rs1, rs2, imm)
    case Bge => Branch(Ge, rs1, rs2, imm)
    case Bltu => Branch(Ltu, rs1, rs2, imm)
    case Bgeu => Branch(Geu, rs1, rs2, imm)
    case Lb => Load(1, true, rd, rs1, imm)
    case Lh => Load(2, true, rd, rs1, imm)
    case Lw => Load(4, true, rd, rs1, imm)
    case Lbu => Load(1, false, rd, rs1, imm)
    case Lhu => Load(2, false, rd, rs1, imm)
    case Sb => Store(1, rs1, rs2, imm)
    case Sh => Store(2, rs1, rs2, imm)
    case Sw => Store(4, rs1, rs2, imm)
    case Addi => Immediate(Add, rd, rs1, imm)
    case Slti => Immediate(Slt, rd, rs1, imm)
    case Sltiu => Immediate(Sltu, rd, rs1, imm)
    case Xori => Immediate(Xor, rd, rs1, imm)
    case Ori => Immediate(Or, rd, rs1, imm)
    case Andi => Immediate(And, rd, rs1, imm)
    case Slli => Immediate(Sll, rd, rs1, imm)
    case Srli => Immediate(Srl, rd, rs1, imm)
    case Srai => Immediate(Sra, rd, rs1, imm)
    case Add => Register(Add, rd, rs1, rs2)
    case Sub => Register(Sub, rd, rs1, rs2)
    case Sll => Register(Sll, rd, rs1, rs2)
    case Slt => Register(Slt, rd, rs1, rs2)
    case Sltu => Register(Sltu, rd, rs1, rs2)
    case Xor => Register(Xor, rd, rs1, rs2)
    case Srl => Register(Srl, rd, rs1, rs2)
    case Sra => Register(Sra, rd, rs1, rs2)
    case Or => Register(Or, rd, rs1, rs2)
    case And => Register(And, rd, rs1, rs2)
    case Mul => Register(Mul, rd, rs1, rs2)
    case Mulh => Register(Mulh, rd, rs1, rs2)
    case Mulhsu => Register(Mulhsu, rd, rs1, rs2)
    case Mulhu => Register(Mulhu, rd, rs1, rs2)
    case Div => Register(Div, rd, rs1, rs2)
    case Divu => Register(Divu, rd, rs1, rs2)
    case Rem => Register(Rem, rd, rs1, rs2)
    case Remu => Register(Remu, rd, rs1, rs2)
    case Csrrw => CsrOp(Swap, false, rd, rs1, imm)
    case Csrrs => CsrOp(SetBits, false, rd, rs1, imm)
    case Csrrc => CsrOp(ClearBits, false, rd, rs1, imm)
    case Csrrwi => CsrOp(Swap, true, rd, rs1, imm)
    case Csrrsi => CsrOp(SetBits, true, rd, rs1, imm)
    case Csrrci => CsrOp(ClearBits, true, rd, rs1, imm)
    case Ecall => Ecall
    case Ebreak => Ebreak
    case Mret => Mret
    case Wfi => Wfi
    case FenceI => Fence
  }

  lemma OffsetIIs(w: Word, imm: int)
    requires -0x800 <= imm < 0x800 && Decode.ImmI(w) == Wrap(imm)
    ensures OffsetI(w) == imm
  {
    OffsetIAgrees(w);
    assert -0x800 <= OffsetI(w) < 0x800;
    hide OffsetI;
  }

  lemma OffsetSIs(w: Word, imm: int)
    requires -0x800 <= imm < 0x800 && Decode.ImmS(w) == Wrap(imm)
    ensures OffsetS(w) == imm
  {
    OffsetSAgrees(w);
    assert -0x800 <= OffsetS(w) < 0x800;
    hide OffsetS, Decode.ImmS;
  }

  lemma OffsetBIs(w: Word, imm: int)
    requires -0x1000 <= imm < 0x1000 && Decode.ImmB(w) == Wrap(imm)
    ensures OffsetB(w) == imm
  {
    hide Field, Decode.ImmB;
    OffsetBAgrees(w);
    assert w / 0x8000_0000 < 2;
  }

  lemma OffsetJIs(w: Word, imm: int)
    requires -0x10_0000 <= imm < 0x10_0000 && Decode.ImmJ(w) == Wrap(imm)
    ensures OffsetJ(w) == imm
  {
    hide Field, Decode.ImmJ;
    OffsetJAgrees(w);
    assert w / 0x8000_0000 < 2;
  }

  /** The operation a register or immediate mnemonic names. */
  function OperationOf(m: A.Mnemonic): Operation {
    match m
    case Add | Addi => Add
    case Sub => Sub
    case Sll | Slli => Sll
    case Slt | Slti => Slt
    case Sltu | Sltiu => Sltu
    case Xor | Xori => Xor
    case Srl | Srli => Srl
    case Sra | Srai => Sra
    case Or | Ori => Or
    case And | Andi => And
    case Mul => Mul
    case Mulh => Mulh
    case Mulhsu => Mulhsu
    case Mulhu => Mulhu
    case Div => Div
    case Divu => Divu
    case Rem => Rem
    case _ => Remu
  }

  lemma RegisterAsked(m: A.Mnemonic, rd: Reg, rs1: Reg, rs2: Reg, imm: int)
    requires A.KindOf(m) == A.KR
    ensures RegisterOf(A.F3(m), A.F7(m)) == Some(OperationOf(m))
    ensures Asked(m, rd, rs1, rs2, imm) == Register(OperationOf(m), rd, rs1, rs2)
  {
  }

  lemma RegisterParses(m: A.Mnemonic, rd: Reg, rs1: Reg, rs2: Reg, imm: int)
    requires A.KindOf(m) == A.KR
    ensures Parse(A.Assemble(m, rd, rs1, rs2, imm).value) == Some(Asked(m, rd, rs1, rs2, imm))
  {
    var w := E.EncR(A.F7(m), rs2, rs1, A.F3(m), rd, 0x33);
    E.FieldsR(A.F7(m), rs2, rs1, A.F3(m), rd, 0x33);
    FieldsAgree(w);
    RegisterAsked(m, rd, rs1, rs2, imm);
    hide E.EncR, Field, Decode.Opcode, Decode.Funct3, Decode.Funct7, Decode.Rd, Decode.Rs1, Decode.Rs2, Decode.CsrField,
         A.F3, A.F7, RegisterOf, Asked, OffsetI, OffsetS, OffsetB, OffsetJ, ImmediateOf, SystemOf;
  }

  lemma ImmediateAsked(m: A.Mnemonic, w: Word, rd: Reg, rs1: Reg, rs2: Reg, imm: int)
    requires A.KindOf(m) in {A.KI, A.KShift} && A.Fits(m, imm)
    requires if A.KindOf(m) == A.KI then OffsetI(w) == imm else Field(w, 0x10_0000, 0x20) == imm
    ensures ImmediateOf(w, A.F3(m), A.F7(m), rd, rs1) == Some(Asked(m, rd, rs1, rs2, imm))
    ensures A.KindOf(m) == A.KI ==> A.F3(m) != 1 && A.F3(m) != 5
  {
    hide Field, OffsetI;
  }

  lemma ImmediateFields(field: E.Imm12, rs1: Reg, f3: E.Field3, rd: Reg)
    ensures var w := E.EncI(field, rs1, f3, rd, 0x13);
      && w % 0x80 == 0x13 && Field(w, 0x1000, 8) == f3 && Field(w, 0x80, 0x20) == rd && Field(w, 0x8000, 0x20) == rs1
      && w / 0x200_0000 == field / 0x20 && Field(w, 0x10_0000, 0x20) == field % 0x20
      && Decode.ImmI(w) == SignExtend(field, 0x800)
  {
    var w := E.EncI(field, rs1, f3, rd, 0x13);
    E.FieldsI(field, rs1, f3, rd, 0x13);
    FieldsAgree(w);
    assert Field(w, 0x10_0000, 0x20) == Decode.CsrField(w) % 0x20 by { hide E.EncI; }
    hide E.EncI, Field, Decode.Opcode, Decode.Funct3, Decode.Funct7, Decode.Rd, Decode.Rs1, Decode.Rs2, Decode.CsrField,
         Decode.ImmI, SignExtend;
  }

  lemma IsImmediate(w: Word)
    requires w % 0x80 == 0x13
    ensures Parse(w)
         == ImmediateOf(w, Field(w, 0x1000, 8), w / 0x200_0000, Field(w, 0x80, 0x20), Field(w, 0x8000, 0x20))
  {
    hide Field, OffsetI, OffsetS, OffsetB, OffsetJ, RegisterOf, ImmediateOf, SystemOf, BranchOf;
  }

  lemma FieldFits(m: A.Mnemonic, imm: int)
    requires A.KindOf(m) in {A.KI, A.KShift} && A.Fits(m, imm)
    ensures if A.KindOf(m) == A.KI then A.Masked(imm, 0x1000) < 0x1000 else A.F7(m) * 0x20 + imm < 0x1000
    ensures A.KindOf(m) == A.KShift ==> (A.F7(m) * 0x20 + imm) / 0x20 == A.F7(m) && (A.F7(m) * 0x20 + imm) % 0x20 == imm
  {
  }

  lemma ImmediateParses(m: A.Mnemonic, rd: Reg, rs1: Reg, rs2: Reg, imm: int)
    requires A.KindOf(m) in {A.KI, A.KShift} && A.Fits(m, imm)
    ensures Parse(A.Assemble(m, rd, rs1, rs2, imm).value) == Some(Asked(m, rd, rs1, rs2, imm))
  {
    hide E.EncI, Field, Decode.ImmI, SignExtend, Wrap, Parse, ImmediateOf, Asked, OffsetI, A.F3, A.F7, A.Masked;
    var field := if A.KindOf(m) == A.KI then A.Masked(imm, 0x1000) else A.F7(m) * 0x20 + imm;
    FieldFits(m, imm);
    var w := E.EncI(field, rs1, A.F3(m), rd, 0x13);
    ImmediateFields(field, rs1, A.F3(m), rd);
    IsImmediate(w);
    if A.KindOf(m) == A.KI {
      A.MaskExtends(imm, 0x800);
      OffsetIIs(w, imm);
    }
    ImmediateAsked(m, w, rd, rs1, rs2, imm);
    IgnoresFunct7(w, A.F3(m), w / 0x200_0000, A.F7(m), rd, rs1);
  }

  lemma IgnoresFunct7(w: Word, f3: nat, f7: nat, g7: nat, rd: Reg, rs1: Reg)
    ensures f3 != 1 && f3 != 5 ==> ImmediateOf(w, f3, f7, rd, rs1) == ImmediateOf(w, f3, g7, rd, rs1)
  {
    hide Field, OffsetI;
  }

  lemma LoadAsked(m: A.Mnemonic, rd: Reg, rs1: Reg, rs2: Reg, imm: int)
    requires A.KindOf(m) == A.KLoad && A.Fits(m, imm)
    ensures A.Assemble(m, rd, rs1, rs2, imm) == Some(E.EncI(A.Masked(imm, 0x1000), rs1, A.F3(m), rd, 0x03))
    ensures var f3 := A.F3(m);
      Asked(m, rd, rs1, rs2, imm) == if f3 in {0, 1, 2} then Load([1, 2, 4][f3], true, rd, rs1, imm)
                                     else Load([1, 2][f3 - 4], false, rd, rs1, imm)
    ensures A.F3(m) in {0, 1, 2, 4, 5}
  {
    hide E.EncI;
  }

  lemma StoreAsked(m: A.Mnemonic, rd: Reg, rs1: Reg, rs2: Reg, imm: int)
    requires A.KindOf(m) == A.KStore && A.Fits(m, imm)
    ensures A.Assemble(m, rd, rs1, rs2, imm) == Some(E.EncS(A.Masked(imm, 0x1000), rs2, rs1, A.F3(m), 0x23))
    ensures A.F3(m) in {0, 1, 2} && Asked(m, rd, rs1, rs2, imm) == Store([1, 2, 4][A.F3(m)], rs1, rs2, imm)
  {
    hide E.EncS;
  }

  lemma LoadParses(m: A.Mnemonic, rd: Reg, rs1: Reg, rs2: Reg, imm: int)
    requires A.KindOf(m) == A.KLoad && A.Fits(m, imm)
    ensures Parse(A.Assemble(m, rd, rs1, rs2, imm).value) == Some(Asked(m, rd, rs1, rs2, imm))
  {
    var field := A.Masked(imm, 0x1000);
    var w := E.EncI(field, rs1, A.F3(m), rd, 0x03);
    A.MaskExtends(imm, 0x800);
    E.FieldsI(field, rs1, A.F3(m), rd, 0x03);
    FieldsAgree(w);
    OffsetIIs(w, imm);
    LoadAsked(m, rd, rs1, rs2, imm);
    hide E.EncI, Field, Decode.Opcode, Decode.Funct3, Decode.Funct7, Decode.Rd, Decode.Rs1, Decode.Rs2,
         Decode.CsrField, Decode.ImmI, SignExtend, ImmediateOf, OffsetI, OffsetS, OffsetB, OffsetJ, RegisterOf,
         SystemOf, A.F3, A.F7, Asked, A.Masked, A.Assemble;
  }

  lemma StoreParses(m: A.Mnemonic, rd: Reg, rs1: Reg, rs2: Reg, imm: int)
    requires A.KindOf(m) == A.KStore && A.Fits(m, imm)
    ensures Parse(A.Assemble(m, rd, rs1, rs2, imm).value) == Some(Asked(m, rd, rs1, rs2, imm))
  {
    var field := A.Masked(imm, 0x1000);
    var w := E.EncS(field, rs2, rs1, A.F3(m), 0x23);
    A.MaskExtends(imm, 0x800);
    E.FieldsS(field, rs2, rs1, A.F3(m), 0x23);
    FieldsAgree(w);
    OffsetSIs(w, imm);
    StoreAsked(m, rd, rs1, rs2, imm);
    hide E.EncS, Field, Decode.Opcode, Decode.Funct3, Decode.Funct7, Decode.Rd, Decode.Rs1, Decode.Rs2,
         Decode.CsrField, Decode.ImmS, SignExtend, ImmediateOf, OffsetI, OffsetS, OffsetB, OffsetJ, RegisterOf,
         SystemOf, A.F3, A.F7, Asked, A.Masked, A.Assemble;
  }

  lemma BranchAsked(m: A.Mnemonic, rd: Reg, rs1: Reg, rs2: Reg, imm: int)
    requires A.KindOf(m) == A.KBranch && A.Fits(m, imm)
    ensures A.Assemble(m, rd, rs1, rs2, imm) == Some(E.EncB(A.Masked(imm, 0x2000), rs2, rs1, A.F3(m), 0x63))
    ensures BranchOf(A.F3(m)).Some? && Asked(m, rd, rs1, rs2, imm) == Branch(BranchOf(A.F3(m)).value, rs1, rs2, imm)
  {
    hide E.EncB;
  }

  lemma IsBranch(w: Word)
    requires w % 0x80 == 0x63 && BranchOf(Field(w, 0x1000, 8)).Some?
    ensures Parse(w) == Some(Branch(BranchOf(Field(w, 0x1000, 8)).value, Field(w, 0x8000, 0x20),
                                    Field(w, 0x10_0000, 0x20), OffsetB(w)))
  {
    hide Field, OffsetI, OffsetS, OffsetB, OffsetJ, RegisterOf, ImmediateOf, SystemOf, BranchOf;
  }

  lemma BranchFields(field: E.Imm13, rs1: Reg, rs2: Reg, f3: E.Field3, imm: int)
    requires -0x1000 <= imm < 0x1000 && field % 2 == 0 && SignExtend(field, 0x1000) == Wrap(imm)
    ensures var w := E.EncB(field, rs2, rs1, f3, 0x63);
      && w % 0x80 == 0x63 && Field(w, 0x1000, 8) == f3 && Field(w, 0x8000, 0x20) == rs1
      && Field(w, 0x10_0000, 0x20) == rs2 && OffsetB(w) == imm
  {
    hide E.EncB, Field, Decode.Opcode, Decode.Funct3, Decode.Funct7, Decode.Rd, Decode.Rs1, Decode.Rs2, Decode.CsrField,
         Decode.ImmB, SignExtend, Wrap, OffsetB;
    var w := E.EncB(field, rs2, rs1, f3, 0x63);
    E.FieldsB(field, rs2, rs1, f3, 0x63);
    FieldsAgree(w);
    OffsetBIs(w, imm);
  }

  lemma BranchParses(m: A.Mnemonic, rd: Reg, rs1: Reg, rs2: Reg, imm: int)
    requires A.KindOf(m) == A.KBranch && A.Fits(m, imm)
    ensures Parse(A.Assemble(m, rd, rs1, rs2, imm).value) == Some(Asked(m, rd, rs1, rs2, imm))
  {
    MaskedIsEven(imm, 0x2000);
    hide E.EncB, Field, SignExtend, Wrap, OffsetB, Parse, BranchOf, A.F3, Asked, A.Masked, A.Assemble;
    A.MaskExtends(imm, 0x1000);
    BranchFields(A.Masked(imm, 0x2000), rs1, rs2, A.F3(m), imm);
    BranchAsked(m, rd, rs1, rs2, imm);
    IsBranch(E.EncB(A.Masked(imm, 0x2000), rs2, rs1, A.F3(m), 0x63));
  }

  lemma MaskedIsEven(imm: int, limit: nat)
    requires 0 - limit <= imm < limit && imm % 2 == 0 && limit % 2 == 0
    ensures A.Masked(imm, limit) % 2 == 0
  {
  }

  lemma JalFields(field: E.Imm21, rd: Reg, imm: int)
    requires -0x10_0000 <= imm < 0x10_0000 && field % 2 == 0 && SignExtend(field, 0x10_0000) == Wrap(imm)
    ensures var w := E.EncJ(field, rd, 0x6F);
      w % 0x80 == 0x6F && Field(w, 0x80, 0x20) == rd && OffsetJ(w) == imm
  {
    hide E.EncJ, Field, Decode.Opcode, Decode.Funct3, Decode.Funct7, Decode.Rd, Decode.Rs1, Decode.Rs2, Decode.CsrField,
         Decode.ImmJ, SignExtend, Wrap, OffsetJ;
    var w := E.EncJ(field, rd, 0x6F);
    E.FieldsJ(field, rd, 0x6F);
    FieldsAgree(w);
    OffsetJIs(w, imm);
  }

  lemma IsJal(w: Word)
    requires w % 0x80 == 0x6F
    ensures Parse(w) == Some(Jal(Field(w, 0x80, 0x20), OffsetJ(w)))
  {
    hide Field, OffsetI, OffsetS, OffsetB, OffsetJ, RegisterOf, ImmediateOf, SystemOf, BranchOf;
  }

  lemma JalParses(rd: Reg, imm: int)
    requires A.Fits(A.Jal, imm)
    ensures Parse(E.EncJ(A.Masked(imm, 0x20_0000), rd, 0x6F)) == Some(Jal(rd, imm))
  {
    MaskedIsEven(imm, 0x20_0000);
    hide E.EncJ, Field, SignExtend, Wrap, OffsetJ, Parse, A.Masked;
    A.MaskExtends(imm, 0x10_0000);
    JalFields(A.Masked(imm, 0x20_0000), rd, imm);
    IsJal(E.EncJ(A.Masked(imm, 0x20_0000), rd, 0x6F));
  }

  lemma JalrParses(rd: Reg, rs1: Reg, imm: int)
    requires A.Fits(A.Jalr, imm)
    ensures A.F3(A.Jalr) == 0
    ensures Parse(E.EncI(A.Masked(imm, 0x1000), rs1, 0, rd, 0x67)) == Some(Jalr(rd, rs1, imm))
  {
    var w := E.EncI(A.Masked(imm, 0x1000), rs1, 0, rd, 0x67);
    A.MaskExtends(imm, 0x800);
    E.FieldsI(A.Masked(imm, 0x1000), rs1, 0, rd, 0x67);
    FieldsAgree(w);
    OffsetIIs(w, imm);
    hide E.EncI, Field, Decode.Opcode, Decode.Funct3, Decode.Funct7, Decode.Rd, Decode.Rs1, Decode.Rs2,
         Decode.CsrField, Decode.ImmI, SignExtend, ImmediateOf, OffsetI, OffsetS, OffsetB, OffsetJ, RegisterOf,
         SystemOf, A.Masked;
  }

  lemma UpperParses(rd: Reg, imm: E.Imm20)
    ensures Parse(E.EncU(imm, rd, 0x37)) == Some(Lui(rd, imm * 0x1000))
    ensures Parse(E.EncU(imm, rd, 0x17)) == Some(Auipc(rd, imm * 0x1000))
  {
    E.FieldsU(imm, rd, 0x37);
    E.FieldsU(imm, rd, 0x17);
    FieldsAgree(E.EncU(imm, rd, 0x37));
    FieldsAgree(E.EncU(imm, rd, 0x17));
    hide E.EncU, Field, Decode.Opcode, Decode.Funct3, Decode.Funct7, Decode.Rd, Decode.Rs1, Decode.Rs2,
         Decode.CsrField, Decode.ImmU, ImmediateOf, OffsetI, OffsetS, OffsetB, OffsetJ, RegisterOf, SystemOf;
  }

  lemma CsrParses(m: A.Mnemonic, rd: Reg, rs1: Reg, rs2: Reg, imm: int)
    requires A.KindOf(m) == A.KCsr && A.Fits(m, imm)
    ensures Parse(A.Assemble(m, rd, rs1, rs2, imm).value) == Some(Asked(m, rd, rs1, rs2, imm))
  {
    var w := E.EncI(imm, rs1, A.F3(m), rd, 0x73);
    E.FieldsI(imm, rs1, A.F3(m), rd, 0x73);
    FieldsAgree(w);
    CsrAsked(m, w, rd, rs1, rs2, imm);
    hide E.EncI, Field, Decode.Opcode, Decode.Funct3, Decode.Funct7, Decode.Rd, Decode.Rs1, Decode.Rs2,
         Decode.CsrField, Decode.ImmI, SignExtend, ImmediateOf, OffsetI, OffsetS, OffsetB, OffsetJ, RegisterOf,
         SystemOf, A.F3, A.F7, Asked;
  }

  lemma CsrAsked(m: A.Mnemonic, w: Word, rd: Reg, rs1: Reg, rs2: Reg, imm: int)
    requires A.KindOf(m) == A.KCsr && A.Fits(m, imm) && w / 0x10_0000 == imm
    ensures SystemOf(w, A.F3(m), rd, rs1) == Some(Asked(m, rd, rs1, rs2, imm))
  {
  }

  lemma FixedWords()
    ensures Parse(0x0000_0073) == Some(Ecall) && Parse(0x0010_0073) == Some(Ebreak)
    ensures Parse(0x3020_0073) == Some(Mret) && Parse(0x1050_0073) == Some(Wfi)
    ensures E.EncI(0, 0, 1, 0, 0x0F) == 0x100F && Parse(0x100F) == Some(Fence)
  {
    hide OffsetI, OffsetS, OffsetB, OffsetJ, RegisterOf, ImmediateOf, BranchOf;
  }

  lemma FixedParses(m: A.Mnemonic, rd: Reg, rs1: Reg, rs2: Reg, imm: int)
    requires A.KindOf(m) == A.KFixed
    ensures Parse(A.Assemble(m, rd, rs1, rs2, imm).value) == Some(Asked(m, rd, rs1, rs2, imm))
  {
    FixedWords();
    hide Parse, E.EncI;
  }

  /** Every word a test encoder returns is, in the standard's encoding, the instruction it is named after. */
  lemma AssembledParses(m: A.Mnemonic, rd: Reg, rs1: Reg, rs2: Reg, imm: int)
    requires A.Fits(m, imm)
    ensures A.Assemble(m, rd, rs1, rs2, imm).Some?
    ensures Parse(A.Assemble(m, rd, rs1, rs2, imm).value) == Some(Asked(m, rd, rs1, rs2, imm))
  {
    hide Parse, E.EncI, E.EncR, E.EncS, E.EncB, E.EncU, E.EncJ, A.Masked, A.F3, A.F7;
    match A.KindOf(m) {
      case KR => RegisterParses(m, rd, rs1, rs2, imm);
      case KI | KShift => ImmediateParses(m, rd, rs1, rs2, imm);
      case KLoad => LoadParses(m, rd, rs1, rs2, imm);
      case KStore => StoreParses(m, rd, rs1, rs2, imm);
      case KBranch => BranchParses(m, rd, rs1, rs2, imm);
      case KJal => JalParses(rd, imm);
      case KJalr => JalrParses(rd, rs1, imm);
      case KUpper => UpperParses(rd, imm);
      case KCsr => CsrParses(m, rd, rs1, rs2, imm);
      case KFixed => FixedParses(m, rd, rs1, rs2, imm);
    }
  }

  /** The word of a test encoder, executed as fetched. */
  function Executed(w: Word, ids: Csr.Ids, s: M.Arch, v: Csr.Volatile): M.Outcome {
    M.Execute(ids, Fetch.Fetched(false, w, w, false), s, v)
  }

  /** Every encoded instruction does what the standard says it does. */
  lemma AssembledMeans(m: A.Mnemonic, rd: Reg, rs1: Reg, rs2: Reg, imm: int, ids: Csr.Ids, s: M.Arch, v: Csr.Volatile)
    requires A.Fits(m, imm)
    ensures A.Assemble(m, rd, rs1, rs2, imm).Some?
    ensures var w := A.Assemble(m, rd, rs1, rs2, imm).value;
      Means(Asked(m, rd, rs1, rs2, imm), 4, w, ids, s, v, Executed(w, ids, s, v))
  {
    hide A.Assemble, Asked, Parse, Means, M.Execute, A.Fits;
    AssembledParses(m, rd, rs1, rs2, imm);
    var w := A.Assemble(m, rd, rs1, rs2, imm).value;
    ExecuteMeans(Fetch.Fetched(false, w, w, false), ids, s, v);
  }

  /** The six branches: each goes to the PC plus its offset exactly when its relation holds between the two
      registers, equal or not, or in the order of the two's-complement or of the unsigned numbers; an odd
      target is refused; and otherwise the next word follows. */
  lemma BranchGoes(m: A.Mnemonic, rs1: Reg, rs2: Reg, imm: int, ids: Csr.Ids, s: M.Arch, v: Csr.Volatile)
    requires m in {A.Beq, A.Bne, A.Blt, A.Bge, A.Bltu, A.Bgeu} && -0x1000 <= imm < 0x1000 && imm % 2 == 0
    ensures A.Assemble(m, 0, rs1, rs2, imm).Some?
    ensures var o := Executed(A.Assemble(m, 0, rs1, rs2, imm).value, ids, s, v);
      var a, b := Read(s, rs1), Read(s, rs2);
      var x, y := if a < 0x8000_0000 then a else a - 0x1_0000_0000, if b < 0x8000_0000 then b else b - 0x1_0000_0000;
      var target := (s.pc + imm) % 0x1_0000_0000;
      var taken := match m
        case Beq => a == b
        case Bne => a != b
        case Blt => x < y
        case Bge => x >= y
        case Bltu => a < b
        case _ => a >= b;
      o == if !taken then M.Done((s.pc + 4) % 0x1_0000_0000, false, 0, 0, M.NoAccess, s.csr)
           else if target % 2 == 1 then M.Except(0, target)
           else M.Done(target, false, 0, 0, M.NoAccess, s.csr)
  {
    hide A.Assemble, Executed;
    AssembledMeans(m, 0, rs1, rs2, imm, ids, s, v);
  }
}
