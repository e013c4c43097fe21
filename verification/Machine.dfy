/** The reference: RV32IMC with Zicsr, executed one instruction at a time, with traps and
    interrupts.  No stage, stall, forwarding path or latch appears here. */
module Machine {
  import opened Words
  import opened Decode
  import opened Fetch
  import opened Alu
  import LoadStore
  import Mdu
  import Csr

  /** Software-visible state. */
  datatype Arch = Arch(pc: Word, x: RegFile, csr: Csr.State)

  datatype Access = NoAccess | Load(addr: Word, ty: nat) | Store(addr: Word, ty: nat, data: Word)

  /** What one instruction does before memory answers: it is refused with an exception, or it
      names its successor, the register it writes (a load's value is still open), its data
      access and its effect on the CSRs. */
  datatype Outcome =
    | Except(cause: Word, value: Word)
    | Done(next: Word, writes: bool, rd: Reg, value: Word, access: Access, csr: Csr.State)

  const FETCH_FAULT: Word := 1
  const ILLEGAL: Word := 2
  const BREAKPOINT: Word := 3
  const LOAD_MISALIGNED: Word := 4
  const LOAD_FAULT: Word := 5
  const STORE_MISALIGNED: Word := 6
  const STORE_FAULT: Word := 7
  const ECALL_M: Word := 11

  function Following(f: Fetched, pc: Word): Word {
    Wrap(pc + Length(f.compressed))
  }

  function Nothing(f: Fetched, s: Arch): Outcome {
    Done(Following(f, s.pc), false, 0, 0, NoAccess, s.csr)
  }

  function Value(f: Fetched, s: Arch, v: Word): Outcome {
    Done(Following(f, s.pc), true, Rd(f.instr), v, NoAccess, s.csr)
  }

  function Jump(f: Fetched, s: Arch, target: Word): Outcome {
    if target % 2 != 0 then Except(0, target)
    else Done(target, true, Rd(f.instr), Following(f, s.pc), NoAccess, s.csr)
  }

  function Branch(f: Fetched, s: Arch): Outcome {
    var target := Wrap(s.pc + ImmB(f.instr));
    if !Condition(Funct3(f.instr), Get(s.x, Rs1(f.instr)), Get(s.x, Rs2(f.instr))) then Nothing(f, s)
    else if target % 2 != 0 then Except(0, target)
    else Done(target, false, 0, 0, NoAccess, s.csr)
  }

  function ExecuteLoad(f: Fetched, s: Arch): Outcome {
    var addr, ty := Wrap(Get(s.x, Rs1(f.instr)) + ImmI(f.instr)), Funct3(f.instr);
    if LoadStore.Misaligned(ty, addr) then Except(LOAD_MISALIGNED, addr)
    else Done(Following(f, s.pc), true, Rd(f.instr), 0, Load(addr, ty), s.csr)
  }

  function ExecuteStore(f: Fetched, s: Arch): Outcome {
    var addr, ty := Wrap(Get(s.x, Rs1(f.instr)) + ImmS(f.instr)), Funct3(f.instr);
    if LoadStore.Misaligned(ty, addr) then Except(STORE_MISALIGNED, addr)
    else Done(Following(f, s.pc), false, 0, 0, Store(addr, ty, Get(s.x, Rs2(f.instr))), s.csr)
  }

  function RegisterOp(i: Word, a: Word, b: Word): Word {
    if IsMulDiv(i) then Mdu.WordExpected(Funct3(i), a, b)
    else Compute(IntegerOp(Funct3(i), (Funct7(i) / 0x20) % 2 == 1, true), a, b)
  }

  function ImmediateOp(i: Word, a: Word): Word {
    Compute(IntegerOp(Funct3(i), (Funct7(i) / 0x20) % 2 == 1, false), a, ImmI(i))
  }

  function CsrOperand(i: Word, a: Word): Word {
    if Funct3(i) >= 4 then Rs1(i) else a
  }

  function CsrResult(op: CsrOp, before: Word, operand: Word): Word {
    match op
    case CsrAssign => operand
    case CsrSet => Or(before, operand)
    case CsrClear => And(before, Not(operand))
  }

  function CsrOpOf(i: Word): CsrOp {
    if Funct3(i) % 4 == 1 then CsrAssign else if Funct3(i) % 4 == 2 then CsrSet else CsrClear
  }

  /** Read-set and read-clear with a zero source field do not write. */
  predicate CsrWrites(i: Word) {
    CsrOpOf(i) == CsrAssign || Rs1(i) != 0
  }

  function ExecuteCsr(ids: Csr.Ids, f: Fetched, s: Arch, v: Csr.Volatile): Outcome {
    var i := f.instr;
    var port := Csr.Read(s.csr, v, ids, CsrField(i));
    if !port.valid || (CsrWrites(i) && !port.writable) then Except(ILLEGAL, f.raw)
    else
      var data := CsrResult(CsrOpOf(i), port.data, CsrOperand(i, Get(s.x, Rs1(i))));
      Done(Following(f, s.pc), true, Rd(i), port.data, NoAccess,
           if CsrWrites(i) then Csr.Write(s.csr, CsrField(i), data) else s.csr)
  }

  function ExecuteSystem(ids: Csr.Ids, f: Fetched, s: Arch, v: Csr.Volatile): Outcome {
    var i := f.instr;
    if Funct3(i) != 0 then ExecuteCsr(ids, f, s, v)
    else if i == ECALL then Except(ECALL_M, 0)
    else if i == EBREAK then Except(BREAKPOINT, 0)
    else if i == MRET then Done(s.csr.mepc, false, 0, 0, NoAccess, Csr.Return(s.csr))
    else Nothing(f, s)
  }

  /** The instructions whose outcome depends on no CSR, but for AUIPC, by opcode. */
  function Plain(f: Fetched, s: Arch): Outcome {
    var i, op := f.instr, Opcode(f.instr);
    if op == OP_LUI then Value(f, s, ImmU(i))
    else if op == OP_JAL then Jump(f, s, Wrap(s.pc + ImmJ(i)))
    else if op == OP_JALR then
      var t := Wrap(Get(s.x, Rs1(i)) + ImmI(i));
      Jump(f, s, t - t % 2)
    else if op == OP_BRANCH then Branch(f, s)
    else if op == OP_LOAD then ExecuteLoad(f, s)
    else if op == OP_STORE then ExecuteStore(f, s)
    else if op == OP_IMM then Value(f, s, ImmediateOp(i, Get(s.x, Rs1(i))))
    else Value(f, s, RegisterOp(i, Get(s.x, Rs1(i)), Get(s.x, Rs2(i))))
  }

  /** One instruction, up to the memory's answer. */
  function Execute(ids: Csr.Ids, f: Fetched, s: Arch, v: Csr.Volatile): Outcome {
    var i := f.instr;
    if f.fault then Except(FETCH_FAULT, s.pc)
    else if !Legal(i) then Except(ILLEGAL, f.raw)
    else
      var op := Opcode(i);
      if op == OP_AUIPC then Value(f, s, Wrap(s.pc + ImmU(i)))
      else if op == OP_MISC_MEM then Nothing(f, s)
      else if op == OP_SYSTEM then ExecuteSystem(ids, f, s, v)
      else Plain(f, s)
  }

  lemma PlainExecutes(ids: Csr.Ids, f: Fetched, s: Arch, v: Csr.Volatile)
    requires !f.fault && Legal(f.instr)
    requires Opcode(f.instr) in {OP_LUI, OP_JAL, OP_JALR, OP_BRANCH, OP_LOAD, OP_STORE, OP_IMM, OP_REG}
    ensures Execute(ids, f, s, v) == Plain(f, s)
  {
    hide Legal, Opcode, Plain, ExecuteSystem, ImmU, Wrap;
  }

  // Events: what an outside observer can see of a run.

  datatype RegWrite = RegWrite(rd: Reg, data: Word)
  datatype MemWrite = MemWrite(addr: Word, data: Word, strobes: nat)

  /** A retirement.  A write to x0 is not a register write. */
  datatype Commit = Commit(pc: Word, raw: Word, reg: Option<RegWrite>, mem: Option<MemWrite>)

  datatype Trap = Trap(pc: Word, cause: Word, value: Word)

  /** One completed data-bus transfer. */
  datatype Transfer = Transfer(write: bool, addr: Word, data: Word, strobes: nat, size: nat,
                               rdata: Word, error: bool)

  datatype Event = Event(commit: Option<Commit>, trap: Option<Trap>, transfer: Option<Transfer>)

  /** What the environment decides at each step: the volatile counters and the memory's answer,
      or that an interrupt is taken. */
  datatype Choice = Proceed(v: Csr.Volatile, rdata: Word, error: bool) | Interrupt(pins: Csr.Pins)

  function ToTrap(s: Arch, pc: Word, cause: Word, value: Word, vector: Word): Arch {
    s.(pc := vector, csr := Csr.EnterTrap(s.csr, pc, cause, value))
  }

  function DirectVector(c: Csr.State): Word { Align(c.mtvec) }

  function InterruptVector(c: Csr.State, cause: Word): Word {
    if c.mtvec % 4 == 1 then Wrap(Align(c.mtvec) + 4 * (cause % 0x4000_0000)) else Align(c.mtvec)
  }

  function RegisterWrite(writes: bool, rd: Reg, data: Word): Option<RegWrite> {
    if writes && rd != 0 then Some(RegWrite(rd, data)) else None
  }

  function TransferOf(a: Access, rdata: Word, error: bool): Option<Transfer> {
    match a
    case NoAccess => None
    case Load(addr, ty) => Some(Transfer(false, addr, 0, 0, LoadStore.Size(ty), rdata, error))
    case Store(addr, ty, data) =>
      Some(Transfer(true, addr, LoadStore.StoreData(ty, addr % 4, data), LoadStore.ByteEnable(ty, addr % 4),
                    LoadStore.Size(ty), rdata, error))
  }

  function MemoryWrite(a: Access): Option<MemWrite> {
    match a
    case Store(addr, ty, data) =>
      Some(MemWrite(addr, LoadStore.StoreData(ty, addr % 4, data), LoadStore.ByteEnable(ty, addr % 4)))
    case _ => None
  }

  function Loaded(o: Outcome, rdata: Word): Word
    requires o.Done?
  {
    match o.access
    case Load(addr, ty) => LoadStore.LoadData(ty, addr % 4, rdata)
    case _ => o.value
  }

  /** The instruction retires. */
  function Retired(s: Arch, o: Outcome, rdata: Word): Arch
    requires o.Done?
  {
    Arch(o.next, if o.writes then Put(s.x, o.rd, Loaded(o, rdata)) else s.x, Csr.Retire(o.csr))
  }

  function TrapEvent(pc: Word, cause: Word, value: Word, transfer: Option<Transfer>): Event {
    Event(None, Some(Trap(pc, cause, value)), transfer)
  }

  function CommitEvent(s: Arch, f: Fetched, o: Outcome, rdata: Word): Event
    requires o.Done?
  {
    Event(Some(Commit(s.pc, f.raw, RegisterWrite(o.writes, o.rd, Loaded(o, rdata)), MemoryWrite(o.access))),
          None, TransferOf(o.access, rdata, false))
  }

  function AccessFault(a: Access): Word {
    if a.Load? then LOAD_FAULT else STORE_FAULT
  }

  /** One step of the reference machine. */
  function Step(mem: Imem, ids: Csr.Ids, s: Arch, c: Choice): (Arch, Event) {
    match c
    case Interrupt(pins) =>
      var cause := Csr.IrqCause(s.csr, pins);
      (ToTrap(s, s.pc, cause, 0, InterruptVector(s.csr, cause)), TrapEvent(s.pc, cause, 0, None))
    case Proceed(v, rdata, error) =>
      var f := InstructionAt(mem, s.pc);
      match Execute(ids, f, s, v)
      case Except(cause, value) =>
        (ToTrap(s, s.pc, cause, value, DirectVector(s.csr)), TrapEvent(s.pc, cause, value, None))
      case Done(next, writes, rd, value, access, csr) =>
        var o := Done(next, writes, rd, value, access, csr);
        if access != NoAccess && error then
          (ToTrap(s, s.pc, AccessFault(access), access.addr, DirectVector(s.csr)),
           TrapEvent(s.pc, AccessFault(access), access.addr, TransferOf(access, rdata, true)))
        else (Retired(s, o, rdata), CommitEvent(s, f, o, rdata))
  }

  /** An interrupt may only be taken when one is pending and enabled. */
  predicate Possible(s: Arch, c: Choice) {
    c.Interrupt? ==> Csr.IrqPending(s.csr, c.pins)
  }

  /** The instruction memory that each step of a run is fetched from. */
  type Code = nat -> Imem

  function Fixed(mem: Imem): Code { (n: nat) => mem }

  /** A run of the reference: its final state and its events. */
  datatype Trace = Trace(final: Arch, events: seq<Event>)

  function Run(code: Code, ids: Csr.Ids, s0: Arch, choices: seq<Choice>): Trace {
    if choices == [] then Trace(s0, [])
    else
      var n := |choices| - 1;
      var before := Run(code, ids, s0, choices[..n]);
      var (s, e) := Step(code(n), ids, before.final, choices[n]);
      Trace(s, before.events + [e])
  }

  /** Every choice was possible when it was made. */
  predicate Admissible(code: Code, ids: Csr.Ids, s0: Arch, choices: seq<Choice>) {
    if choices == [] then true
    else
      var n := |choices| - 1;
      Admissible(code, ids, s0, choices[..n]) && Possible(Run(code, ids, s0, choices[..n]).final, choices[n])
  }

  lemma RunExtends(code: Code, ids: Csr.Ids, s0: Arch, choices: seq<Choice>, c: Choice)
    ensures var before := Run(code, ids, s0, choices);
      var (s, e) := Step(code(|choices|), ids, before.final, c);
      && Run(code, ids, s0, choices + [c]) == Trace(s, before.events + [e])
      && Admissible(code, ids, s0, choices + [c]) == (Admissible(code, ids, s0, choices) && Possible(before.final, c))
  {
    hide Step, Possible;
    assert (choices + [c])[..|choices|] == choices;
  }

  // Projections of an event sequence, in order.

  function Commits(events: seq<Event>): seq<Commit> {
    if events == [] then []
    else
      var n := |events| - 1;
      Commits(events[..n]) + (match events[n].commit case Some(c) => [c] case None => [])
  }

  function Traps(events: seq<Event>): seq<Trap> {
    if events == [] then []
    else
      var n := |events| - 1;
      Traps(events[..n]) + (match events[n].trap case Some(t) => [t] case None => [])
  }

  function Transfers(events: seq<Event>): seq<Transfer> {
    if events == [] then []
    else
      var n := |events| - 1;
      Transfers(events[..n]) + (match events[n].transfer case Some(t) => [t] case None => [])
  }

  function AsSeq<T>(o: Option<T>): seq<T> {
    match o case Some(x) => [x] case None => []
  }

  lemma ProjectionsExtend(events: seq<Event>, e: Event)
    ensures Commits(events + [e]) == Commits(events) + AsSeq(e.commit)
    ensures Traps(events + [e]) == Traps(events) + AsSeq(e.trap)
    ensures Transfers(events + [e]) == Transfers(events) + AsSeq(e.transfer)
  {
    assert (events + [e])[..|events|] == events;
  }
}
