/** The random program generator of reference_model.py: whatever it draws, executing the words it emits
    does exactly what it predicts. */
module Generator {
  import opened Words
  import opened Decode
  import opened Memory
  import opened Coherence
  import opened Predicted
  import A = Assembler
  import E = Encode
  import Fetch
  import LoadStore
  import Csr
  import M = Machine

  // ---- The builder -------------------------------------------------------------------------

  datatype Write = Write(pc: nat, rd: Reg, value: Word)

  datatype Program = Program(words: seq<Word>, writes: seq<Write>, registers: RegFile, memory: map<nat, Word>)

  function Zeros(): RegFile { seq(32, (r: nat) => 0) }

  function Empty(): Program { Program([], [], Zeros(), map[]) }

  function Emit(b: Program, word: Word, rd: Reg, value: int): Program {
    Program(b.words + [word],
            if rd != 0 then b.writes + [Write(4 * |b.words|, rd, Wrap(value))] else b.writes,
            Put(b.registers, rd, Wrap(value))[0 := 0], b.memory)
  }

  function EmitStore(b: Program, word: Word, addr: nat, value: Word): Program {
    b.(words := b.words + [word], memory := b.memory[addr := value])
  }

  // ---- What is drawn -----------------------------------------------------------------------

  const BASE: Word := 0x400
  const SLOTS: nat := 32

  datatype Draw =
    | Registers(m: A.Mnemonic, rd: Reg, rs1: Reg, rs2: Reg)
    | Immediates(m: A.Mnemonic, rd: Reg, rs1: Reg, imm: int)
    | LoadSlot(rd: Reg, slot: nat)
    | StoreSlot(rs2: Reg, slot: nat)

  /** Every draw the generator can make, over all seeds: destinations x1 to x30, sources x0 to x30. */
  predicate Drawable(d: Draw) {
    match d
    case Registers(m, rd, rs1, rs2) => A.KindOf(m) == A.KR && 1 <= rd <= 30 && rs1 <= 30 && rs2 <= 30
    case Immediates(m, rd, rs1, imm) => A.KindOf(m) in {A.KI, A.KShift} && A.Fits(m, imm) && 1 <= rd <= 30 && rs1 <= 30
    case LoadSlot(rd, slot) => 1 <= rd <= 30 && slot < SLOTS
    case StoreSlot(rs2, slot) => rs2 <= 30 && slot < SLOTS
  }

  function Address(slot: nat): Word
    requires slot < SLOTS
  {
    BASE + 4 * slot
  }

  function Lookup(memory: map<nat, Word>, slot: nat): Word
    requires slot < SLOTS
  {
    if Address(slot) in memory then memory[Address(slot)] else 0
  }

  function Drawn(b: Program, d: Draw): Program
    requires Drawable(d)
  {
    match d
    case Registers(m, rd, rs1, rs2) =>
      Emit(b, A.Assemble(m, rd, rs1, rs2, 0).value, rd, RegisterValue(m, b.registers[rs1], b.registers[rs2]))
    case Immediates(m, rd, rs1, imm) =>
      Emit(b, A.Assemble(m, rd, rs1, 0, imm).value, rd, ImmediateValue(m, b.registers[rs1], imm))
    case LoadSlot(rd, slot) => Emit(b, A.Assemble(A.Lw, rd, 31, 0, 4 * slot).value, rd, Lookup(b.memory, slot))
    case StoreSlot(rs2, slot) =>
      EmitStore(b, A.Assemble(A.Sw, 0, 31, rs2, 4 * slot).value, Address(slot), b.registers[rs2])
  }

  /** The upper part of a seed value, rounded so that the sign-extended lower part completes it. */
  function Upper(value: Word): nat { ((value + 0x800) / 0x1000) % 0x10_0000 }

  function Lower(value: Word): int {
    if value % 0x1000 >= 0x800 then value % 0x1000 - 0x1000 else value % 0x1000
  }

  function SeedHigh(rd: Reg, value: Word): Word { A.Assemble(A.Lui, rd, 0, 0, Upper(value)).value }

  function SeedLow(rd: Reg, value: Word): Word { A.Assemble(A.Addi, rd, rd, 0, Lower(value)).value }

  function Seeded(b: Program, rd: Reg, value: Word): Program {
    Emit(Emit(b, SeedHigh(rd, value), rd, Upper(value) * 0x1000), SeedLow(rd, value), rd, value)
  }

  function Based(): Program { Emit(Empty(), A.Assemble(A.Addi, 31, 0, 0, BASE).value, 31, BASE) }

  /** The data base in x31 and random values in x1 to xk. */
  function Seeds(values: seq<Word>, k: nat): Program
    requires |values| == 12 && k <= 12
  {
    if k == 0 then Based() else Seeded(Seeds(values, k - 1), k, values[k - 1])
  }

  function Body(values: seq<Word>, draws: seq<Draw>): Program
    requires |values| == 12 && forall d <- draws :: Drawable(d)
  {
    if draws == [] then Seeds(values, 12)
    else Drawn(Body(values, draws[..|draws| - 1]), draws[|draws| - 1])
  }

  /** The completion marker and the final self-loop. */
  function Finished(b: Program): Program {
    var marked := Emit(b, A.Assemble(A.Addi, 30, 0, 0, 0x55A).value, 30, 0x55A);
    marked.(words := marked.words + [A.Assemble(A.Jal, 0, 0, 0, 0).value])
  }

  function Generated(values: seq<Word>, draws: seq<Draw>): Program
    requires |values| == 12 && forall d <- draws :: Drawable(d)
  {
    Finished(Body(values, draws))
  }

  // ---- Tracking an execution ---------------------------------------------------------------

  function WritesOf(commits: seq<M.Commit>): seq<Write> {
    if commits == [] then []
    else
      var c := commits[|commits| - 1];
      WritesOf(commits[..|commits| - 1]) + (match c.reg case Some(w) => [Write(c.pc, w.rd, w.data)] case None => [])
  }

  lemma WritesExtend(commits: seq<M.Commit>, c: M.Commit)
    ensures WritesOf(commits + [c])
         == WritesOf(commits) + (match c.reg case Some(w) => [Write(c.pc, w.rd, w.data)] case None => [])
  {
    assert (commits + [c])[..|commits|] == commits;
  }

  const ROOM: nat := 0x4000_0000

  /** Instruction memory holds the words from address zero. */
  ghost predicate Holding(mem: Fetch.Imem, words: seq<Word>) {
    |words| <= ROOM && forall k: nat :: k < |words| ==> mem(4 * k) == Fetch.Beat(words[k], false)
  }

  predicate SlotsMatch(ram: Ram, memory: map<nat, Word>) {
    |ram| >= 0x480 && forall slot: nat :: slot < SLOTS ==> WordAt(ram, Address(slot)) == Lookup(memory, slot)
  }

  /** Retirements of full-size instructions, none of them WFI, at word addresses up to the last, with
      stores into the data area only. */
  predicate Tame(commits: seq<M.Commit>, last: nat) {
    forall c <- commits ::
      && c.pc % 4 == 0 && c.pc <= last && c.raw % 4 == 3 && c.raw != WFI
      && (c.mem.Some? ==> BASE <= c.mem.value.addr)
  }

  lemma TameExtends(commits: seq<M.Commit>, c: M.Commit, last: nat, last': nat)
    requires Tame(commits, last) && last <= last' && Tame([c], last')
    ensures Tame(commits + [c], last')
  {
    assert c in [c];
  }

  lemma TameCommit(c: M.Commit, last: nat)
    requires c.pc % 4 == 0 && c.pc <= last && c.raw % 4 == 3 && c.raw != WFI
    requires c.mem.Some? ==> BASE <= c.mem.value.addr
    ensures Tame([c], last)
  {
  }

  lemma WfiDoesNothing(ids: Csr.Ids, s: M.Arch, v: Csr.Volatile)
    ensures var o := M.Execute(ids, Whole32(WFI), s, v); o.Done? ==> !o.writes && o.access == M.NoAccess
  {
    assert Opcode(WFI) == OP_SYSTEM && Funct3(WFI) == 0;
    hide Legal, Opcode, Funct3, M.Following, M.ExecuteCsr, M.Branch, M.ExecuteLoad, M.ExecuteStore, M.ImmediateOp,
         M.RegisterOp;
  }

  /** A machine that has executed all words emitted so far; `known` are the registers the builder
      knows the contents of. */
  ghost predicate Tracks(b: Program, known: set<nat>, t: WholeTrace) {
    && |b.words| < ROOM && t.final.arch.pc == 4 * |b.words|
    && (forall r: Reg :: r in known ==> Get(t.final.arch.x, r) == b.registers[r])
    && WritesOf(t.shown.commits) == b.writes && t.shown.traps == [] && Tame(t.shown.commits, 4 * |b.words|)
    && SlotsMatch(t.final.ram, b.memory)
  }

  function Extended(mem: Fetch.Imem, ids: Csr.Ids, t: WholeTrace, c: Env): WholeTrace {
    var (s, e) := WholeStep(mem, ids, t.final, c);
    WholeTrace(s, Shown(t.shown.commits + e.commits, t.shown.traps + e.traps))
  }

  lemma FetchesWord(mem: Fetch.Imem, pc: Word, w: Word)
    requires pc % 4 == 0 && mem(pc) == Fetch.Beat(w, false) && w % 4 == 3
    ensures Fetch.InstructionAt(mem, pc) == Fetch.Fetched(false, w, w, false)
  {
    hide Fetch.Canonical;
    assert Align(pc) == pc && !UpperHalf(pc) && Align(Wrap(pc + 2)) == pc && UpperHalf(Wrap(pc + 2));
    HalvesJoin(w);
    hide Align, UpperHalf, Wrap;
  }

  lemma HalvesJoin(w: Word)
    ensures (w / 0x1_0000) * 0x1_0000 + w % 0x1_0000 == w && (w % 0x1_0000) % 4 == w % 4
  {
  }

  function Whole32(w: Word): Fetch.Fetched { Fetch.Fetched(false, w, w, false) }

  /** An instruction that writes a register and stores nothing does what Emit predicts. */
  lemma EmitTracks(mem: Fetch.Imem, ids: Csr.Ids, b: Program, known: set<nat>, t: WholeTrace, v: Csr.Volatile,
                   word: Word, rd: Reg, value: int)
    requires Tracks(b, known, t) && |b.words| + 1 < ROOM && 0 in known && rd != 0
    requires mem(4 * |b.words|) == Fetch.Beat(word, false) && word % 4 == 3
    requires var o := M.Execute(ids, Whole32(word), t.final.arch, v);
      && o.Done? && o.writes && o.rd == rd && !o.access.Store? && o.next == t.final.arch.pc + 4
      && Result(t.final.ram, o) == Wrap(value)
    ensures Tracks(Emit(b, word, rd, value), known + {rd}, Extended(mem, ids, t, Go(v, false)))
  {
    hide M.Execute, Fetch.InstructionAt, SlotsMatch, Wrap, Csr.Retire, WritesOf, Result, Tame;
    FetchesWord(mem, t.final.arch.pc, word);
    var o := M.Execute(ids, Whole32(word), t.final.arch, v);
    var c := M.Commit(t.final.arch.pc, word, Some(M.RegWrite(rd, Wrap(value))), None);
    WritesExtend(t.shown.commits, c);
    WfiDoesNothing(ids, t.final.arch, v);
    TameCommit(c, 4 * |b.words| + 4);
    TameExtends(t.shown.commits, c, 4 * |b.words|, 4 * |b.words| + 4);
  }

  lemma EmitStoreTracks(mem: Fetch.Imem, ids: Csr.Ids, b: Program, known: set<nat>, t: WholeTrace, v: Csr.Volatile,
                        word: Word, slot: nat, value: Word)
    requires Tracks(b, known, t) && |b.words| + 1 < ROOM && slot < SLOTS
    requires mem(4 * |b.words|) == Fetch.Beat(word, false) && word % 4 == 3
    requires M.Execute(ids, Whole32(word), t.final.arch, v)
          == M.Done(t.final.arch.pc + 4, false, 0, 0, M.Store(Address(slot), LoadStore.MEM_WORD, value),
                    t.final.arch.csr)
    ensures Tracks(EmitStore(b, word, Address(slot), value), known, Extended(mem, ids, t, Go(v, false)))
  {
    hide M.Execute, Fetch.InstructionAt, SlotsMatch, Wrap, Csr.Retire, WritesOf, StoreTo, LoadStore.StoreData,
         LoadStore.ByteEnable, Tame;
    FetchesWord(mem, t.final.arch.pc, word);
    StoreMatches(t.final.ram, b.memory, slot, value);
    var c := M.Commit(t.final.arch.pc, word, None, M.MemoryWrite(M.Store(Address(slot), LoadStore.MEM_WORD, value)));
    WritesExtend(t.shown.commits, c);
    WfiDoesNothing(ids, t.final.arch, v);
    TameCommit(c, 4 * |b.words| + 4);
    TameExtends(t.shown.commits, c, 4 * |b.words|, 4 * |b.words| + 4);
  }

  // ---- Slots of the data memory ------------------------------------------------------------

  lemma SlotFits(ram: Ram, slot: nat)
    requires |ram| >= 0x480 && slot < SLOTS
    ensures Address(slot) % 4 == 0 && Align(Address(slot)) == Address(slot) && Mapped(ram, Address(slot))
    ensures InRange(ram, Address(slot), LoadStore.MEM_WORD) && !LoadStore.Misaligned(LoadStore.MEM_WORD, Address(slot))
  {
  }

  lemma BytesOf(data: Word)
    ensures Quad(LoadStore.Byte(data, 0), LoadStore.Byte(data, 1), LoadStore.Byte(data, 2), LoadStore.Byte(data, 3))
         == data
  {
    assert data / 0x100 == LoadStore.Byte(data, 1) + 0x100 * (data / 0x1_0000);
    assert data / 0x1_0000 == LoadStore.Byte(data, 2) + 0x100 * (data / 0x100_0000);
  }

  lemma StoredWord(ram: Ram, slot: nat, other: nat, value: Word)
    requires |ram| >= 0x480 && slot < SLOTS && other < SLOTS
    ensures var after := StoreTo(ram, LoadStore.MEM_WORD, Address(slot), value);
      && |after| == |ram|
      && WordAt(after, Address(other)) == if other == slot then value else WordAt(ram, Address(other))
  {
    SlotFits(ram, slot);
    SlotFits(ram, other);
    var a := Address(other);
    FlatAt(ram, LoadStore.MEM_WORD, Address(slot), value, a);
    FlatAt(ram, LoadStore.MEM_WORD, Address(slot), value, a + 1);
    FlatAt(ram, LoadStore.MEM_WORD, Address(slot), value, a + 2);
    FlatAt(ram, LoadStore.MEM_WORD, Address(slot), value, a + 3);
    BytesOf(value);
    hide FlatStore, LoadStore.Byte, Quad, Mapped, InRange;
  }

  lemma StoreMatches(ram: Ram, memory: map<nat, Word>, slot: nat, value: Word)
    requires SlotsMatch(ram, memory) && slot < SLOTS
    ensures SlotsMatch(StoreTo(ram, LoadStore.MEM_WORD, Address(slot), value), memory[Address(slot) := value])
  {
    var after := StoreTo(ram, LoadStore.MEM_WORD, Address(slot), value);
    StoredWord(ram, slot, slot, value);
    forall other: nat | other < SLOTS
      ensures WordAt(after, Address(other)) == Lookup(memory[Address(slot) := value], other)
    {
      StoredWord(ram, slot, other, value);
    }
    hide StoreTo, WordAt;
  }

  lemma LoadedWord(ram: Ram, slot: nat)
    requires |ram| >= 0x480 && slot < SLOTS
    ensures LoadFrom(ram, LoadStore.MEM_WORD, Address(slot)) == WordAt(ram, Address(slot))
  {
    SlotFits(ram, slot);
    LoadAnswers(ram, LoadStore.MEM_WORD, Address(slot), WordAt(ram, Address(slot)));
    hide LoadFrom, WordAt, Mapped;
  }

  // ---- One draw ----------------------------------------------------------------------------

  lemma NextWord(pc: Word, f: Fetch.Fetched)
    requires pc < 0xFFFF_FFFC && !f.compressed
    ensures M.Following(f, pc) == pc + 4
  {
  }

  lemma WordsAreFull(w: Word)
    requires Opcode(w) in {OP_LUI, OP_JAL, OP_IMM, OP_REG, OP_LOAD, OP_STORE}
    ensures w % 4 == 3
  {
    A.LowBits(w);
    hide Opcode;
  }

  /** The predicted value of an instruction is what executing its word writes. */
  lemma RegistersTrack(mem: Fetch.Imem, ids: Csr.Ids, b: Program, known: set<nat>, t: WholeTrace, v: Csr.Volatile,
                       m: A.Mnemonic, rd: Reg, rs1: Reg, rs2: Reg)
    requires Tracks(b, known, t) && |b.words| + 1 < ROOM && A.KindOf(m) == A.KR && rd != 0
    requires 0 in known && rs1 in known && rs2 in known
    requires mem(4 * |b.words|) == Fetch.Beat(A.Assemble(m, rd, rs1, rs2, 0).value, false)
    ensures Tracks(Emit(b, A.Assemble(m, rd, rs1, rs2, 0).value, rd,
                        RegisterValue(m, b.registers[rs1], b.registers[rs2])), known + {rd},
                   Extended(mem, ids, t, Go(v, false)))
  {
    hide A.Assemble, A.F3, A.F7, M.Execute, RegisterValue, Legal, Opcode, Funct3, Funct7, Rd, Rs1, Rs2, Emit, A.Name,
         M.RegisterOp, SlotsMatch, WritesOf, Extended, Wrap, A.KindOf;
    RegisterWord(m, rd, rs1, rs2);
    var w := A.Assemble(m, rd, rs1, rs2, 0).value;
    WordsAreFull(w);
    var s := t.final.arch;
    M.PlainExecutes(ids, Whole32(w), s, v);
    RegisterValueAgrees(m, w, Get(s.x, rs1), Get(s.x, rs2));
    NextWord(s.pc, Whole32(w));
    EmitTracks(mem, ids, b, known, t, v, w, rd, RegisterValue(m, b.registers[rs1], b.registers[rs2]));
  }

  lemma RegisterWord(m: A.Mnemonic, rd: Reg, rs1: Reg, rs2: Reg)
    requires A.KindOf(m) == A.KR
    ensures A.Assemble(m, rd, rs1, rs2, 0).Some?
    ensures var w := A.Assemble(m, rd, rs1, rs2, 0).value;
      && Legal(w) && Opcode(w) == OP_REG && Funct3(w) == A.F3(m) && Funct7(w) == A.F7(m)
      && Rd(w) == rd && Rs1(w) == rs1 && Rs2(w) == rs2
  {
    hide Legal, Opcode, Funct3, Funct7, Rd, Rs1, Rs2, A.Name, A.F3, A.F7, E.EncR;
    A.AssembledIsUnderstood(m, rd, rs1, rs2, 0);
    E.FieldsR(A.F7(m), rs2, rs1, A.F3(m), rd, OP_REG);
  }

  lemma MaskedFits(imm: int)
    requires -0x800 <= imm < 0x800
    ensures A.Masked(imm, 0x1000) < 0x1000
  {
  }

  lemma ImmediateWord(m: A.Mnemonic, rd: Reg, rs1: Reg, imm: int)
    requires A.KindOf(m) in {A.KI, A.KShift} && A.Fits(m, imm)
    ensures A.Assemble(m, rd, rs1, 0, imm).Some?
    ensures var w := A.Assemble(m, rd, rs1, 0, imm).value;
      && Legal(w) && Opcode(w) == OP_IMM && Funct3(w) == A.F3(m) && Rd(w) == rd && Rs1(w) == rs1
      && (A.KindOf(m) == A.KI ==> ImmI(w) == Wrap(imm))
      && (A.KindOf(m) == A.KShift ==> Funct7(w) == A.F7(m) && ImmI(w) % 0x20 == imm)
  {
    hide Legal, Opcode, Funct3, Funct7, Rd, Rs1, Rs2, A.Name, A.F3, A.F7, E.EncI, SignExtend, ImmI, A.Masked,
         A.KindOf, Wrap;
    A.AssembledIsUnderstood(m, rd, rs1, 0, imm);
    if A.KindOf(m) == A.KShift {
      A.ShiftField(m, imm);
      E.FieldsI(A.F7(m) * 0x20 + imm, rs1, A.F3(m), rd, OP_IMM);
    } else {
      MaskedFits(imm);
      E.FieldsI(A.Masked(imm, 0x1000), rs1, A.F3(m), rd, OP_IMM);
    }
  }

  lemma ImmediatesTrack(mem: Fetch.Imem, ids: Csr.Ids, b: Program, known: set<nat>, t: WholeTrace, v: Csr.Volatile,
                        m: A.Mnemonic, rd: Reg, rs1: Reg, imm: int, value: int)
    requires Tracks(b, known, t) && |b.words| + 1 < ROOM && A.KindOf(m) in {A.KI, A.KShift} && A.Fits(m, imm) && rd != 0
    requires 0 in known && rs1 in known && Wrap(ImmediateValue(m, b.registers[rs1], imm)) == Wrap(value)
    requires mem(4 * |b.words|) == Fetch.Beat(A.Assemble(m, rd, rs1, 0, imm).value, false)
    ensures Tracks(Emit(b, A.Assemble(m, rd, rs1, 0, imm).value, rd, value), known + {rd},
                   Extended(mem, ids, t, Go(v, false)))
  {
    hide A.Assemble, A.F3, A.F7, M.Execute, ImmediateValue, Legal, Opcode, Funct3, Funct7, Rd, Rs1, Rs2, Emit, A.Name,
         M.ImmediateOp, SlotsMatch, WritesOf, Extended, Wrap, A.KindOf, ImmI, A.Fits;
    ImmediateWord(m, rd, rs1, imm);
    var w := A.Assemble(m, rd, rs1, 0, imm).value;
    WordsAreFull(w);
    var s := t.final.arch;
    M.PlainExecutes(ids, Whole32(w), s, v);
    if A.KindOf(m) == A.KI {
      ImmediateValueAgrees(m, w, Get(s.x, rs1), imm);
    } else {
      ShiftValueAgrees(m, w, Get(s.x, rs1), imm);
    }
    NextWord(s.pc, Whole32(w));
    EmitTracks(mem, ids, b, known, t, v, w, rd, value);
  }

  // ---- Loads and stores --------------------------------------------------------------------

  lemma SlotWords(rd: Reg, rs2: Reg, slot: nat)
    requires slot < SLOTS
    ensures A.Assemble(A.Lw, rd, 31, 0, 4 * slot).Some? && A.Assemble(A.Sw, 0, 31, rs2, 4 * slot).Some?
    ensures var w := A.Assemble(A.Lw, rd, 31, 0, 4 * slot).value;
      && Legal(w) && Opcode(w) == OP_LOAD && Funct3(w) == 2 && Rd(w) == rd && Rs1(w) == 31 && ImmI(w) == 4 * slot
    ensures var w := A.Assemble(A.Sw, 0, 31, rs2, 4 * slot).value;
      && Legal(w) && Opcode(w) == OP_STORE && Funct3(w) == 2 && Rs1(w) == 31 && Rs2(w) == rs2 && ImmS(w) == 4 * slot
  {
    hide Legal, Opcode, Funct3, Funct7, Rd, Rs1, Rs2, A.Name, E.EncI, E.EncS, ImmI, ImmS;
    A.AssembledIsUnderstood(A.Lw, rd, 31, 0, 4 * slot);
    A.AssembledIsUnderstood(A.Sw, 0, 31, rs2, 4 * slot);
    E.FieldsI(4 * slot, 31, 2, rd, OP_LOAD);
    E.FieldsS(4 * slot, rs2, 31, 2, OP_STORE);
  }

  lemma LoadTracks(mem: Fetch.Imem, ids: Csr.Ids, b: Program, known: set<nat>, t: WholeTrace, v: Csr.Volatile,
                   rd: Reg, slot: nat)
    requires Tracks(b, known, t) && |b.words| + 1 < ROOM && slot < SLOTS && 1 <= rd <= 30
    requires 0 in known && 31 in known && b.registers[31] == BASE
    requires mem(4 * |b.words|) == Fetch.Beat(A.Assemble(A.Lw, rd, 31, 0, 4 * slot).value, false)
    ensures Tracks(Drawn(b, LoadSlot(rd, slot)), known + {rd}, Extended(mem, ids, t, Go(v, false)))
  {
    hide A.Assemble, M.Execute, Legal, Opcode, Funct3, Funct7, Rd, Rs1, Rs2, Emit, A.Name, SlotsMatch, WritesOf,
         Extended, ImmI, A.KindOf, LoadFrom, WordAt, LoadStore.Misaligned, Lookup;
    SlotWords(rd, 0, slot);
    var w := A.Assemble(A.Lw, rd, 31, 0, 4 * slot).value;
    WordsAreFull(w);
    var s := t.final.arch;
    M.PlainExecutes(ids, Whole32(w), s, v);
    NextWord(s.pc, Whole32(w));
    SlotValue(t.final.ram, b.memory, slot);
    EmitTracks(mem, ids, b, known, t, v, w, rd, Lookup(b.memory, slot));
  }

  lemma SlotValue(ram: Ram, memory: map<nat, Word>, slot: nat)
    requires SlotsMatch(ram, memory) && slot < SLOTS
    ensures LoadFrom(ram, LoadStore.MEM_WORD, Address(slot)) == Lookup(memory, slot) == Wrap(Lookup(memory, slot))
    ensures !LoadStore.Misaligned(LoadStore.MEM_WORD, Address(slot))
  {
    LoadedWord(ram, slot);
    SlotFits(ram, slot);
    hide LoadFrom, WordAt;
  }

  lemma StoreTracks(mem: Fetch.Imem, ids: Csr.Ids, b: Program, known: set<nat>, t: WholeTrace, v: Csr.Volatile,
                    rs2: Reg, slot: nat)
    requires Tracks(b, known, t) && |b.words| + 1 < ROOM && slot < SLOTS && rs2 <= 30
    requires rs2 in known && 31 in known && b.registers[31] == BASE
    requires mem(4 * |b.words|) == Fetch.Beat(A.Assemble(A.Sw, 0, 31, rs2, 4 * slot).value, false)
    ensures Tracks(Drawn(b, StoreSlot(rs2, slot)), known, Extended(mem, ids, t, Go(v, false)))
  {
    hide A.Assemble, M.Execute, Legal, Opcode, Funct3, Funct7, Rd, Rs1, Rs2, EmitStore, A.Name, SlotsMatch, WritesOf,
         Extended, ImmS, A.KindOf, LoadStore.Misaligned;
    SlotWords(1, rs2, slot);
    var w := A.Assemble(A.Sw, 0, 31, rs2, 4 * slot).value;
    WordsAreFull(w);
    var s := t.final.arch;
    M.PlainExecutes(ids, Whole32(w), s, v);
    NextWord(s.pc, Whole32(w));
    assert !LoadStore.Misaligned(LoadStore.MEM_WORD, Address(slot)) by { SlotAligned(slot); }
    EmitStoreTracks(mem, ids, b, known, t, v, w, slot, b.registers[rs2]);
  }

  lemma SlotAligned(slot: nat)
    requires slot < SLOTS
    ensures !LoadStore.Misaligned(LoadStore.MEM_WORD, Address(slot))
  {
  }

  // ---- Seeds -------------------------------------------------------------------------------

  lemma LuiWord(rd: Reg, upper: nat)
    requires upper < 0x10_0000
    ensures A.Assemble(A.Lui, rd, 0, 0, upper).Some?
    ensures var w := A.Assemble(A.Lui, rd, 0, 0, upper).value;
      Legal(w) && Opcode(w) == OP_LUI && Rd(w) == rd && ImmU(w) == upper * 0x1000
  {
    hide Legal, Opcode, Funct3, Rd, A.Name, E.EncU, ImmU;
    A.AssembledIsUnderstood(A.Lui, rd, 0, 0, upper);
    E.FieldsU(upper, rd, OP_LUI);
  }

  lemma LuiTracks(mem: Fetch.Imem, ids: Csr.Ids, b: Program, known: set<nat>, t: WholeTrace, v: Csr.Volatile,
                  rd: Reg, upper: nat)
    requires Tracks(b, known, t) && |b.words| + 1 < ROOM && upper < 0x10_0000 && rd != 0 && 0 in known
    requires mem(4 * |b.words|) == Fetch.Beat(A.Assemble(A.Lui, rd, 0, 0, upper).value, false)
    ensures Tracks(Emit(b, A.Assemble(A.Lui, rd, 0, 0, upper).value, rd, upper * 0x1000), known + {rd},
                   Extended(mem, ids, t, Go(v, false)))
  {
    hide A.Assemble, M.Execute, Legal, Opcode, Rd, Emit, A.Name, SlotsMatch, WritesOf, Extended, ImmU, A.KindOf;
    LuiWord(rd, upper);
    var w := A.Assemble(A.Lui, rd, 0, 0, upper).value;
    WordsAreFull(w);
    M.PlainExecutes(ids, Whole32(w), t.final.arch, v);
    NextWord(t.final.arch.pc, Whole32(w));
    EmitTracks(mem, ids, b, known, t, v, w, rd, upper * 0x1000);
  }

  /** The rounded upper part and the signed lower part make up the value. */
  lemma PartsComplete(value: Word)
    ensures Wrap(Wrap(Upper(value) * 0x1000) + Lower(value)) == Wrap(value) && -0x800 <= Lower(value) < 0x800
    ensures Upper(value) < 0x10_0000
  {
    var u := (value + 0x800) / 0x1000;
    assert u * 0x1000 + Lower(value) == value;
    assert u <= 0x10_0000;
  }

  lemma SeedTracks(mem: Fetch.Imem, ids: Csr.Ids, b: Program, known: set<nat>, t: WholeTrace, v: Csr.Volatile,
                   v': Csr.Volatile, rd: Reg, value: Word)
    requires Tracks(b, known, t) && |b.words| + 2 < ROOM && rd != 0 && rd != 31 && 0 in known
    requires mem(4 * |b.words|) == Fetch.Beat(SeedHigh(rd, value), false)
    requires mem(4 * (|b.words| + 1)) == Fetch.Beat(SeedLow(rd, value), false)
    ensures Tracks(Seeded(b, rd, value), known + {rd},
                   Extended(mem, ids, Extended(mem, ids, t, Go(v, false)), Go(v', false)))
  {
    hide A.Assemble, Tracks, Extended, Upper, Lower, Wrap, WritesOf;
    PartsComplete(value);
    LuiWord(rd, Upper(value));
    LuiTracks(mem, ids, b, known, t, v, rd, Upper(value));
    var high := Emit(b, SeedHigh(rd, value), rd, Upper(value) * 0x1000);
    TracksRoom(b, known, t);
    ImmediatesTrack(mem, ids, high, known + {rd}, Extended(mem, ids, t, Go(v, false)), v', A.Addi, rd, rd,
                    Lower(value), value);
    assert known + {rd} + {rd} == known + {rd};
  }

  lemma TracksRoom(b: Program, known: set<nat>, t: WholeTrace)
    requires Tracks(b, known, t)
    ensures |b.words| < ROOM
  {
  }

  // ---- Runs --------------------------------------------------------------------------------

  /** Registers known before and after seeding x1 to xk. */
  const ALL: set<nat> :=
    {0, 1, 2, 3, 4, 5, 6, 7, 8, 9, 10, 11, 12, 13, 14, 15, 16, 17, 18, 19, 20, 21, 22, 23, 24, 25, 26, 27, 28, 29,
     30, 31}

  function StartsKnown(): set<nat> { set r <- ALL | r == 0 || 13 <= r <= 30 }

  function Known(k: nat): set<nat> { set r <- ALL | r == 0 || r > 12 || r <= k }

  /** No interrupt and no bus error. */
  predicate Quiet(envs: seq<Env>) {
    forall c <- envs :: c.Go? && !c.error
  }

  /** Everything the builder has no say in: x1 to x12 and x31, the CSRs, and memory outside the slots. */
  predicate Startable(s: Whole) {
    && s.arch.pc == 0 && (forall r: Reg :: 13 <= r <= 30 ==> s.arch.x[r] == 0)
    && SlotsMatch(s.ram, map[])
  }

  lemma StartTracks(s: Whole)
    requires Startable(s)
    ensures Tracks(Empty(), StartsKnown(), WholeTrace(s, Shown([], [])))
  {
    hide SlotsMatch;
  }

  lemma SeededWords(b: Program, rd: Reg, value: Word)
    requires rd != 0 && rd != 31
    ensures Seeded(b, rd, value).words == b.words + [SeedHigh(rd, value), SeedLow(rd, value)]
    ensures Seeded(b, rd, value).registers[31] == b.registers[31]
  {
    hide SeedHigh, SeedLow, Upper, Wrap;
  }

  lemma SeedLengths(values: seq<Word>, k: nat)
    requires |values| == 12 && k <= 12
    ensures |Seeds(values, k).words| == 1 + 2 * k && Seeds(values, k).registers[31] == BASE
    ensures k > 0 ==> Seeds(values, k - 1).words <= Seeds(values, k).words
    ensures k > 0 ==> Seeds(values, k).words[2 * k - 1] == SeedHigh(k, values[k - 1])
    ensures k > 0 ==> Seeds(values, k).words[2 * k] == SeedLow(k, values[k - 1])
  {
    hide SeedHigh, SeedLow, Seeded, Based;
    if k == 0 {
      FirstWord();
    } else {
      SeedLengths(values, k - 1);
      SeededWords(Seeds(values, k - 1), k, values[k - 1]);
    }
  }

  lemma BodyLengths(values: seq<Word>, draws: seq<Draw>)
    requires |values| == 12 && forall d <- draws :: Drawable(d)
    ensures |Body(values, draws).words| == 25 + |draws| && Body(values, draws).registers[31] == BASE
    ensures draws != [] ==> Body(values, draws[..|draws| - 1]).words <= Body(values, draws).words
  {
    hide A.Assemble, Upper, Lower, RegisterValue, ImmediateValue, Seeds;
    if draws == [] {
      SeedLengths(values, 12);
    } else {
      BodyLengths(values, draws[..|draws| - 1]);
      assert Drawable(draws[|draws| - 1]);
    }
  }

  lemma BasedTracks(mem: Fetch.Imem, ids: Csr.Ids, s: Whole, v: Csr.Volatile)
    requires Startable(s) && mem(0) == Fetch.Beat(A.Assemble(A.Addi, 31, 0, 0, BASE).value, false)
    ensures Tracks(Based(), Known(0), Extended(mem, ids, WholeTrace(s, Shown([], [])), Go(v, false)))
  {
    hide A.Assemble, Tracks, Extended, Emit, Wrap;
    StartTracks(s);
    assert ImmediateValue(A.Addi, 0, BASE) == BASE;
    ImmediatesTrack(mem, ids, Empty(), StartsKnown(), WholeTrace(s, Shown([], [])), v, A.Addi, 31, 0, BASE, BASE);
    assert StartsKnown() + {31} == Known(0);
  }

  lemma OneRun(mem: Fetch.Imem, ids: Csr.Ids, s: Whole, envs: seq<Env>)
    requires |envs| > 0
    ensures WholeRun(M.Fixed(mem), ids, s, envs)
         == Extended(mem, ids, WholeRun(M.Fixed(mem), ids, s, envs[..|envs| - 1]),
                                                    envs[|envs| - 1])
  {
    hide WholeStep;
  }

  lemma {:induction false} SeedsRun(mem: Fetch.Imem, ids: Csr.Ids, s: Whole, values: seq<Word>, k: nat,
                                    words: seq<Word>, envs: seq<Env>)
    requires |values| == 12 && k <= 12 && Startable(s) && Quiet(envs) && |envs| == 1 + 2 * k
    requires Holding(mem, words) && Seeds(values, k).words <= words
    ensures Tracks(Seeds(values, k), Known(k), WholeRun(M.Fixed(mem), ids, s, envs))
  {
    hide A.Assemble, Tracks, Extended, Emit, Wrap, Startable, WholeRun, Based, Seeded, Known, SeedHigh, SeedLow;
    SeedLengths(values, k);
    OneRun(mem, ids, s, envs);
    if k == 0 {
      FirstWord();
      assert mem(4 * 0) == Fetch.Beat(words[0], false);
      assert envs[..0] == [];
      EmptyRun(mem, ids, s);
      BasedTracks(mem, ids, s, envs[0].v);
    } else {
      var n := |envs|;
      OneRun(mem, ids, s, envs[..n - 1]);
      assert envs[..n - 1][..n - 2] == envs[..n - 2];
      SeedsRun(mem, ids, s, values, k - 1, words, envs[..n - 2]);
      SeedLengths(values, k - 1);
      assert mem(4 * (2 * k - 1)) == Fetch.Beat(words[2 * k - 1], false);
      assert mem(4 * (2 * k)) == Fetch.Beat(words[2 * k], false);
      assert Known(k - 1) + {k} == Known(k) && 0 in Known(k - 1) by { KnownGrows(k); }
      var before := WholeRun(M.Fixed(mem), ids, s, envs[..n - 2]);
      SeedTracks(mem, ids, Seeds(values, k - 1), Known(k - 1), before, envs[n - 2].v,
                 envs[n - 1].v, k, values[k - 1]);
    }
  }

  lemma FirstWord()
    ensures A.Assemble(A.Addi, 31, 0, 0, BASE).Some? && Based().words == [A.Assemble(A.Addi, 31, 0, 0, BASE).value]
    ensures Based().registers[31] == BASE
  {
    hide A.Assemble, Legal, Opcode, Funct3, Funct7, Rd, Rs1, ImmI, A.F3, A.F7, Wrap;
    ImmediateWord(A.Addi, 31, 0, BASE);
    SmallWraps(BASE);
    EmitSets(Empty(), A.Assemble(A.Addi, 31, 0, 0, BASE).value, 31, BASE);
    hide Emit;
  }

  lemma EmitSets(b: Program, word: Word, rd: Reg, value: int)
    requires rd != 0
    ensures Emit(b, word, rd, value).words == b.words + [word] && Emit(b, word, rd, value).registers[rd] == Wrap(value)
  {
    hide Wrap;
  }

  lemma EmptyRun(mem: Fetch.Imem, ids: Csr.Ids, s: Whole)
    ensures WholeRun(M.Fixed(mem), ids, s, []) == WholeTrace(s, Shown([], []))
  {
    hide WholeStep;
  }

  lemma KnownGrows(k: nat)
    requires 1 <= k <= 12
    ensures Known(k - 1) + {k} == Known(k) && 0 in Known(k - 1)
  {
  }

  lemma AllKnown(r: nat)
    requires r < 32
    ensures r in Known(12) && Known(12) + {r} == Known(12)
  {
  }

  lemma DrawTracks(mem: Fetch.Imem, ids: Csr.Ids, b: Program, t: WholeTrace, v: Csr.Volatile, d: Draw)
    requires Tracks(b, Known(12), t) && |b.words| + 1 < ROOM && Drawable(d) && b.registers[31] == BASE
    requires mem(4 * |b.words|) == Fetch.Beat(Drawn(b, d).words[|b.words|], false)
    ensures Tracks(Drawn(b, d), Known(12), Extended(mem, ids, t, Go(v, false)))
  {
    hide A.Assemble, Tracks, Extended, Wrap, Known, RegisterValue, ImmediateValue, Lookup, Address, A.KindOf, A.Fits;
    AllKnown(0);
    AllKnown(31);
    match d {
      case Registers(m, rd, rs1, rs2) =>
        AllKnown(rd);
        AllKnown(rs1);
        AllKnown(rs2);
        RegistersTrack(mem, ids, b, Known(12), t, v, m, rd, rs1, rs2);
      case Immediates(m, rd, rs1, imm) =>
        AllKnown(rd);
        AllKnown(rs1);
        ImmediatesTrack(mem, ids, b, Known(12), t, v, m, rd, rs1, imm, ImmediateValue(m, b.registers[rs1], imm));
      case LoadSlot(rd, slot) =>
        AllKnown(rd);
        LoadTracks(mem, ids, b, Known(12), t, v, rd, slot);
      case StoreSlot(rs2, slot) =>
        AllKnown(rs2);
        StoreTracks(mem, ids, b, Known(12), t, v, rs2, slot);
    }
  }

  lemma {:induction false} BodyRun(mem: Fetch.Imem, ids: Csr.Ids, s: Whole, values: seq<Word>, draws: seq<Draw>,
                                   words: seq<Word>, envs: seq<Env>)
    requires |values| == 12 && (forall d <- draws :: Drawable(d)) && Startable(s)
    requires Quiet(envs) && |envs| == 25 + |draws|
    requires Holding(mem, words) && Body(values, draws).words < words
    ensures Tracks(Body(values, draws), Known(12), WholeRun(M.Fixed(mem), ids, s, envs))
  {
    hide A.Assemble, Tracks, Extended, Startable, WholeRun, Drawn, Known, Seeds, Drawable;
    BodyLengths(values, draws);
    if draws == [] {
      SeedsRun(mem, ids, s, values, 12, words, envs);
    } else {
      var n, e := |draws| - 1, |envs| - 1;
      BodyRun(mem, ids, s, values, draws[..n], words, envs[..e]);
      BodyLengths(values, draws[..n]);
      OneRun(mem, ids, s, envs);
      var b := Body(values, draws[..n]);
      assert mem(4 * |b.words|) == Fetch.Beat(words[|b.words|], false);
      DrawTracks(mem, ids, b, WholeRun(M.Fixed(mem), ids, s, envs[..e]), envs[e].v, draws[n]);
    }
  }

  // ---- The end of the program --------------------------------------------------------------

  lemma LoopWord()
    ensures A.Assemble(A.Jal, 0, 0, 0, 0).Some?
    ensures var w := A.Assemble(A.Jal, 0, 0, 0, 0).value; Legal(w) && Opcode(w) == OP_JAL && Rd(w) == 0 && ImmJ(w) == 0
  {
    hide A.Assemble, Legal, Opcode, Funct3, Rd, E.EncJ, ImmJ, SignExtend;
    LoopIsJal();
    E.FieldsJ(0, 0, OP_JAL);
    JalIsLegal(E.EncJ(0, 0, OP_JAL));
  }

  lemma LoopIsJal()
    ensures A.Assemble(A.Jal, 0, 0, 0, 0) == Some(E.EncJ(0, 0, OP_JAL)) && SignExtend(0, 0x10_0000) == 0
  {
    hide E.EncJ;
  }

  lemma JalIsLegal(w: Word)
    requires Opcode(w) == OP_JAL
    ensures Legal(w)
  {
    hide Opcode, Funct3, Funct7;
  }

  lemma LoopOutcome(ids: Csr.Ids, s: M.Arch, v: Csr.Volatile)
    requires s.pc % 4 == 0
    ensures A.Assemble(A.Jal, 0, 0, 0, 0).Some?
    ensures var w := A.Assemble(A.Jal, 0, 0, 0, 0).value;
      && w % 4 == 3
      && M.Execute(ids, Whole32(w), s, v) == M.Done(s.pc, true, 0, M.Following(Whole32(w), s.pc), M.NoAccess, s.csr)
  {
    hide A.Assemble, M.Execute, M.Plain, Legal, Opcode, Rd, ImmJ, M.Following;
    LoopWord();
    var w := A.Assemble(A.Jal, 0, 0, 0, 0).value;
    WordsAreFull(w);
    M.PlainExecutes(ids, Whole32(w), s, v);
    FoursAreEven(s.pc);
    LoopPlain(w, s);
  }

  lemma LoopPlain(w: Word, s: M.Arch)
    requires Opcode(w) == OP_JAL && Rd(w) == 0 && ImmJ(w) == 0 && s.pc % 2 == 0
    ensures M.Plain(Whole32(w), s) == M.Done(s.pc, true, 0, M.Following(Whole32(w), s.pc), M.NoAccess, s.csr)
  {
    hide Opcode, Rd, ImmJ, M.Following, Wrap, M.Branch, M.ExecuteLoad, M.ExecuteStore, M.ImmediateOp, M.RegisterOp,
         ImmU, ImmI, Rs1, Rs2;
    SmallWraps(s.pc);
    assert M.Plain(Whole32(w), s) == M.Jump(Whole32(w), s, Wrap(s.pc + ImmJ(w)));
  }

  lemma FoursAreEven(a: nat)
    requires a % 4 == 0
    ensures a % 2 == 0
  {
    var k := 2 * (a / 4);
    assert a == 2 * k;
    DoubleIsEven(k);
  }

  lemma DoubleIsEven(k: nat)
    ensures (2 * k) % 2 == 0
  {
  }

  /** The final jump to itself changes nothing an observer of writes and memory can see. */
  lemma LoopTracks(mem: Fetch.Imem, ids: Csr.Ids, b: Program, t: WholeTrace, v: Csr.Volatile)
    requires Tracks(b, {}, t) && mem(4 * |b.words|) == Fetch.Beat(A.Assemble(A.Jal, 0, 0, 0, 0).value, false)
    ensures Tracks(b, {}, Extended(mem, ids, t, Go(v, false)))
  {
    hide A.Assemble, M.Execute, SlotsMatch, WritesOf, Fetch.InstructionAt, Csr.Retire, M.Following, Wrap, Result, Tame;
    var s := t.final.arch;
    LoopOutcome(ids, s, v);
    var w := A.Assemble(A.Jal, 0, 0, 0, 0).value;
    FetchesWord(mem, s.pc, w);
    WritesExtend(t.shown.commits, M.Commit(s.pc, w, None, None));
    WfiDoesNothing(ids, s, v);
    TameCommit(M.Commit(s.pc, w, None, None), 4 * |b.words|);
    TameExtends(t.shown.commits, M.Commit(s.pc, w, None, None), 4 * |b.words|, 4 * |b.words|);
  }

  lemma Forget(b: Program, known: set<nat>, t: WholeTrace)
    requires Tracks(b, known, t)
    ensures Tracks(b, {}, t)
  {
    hide SlotsMatch, WritesOf, Tame;
  }

  /** The program with its completion marker but without the final jump. */
  function Marked(values: seq<Word>, draws: seq<Draw>): Program
    requires |values| == 12 && forall d <- draws :: Drawable(d)
  {
    Emit(Body(values, draws), A.Assemble(A.Addi, 30, 0, 0, 0x55A).value, 30, 0x55A)
  }

  lemma MarkedRun(mem: Fetch.Imem, ids: Csr.Ids, s: Whole, values: seq<Word>, draws: seq<Draw>, words: seq<Word>,
                  envs: seq<Env>)
    requires |values| == 12 && (forall d <- draws :: Drawable(d)) && Startable(s)
    requires Quiet(envs) && |envs| == 26 + |draws|
    requires Holding(mem, words) && Marked(values, draws).words < words
    ensures Tracks(Marked(values, draws), {}, WholeRun(M.Fixed(mem), ids, s, envs))
  {
    hide A.Assemble, Tracks, Extended, Startable, WholeRun, Known, Body, Wrap, Drawable;
    BodyLengths(values, draws);
    var e, b := |envs| - 1, Body(values, draws);
    BodyRun(mem, ids, s, values, draws, words, envs[..e]);
    OneRun(mem, ids, s, envs);
    AllKnown(0);
    AllKnown(30);
    assert mem(4 * |b.words|) == Fetch.Beat(words[|b.words|], false);
    assert ImmediateValue(A.Addi, b.registers[0], 0x55A) == 0x55A by { ZeroStays(values, draws); }
    var before := WholeRun(M.Fixed(mem), ids, s, envs[..e]);
    ImmediatesTrack(mem, ids, b, Known(12), before, envs[e].v, A.Addi, 30, 0, 0x55A, 0x55A);
    Forget(Marked(values, draws), Known(12), WholeRun(M.Fixed(mem), ids, s, envs));
  }

  lemma ZeroStays(values: seq<Word>, draws: seq<Draw>)
    requires |values| == 12 && forall d <- draws :: Drawable(d)
    ensures Body(values, draws).registers[0] == 0
  {
    hide A.Assemble, Upper, Lower, RegisterValue, ImmediateValue;
    if draws != [] { ZeroStays(values, draws[..|draws| - 1]); }
  }

  lemma {:induction false} FinishedRun(mem: Fetch.Imem, ids: Csr.Ids, s: Whole, values: seq<Word>, draws: seq<Draw>,
                                       envs: seq<Env>)
    requires |values| == 12 && (forall d <- draws :: Drawable(d)) && Startable(s)
    requires Quiet(envs) && |envs| >= 26 + |draws|
    requires Holding(mem, Generated(values, draws).words)
    ensures Tracks(Marked(values, draws), {}, WholeRun(M.Fixed(mem), ids, s, envs))
  {
    hide A.Assemble, Tracks, Extended, Startable, WholeRun, Body, Drawable, Emit;
    BodyLengths(values, draws);
    LoopWord();
    var b, words := Marked(values, draws), Generated(values, draws).words;
    assert words == b.words + [A.Assemble(A.Jal, 0, 0, 0, 0).value];
    if |envs| == 26 + |draws| {
      MarkedRun(mem, ids, s, values, draws, words, envs);
    } else {
      var e := |envs| - 1;
      FinishedRun(mem, ids, s, values, draws, envs[..e]);
      OneRun(mem, ids, s, envs);
      assert mem(4 * |b.words|) == Fetch.Beat(words[|b.words|], false);
      LoopTracks(mem, ids, b, WholeRun(M.Fixed(mem), ids, s, envs[..e]), envs[e].v);
    }
  }

  /** The generated program is its own oracle.  For every sequence of draws and every seed value:
      a machine that starts at the program, with x13 to x30 zero and the data slots zero, and whatever
      else in x1 to x12, x31, the CSRs and the rest of memory, writes exactly the predicted registers
      at the predicted addresses, takes no trap, and ends with exactly the predicted memory, however
      long it goes on. */
  lemma ProgramIsItsOracle(mem: Fetch.Imem, ids: Csr.Ids, s: Whole, values: seq<Word>, draws: seq<Draw>, envs: seq<Env>)
    requires |values| == 12 && (forall d <- draws :: Drawable(d)) && Startable(s) && Quiet(envs)
    requires |envs| >= |Generated(values, draws).words| - 1
    requires Holding(mem, Generated(values, draws).words)
    ensures var p, run := Generated(values, draws), WholeRun(M.Fixed(mem), ids, s, envs);
      && WritesOf(run.shown.commits) == p.writes
      && run.shown.traps == []
      && SlotsMatch(run.final.ram, p.memory)
  {
    hide A.Assemble, Startable, WholeRun, Body, SlotsMatch, WritesOf, Drawable;
    BodyLengths(values, draws);
    FinishedRun(mem, ids, s, values, draws, envs);
  }

  /** The program takes 27 words beside the drawn ones, so in one shared memory code and data stay
      apart exactly up to 229 draws. */
  lemma CodeAndDataApart(values: seq<Word>, draws: seq<Draw>)
    requires |values| == 12 && forall d <- draws :: Drawable(d)
    ensures |Generated(values, draws).words| == |draws| + 27
    ensures 4 * |Generated(values, draws).words| <= BASE <==> |draws| <= 229
  {
    hide A.Assemble, Body, Drawable;
    BodyLengths(values, draws);
  }
}
