/** The compressed instructions as sections 16.3 to 16.5 of the RISC-V Unprivileged ISA 20191213 define
    them, and the proof that executing a parcel's expansion is executing the parcel. */
module Compressed {
  import opened Words
  import opened Decode
  import opened Encode
  import opened Alu
  import D = Decompress
  import LoadStore
  import Fetch
  import Csr
  import M = Machine

  // ---- Fields of a parcel ------------------------------------------------------------------

  function One(p: Half, weight: nat): nat requires weight > 0 { (p / weight) % 2 }
  function Two(p: Half, weight: nat): nat requires weight > 0 { (p / weight) % 4 }
  function Three(p: Half, weight: nat): nat requires weight > 0 { (p / weight) % 8 }
  function Four(p: Half, weight: nat): nat requires weight > 0 { (p / weight) % 16 }
  function Five(p: Half, weight: nat): nat requires weight > 0 { (p / weight) % 32 }

  /** A field whose top bit, of weight `half`, is its sign. */
  function SignedField(v: nat, half: nat): int { if v < half then v else v - 2 * half }

  function RdField(p: Half): Reg { Five(p, 0x80) }
  function Rs2Field(p: Half): Reg { Five(p, 4) }
  function RdPrime(p: Half): Reg { 8 + Three(p, 4) }
  function Rs1Prime(p: Half): Reg { 8 + Three(p, 0x80) }

  /** imm[5] at bit 12, imm[4:0] at bits 6 to 2. */
  function Imm6(p: Half): int { SignedField(One(p, 0x1000) * 0x20 + Five(p, 4), 0x20) }

  /** nzuimm[5:4|9:6|2|3] at bits 12 to 5. */
  function SpAdd4(p: Half): nat { Two(p, 0x800) * 0x10 + Four(p, 0x80) * 0x40 + One(p, 0x40) * 4 + One(p, 0x20) * 8 }

  /** nzimm[9] at bit 12, nzimm[4|6|8:7|5] at bits 6 to 2. */
  function SpAdd16(p: Half): int {
    SignedField(One(p, 0x1000) * 0x200 + One(p, 0x40) * 0x10 + One(p, 0x20) * 0x40 + Two(p, 8) * 0x80
                + One(p, 4) * 0x20, 0x200)
  }

  /** uimm[5:3] at bits 12 to 10, uimm[2|6] at bits 6 and 5. */
  function WordOffset(p: Half): nat { Three(p, 0x400) * 8 + One(p, 0x40) * 4 + One(p, 0x20) * 0x40 }

  /** uimm[5] at bit 12, uimm[4:2|7:6] at bits 6 to 2. */
  function SpLoadOffset(p: Half): nat { One(p, 0x1000) * 0x20 + Three(p, 0x10) * 4 + Two(p, 4) * 0x40 }

  /** uimm[5:2|7:6] at bits 12 to 7. */
  function SpStoreOffset(p: Half): nat { Four(p, 0x200) * 4 + Two(p, 0x80) * 0x40 }

  /** imm[11|4|9:8|10|6|7|3:1|5] at bits 12 to 2. */
  function JumpOffset(p: Half): int {
    SignedField(One(p, 0x1000) * 0x800 + One(p, 0x800) * 0x10 + Two(p, 0x200) * 0x100 + One(p, 0x100) * 0x400
                + One(p, 0x80) * 0x40 + One(p, 0x40) * 0x80 + Three(p, 8) * 2 + One(p, 4) * 0x20, 0x800)
  }

  /** imm[8|4:3] at bits 12 to 10, imm[7:6|2:1|5] at bits 6 to 2. */
  function BranchOffset(p: Half): int {
    SignedField(One(p, 0x1000) * 0x100 + Two(p, 0x400) * 8 + Two(p, 0x20) * 0x40 + Two(p, 8) * 2 + One(p, 4) * 0x20,
                0x100)
  }

  // ---- What each parcel does ---------------------------------------------------------------

  function Continue(s: M.Arch): M.Outcome { M.Done(Wrap(s.pc + 2), false, 0, 0, M.NoAccess, s.csr) }

  /** Writing x0 is writing nothing. */
  function Sets(s: M.Arch, rd: Reg, v: int): M.Outcome {
    if rd == 0 then Continue(s) else M.Done(Wrap(s.pc + 2), true, rd, Wrap(v), M.NoAccess, s.csr)
  }

  function Goes(s: M.Arch, target: int, link: Reg): M.Outcome {
    var t := Wrap(target);
    if t % 2 != 0 then M.Except(0, t)
    else if link == 0 then M.Done(t, false, 0, 0, M.NoAccess, s.csr)
    else M.Done(t, true, link, Wrap(s.pc + 2), M.NoAccess, s.csr)
  }

  function Loads(s: M.Arch, rd: Reg, addr: int): M.Outcome {
    var a := Wrap(addr);
    if a % 4 != 0 then M.Except(M.LOAD_MISALIGNED, a)
    else M.Done(Wrap(s.pc + 2), true, rd, 0, M.Load(a, LoadStore.MEM_WORD), s.csr)
  }

  function Stores(s: M.Arch, addr: int, data: Word): M.Outcome {
    var a := Wrap(addr);
    if a % 4 != 0 then M.Except(M.STORE_MISALIGNED, a)
    else M.Done(Wrap(s.pc + 2), false, 0, 0, M.Store(a, LoadStore.MEM_WORD, data), s.csr)
  }

  function Reserved(p: Half): M.Outcome { M.Except(M.ILLEGAL, p) }

  function Quadrant0(p: Half, s: M.Arch): M.Outcome {
    var base := Get(s.x, Rs1Prime(p));
    var f3 := p / 0x2000;
    if f3 == 0 then
      if SpAdd4(p) == 0 then Reserved(p) else Sets(s, RdPrime(p), Get(s.x, 2) + SpAdd4(p))  // C.ADDI4SPN
    else if f3 == 2 then Loads(s, RdPrime(p), base + WordOffset(p))                         // C.LW
    else if f3 == 6 then Stores(s, base + WordOffset(p), Get(s.x, RdPrime(p)))              // C.SW
    else Reserved(p)
  }

  function Arithmetic(p: Half, s: M.Arch): M.Outcome {
    var rd, a, b := Rs1Prime(p), Get(s.x, Rs1Prime(p)), Get(s.x, RdPrime(p));
    var kind, op, wide := Two(p, 0x400), Two(p, 0x20), One(p, 0x1000) == 1;
    if kind == 2 then Sets(s, rd, And(a, Wrap(Imm6(p))))                 // C.ANDI
    else if wide then Reserved(p)
    else if kind == 0 then Sets(s, rd, ShiftRight(a, Rs2Field(p)))       // C.SRLI
    else if kind == 1 then Sets(s, rd, ShiftRightSigned(a, Rs2Field(p))) // C.SRAI
    else if op == 0 then Sets(s, rd, a - b)                              // C.SUB
    else if op == 1 then Sets(s, rd, Xor(a, b))                          // C.XOR
    else if op == 2 then Sets(s, rd, Or(a, b))                           // C.OR
    else Sets(s, rd, And(a, b))                                          // C.AND
  }

  function Quadrant1(p: Half, s: M.Arch): M.Outcome {
    var rd, f3 := RdField(p), p / 0x2000;
    var zero := Get(s.x, Rs1Prime(p)) == 0;
    if f3 == 0 then Sets(s, rd, Get(s.x, rd) + Imm6(p))                  // C.ADDI, C.NOP
    else if f3 == 1 then Goes(s, s.pc + JumpOffset(p), 1)                // C.JAL
    else if f3 == 2 then Sets(s, rd, Imm6(p))                            // C.LI
    else if f3 == 3 then
      if rd == 2 then
        if SpAdd16(p) == 0 then Reserved(p) else Sets(s, 2, Get(s.x, 2) + SpAdd16(p))  // C.ADDI16SP
      else if rd == 0 then Continue(s)                                   // a hint
      else if Imm6(p) == 0 then Reserved(p)
      else Sets(s, rd, Imm6(p) * 0x1000)                                 // C.LUI
    else if f3 == 4 then Arithmetic(p, s)
    else if f3 == 5 then Goes(s, s.pc + JumpOffset(p), 0)                // C.J
    else if zero == (f3 == 6) then Goes(s, s.pc + BranchOffset(p), 0)    // C.BEQZ, C.BNEZ
    else Continue(s)
  }

  function Quadrant2(p: Half, s: M.Arch): M.Outcome {
    var rd, rs2, f3, wide := RdField(p), Rs2Field(p), p / 0x2000, One(p, 0x1000) == 1;
    var a := Get(s.x, rd);
    if f3 == 0 then
      if wide then Reserved(p) else Sets(s, rd, ShiftLeft(a, rs2))       // C.SLLI
    else if f3 == 2 then
      if rd == 0 then Reserved(p) else Loads(s, rd, Get(s.x, 2) + SpLoadOffset(p))     // C.LWSP
    else if f3 == 4 then
      if !wide && rs2 == 0 then
        if rd == 0 then Reserved(p) else Goes(s, a - a % 2, 0)           // C.JR
      else if !wide then Sets(s, rd, Get(s.x, rs2))                      // C.MV
      else if rs2 != 0 then Sets(s, rd, a + Get(s.x, rs2))               // C.ADD
      else if rd == 0 then M.Except(M.BREAKPOINT, 0)                     // C.EBREAK
      else Goes(s, a - a % 2, 1)                                         // C.JALR
    else if f3 == 6 then Stores(s, Get(s.x, 2) + SpStoreOffset(p), Get(s.x, rs2))      // C.SWSP
    else Reserved(p)
  }

  /** The outcome of a 16-bit parcel. */
  function Meaning(p: Half, s: M.Arch): M.Outcome
    requires p % 4 != 3
  {
    if p % 4 == 0 then Quadrant0(p, s) else if p % 4 == 1 then Quadrant1(p, s) else Quadrant2(p, s)
  }

  // ---- Executing an expansion --------------------------------------------------------------

  /** An outcome up to writes to x0. */
  function Effect(o: M.Outcome): M.Outcome {
    match o
    case Done(next, writes, rd, value, access, csr) =>
      if writes && rd == 0 && access == M.NoAccess then M.Done(next, false, 0, 0, access, csr) else o
    case Except(_, _) => o
  }

  /** The parcel as fetched: its expansion if it is legal, and itself zero-extended if not. */
  function Fetched(p: Half, w: Word): Fetch.Fetched { Fetch.Fetched(false, w, p, true) }

  function Executed(p: Half, w: Word, s: M.Arch, v: Csr.Volatile, ids: Csr.Ids): M.Outcome {
    Effect(M.Execute(ids, Fetched(p, w), s, v))
  }

  lemma Dispatches(p: Half, w: Word, s: M.Arch, v: Csr.Volatile, ids: Csr.Ids)
    requires Legal(w) && Opcode(w) in {OP_LUI, OP_JAL, OP_JALR, OP_BRANCH, OP_LOAD, OP_STORE, OP_IMM, OP_REG}
    ensures Executed(p, w, s, v, ids) == Effect(M.Plain(Fetched(p, w), s))
  {
    hide Legal, Opcode, Effect, M.Execute, M.Plain;
    M.PlainExecutes(ids, Fetched(p, w), s, v);
  }

  lemma WrapAdds(x: int, y: int)
    ensures Wrap(x + Wrap(y)) == Wrap(x + y)
  {
  }

  lemma LegalByFields(w: Word)
    requires Opcode(w) == OP_LUI || Opcode(w) == OP_JAL || (Opcode(w) == OP_JALR && Funct3(w) == 0)
          || (Opcode(w) == OP_BRANCH && Funct3(w) <= 1) || (Opcode(w) == OP_LOAD && Funct3(w) == 2)
          || (Opcode(w) == OP_STORE && Funct3(w) == 2)
          || (Opcode(w) == OP_IMM && (Funct3(w) in {0, 7} || (Funct3(w) in {1, 5} && Funct7(w) == 0)
                                      || (Funct3(w) == 5 && Funct7(w) == 0x20)))
          || (Opcode(w) == OP_REG && (Funct7(w) == 0 || (Funct7(w) == 0x20 && Funct3(w) == 0)))
    ensures Legal(w)
  {
    hide Opcode, Funct3, Funct7;
  }

  /** The I-format arithmetic instructions the expansions use. */
  lemma ImmediateDoes(p: Half, w: Word, s: M.Arch, v: Csr.Volatile, ids: Csr.Ids)
    requires Opcode(w) == OP_IMM && Legal(w)
    ensures Executed(p, w, s, v, ids) == Sets(s, Rd(w), M.ImmediateOp(w, Get(s.x, Rs1(w))))
  {
    hide Opcode, Legal, Rd, Rs1, M.ImmediateOp, Executed, M.Jump, M.Branch, M.ExecuteLoad, M.ExecuteStore,
         M.RegisterOp;
    Dispatches(p, w, s, v, ids);
  }

  lemma AddiDoes(p: Half, imm: Imm12, rs1: Reg, rd: Reg, value: int, s: M.Arch, v: Csr.Volatile, ids: Csr.Ids)
    requires SignExtend(imm, 0x800) == Wrap(value)
    ensures var w := EncI(imm, rs1, 0, rd, OP_IMM);
      Legal(w) && Executed(p, w, s, v, ids) == Sets(s, rd, Get(s.x, rs1) + value)
  {
    hide EncI, Opcode, Funct3, Funct7, Rd, Rs1, ImmI, SignExtend, Wrap, Executed, Legal;
    var w := EncI(imm, rs1, 0, rd, OP_IMM);
    FieldsI(imm, rs1, 0, rd, OP_IMM);
    LegalByFields(w);
    WrapAdds(Get(s.x, rs1), value);
    WrapAdds(0, Get(s.x, rs1) + value);
    ImmediateDoes(p, w, s, v, ids);
  }

  lemma AndiDoes(p: Half, imm: Imm12, r: Reg, value: int, s: M.Arch, v: Csr.Volatile, ids: Csr.Ids)
    requires SignExtend(imm, 0x800) == Wrap(value)
    ensures var w := EncI(imm, r, 7, r, OP_IMM);
      Legal(w) && Executed(p, w, s, v, ids) == Sets(s, r, And(Get(s.x, r), Wrap(value)))
  {
    hide EncI, Opcode, Funct3, Funct7, Rd, Rs1, ImmI, SignExtend, Executed, And, Legal, Sets, Wrap;
    var w := EncI(imm, r, 7, r, OP_IMM);
    FieldsI(imm, r, 7, r, OP_IMM);
    LegalByFields(w);
    ImmediateDoes(p, w, s, v, ids);
  }

  lemma ShiftField(f7: Field7, n: Reg)
    requires f7 == 0 || f7 == 0x20
    ensures SignExtend(f7 * 0x20 + n, 0x800) % 32 == n && (f7 * 0x20 + n) / 0x20 == f7
  {
  }

  lemma ShiftsDo(p: Half, f3: Field3, f7: Field7, n: Reg, r: Reg, s: M.Arch, v: Csr.Volatile, ids: Csr.Ids)
    requires (f3 == 1 && f7 == 0) || (f3 == 5 && (f7 == 0 || f7 == 0x20))
    ensures var w := EncI(f7 * 0x20 + n, r, f3, r, OP_IMM);
      var a := Get(s.x, r);
      && Legal(w)
      && Executed(p, w, s, v, ids)
         == Sets(s, r, if f3 == 1 then ShiftLeft(a, n)
                       else if f7 == 0 then ShiftRight(a, n)
                       else ShiftRightSigned(a, n))
  {
    hide EncI, Opcode, Funct3, Funct7, Rd, Rs1, ImmI, SignExtend, Executed, ShiftLeft, ShiftRight, ShiftRightSigned,
         Legal, Sets;
    var w := EncI(f7 * 0x20 + n, r, f3, r, OP_IMM);
    ShiftField(f7, n);
    FieldsI(f7 * 0x20 + n, r, f3, r, OP_IMM);
    LegalByFields(w);
    ImmediateDoes(p, w, s, v, ids);
  }

  lemma RegisterDoes(p: Half, w: Word, s: M.Arch, v: Csr.Volatile, ids: Csr.Ids)
    requires Opcode(w) == OP_REG && Legal(w)
    ensures Executed(p, w, s, v, ids) == Sets(s, Rd(w), M.RegisterOp(w, Get(s.x, Rs1(w)), Get(s.x, Rs2(w))))
  {
    hide Opcode, Legal, Rd, Rs1, Rs2, M.ImmediateOp, Executed, M.Jump, M.Branch, M.ExecuteLoad, M.ExecuteStore,
         M.RegisterOp;
    Dispatches(p, w, s, v, ids);
  }

  lemma SetsWrapped(s: M.Arch, rd: Reg, x: int)
    ensures Sets(s, rd, Wrap(x)) == Sets(s, rd, x)
  {
  }

  lemma RegistersDo(p: Half, f3: Field3, f7: Field7, rs2: Reg, rs1: Reg, rd: Reg, s: M.Arch, v: Csr.Volatile,
                    ids: Csr.Ids)
    requires f7 == 0 || (f7 == 0x20 && f3 == 0)
    requires f3 in {0, 4, 6, 7}
    ensures var w := EncR(f7, rs2, rs1, f3, rd, OP_REG);
      var a, b := Get(s.x, rs1), Get(s.x, rs2);
      && Legal(w)
      && Executed(p, w, s, v, ids)
         == Sets(s, rd, if f3 == 4 then Xor(a, b) else if f3 == 6 then Or(a, b) else if f3 == 7 then And(a, b)
                        else if f7 == 0 then a + b else a - b)
  {
    hide EncR, Opcode, Funct3, Funct7, Rd, Rs1, Rs2, Executed, And, Or, Xor, Legal, Sets, Wrap;
    var w := EncR(f7, rs2, rs1, f3, rd, OP_REG);
    FieldsR(f7, rs2, rs1, f3, rd, OP_REG);
    LegalByFields(w);
    SetsWrapped(s, rd, Get(s.x, rs1) + Get(s.x, rs2));
    SetsWrapped(s, rd, Get(s.x, rs1) - Get(s.x, rs2));
    RegisterDoes(p, w, s, v, ids);
  }

  lemma LuiDoes(p: Half, upper: Imm20, rd: Reg, value: int, s: M.Arch, v: Csr.Volatile, ids: Csr.Ids)
    requires upper * 0x1000 == Wrap(value * 0x1000)
    ensures var w := EncU(upper, rd, OP_LUI);
      Legal(w) && Executed(p, w, s, v, ids) == Sets(s, rd, value * 0x1000)
  {
    hide EncU, Opcode, Rd, ImmU, Executed, Wrap, Legal;
    var w := EncU(upper, rd, OP_LUI);
    FieldsU(upper, rd, OP_LUI);
    LegalByFields(w);
    Dispatches(p, w, s, v, ids);
  }

  lemma LoadDoes(p: Half, imm: Imm12, rs1: Reg, rd: Reg, s: M.Arch, v: Csr.Volatile, ids: Csr.Ids)
    requires imm < 0x800
    ensures var w := EncI(imm, rs1, 2, rd, OP_LOAD);
      Legal(w) && Executed(p, w, s, v, ids) == Loads(s, rd, Get(s.x, rs1) + imm)
  {
    hide EncI, Opcode, Funct3, Funct7, Rd, Rs1, ImmI, Executed, Wrap, Legal;
    var w := EncI(imm, rs1, 2, rd, OP_LOAD);
    FieldsI(imm, rs1, 2, rd, OP_LOAD);
    LegalByFields(w);
    Dispatches(p, w, s, v, ids);
  }

  lemma StoreDoes(p: Half, imm: Imm12, rs2: Reg, rs1: Reg, s: M.Arch, v: Csr.Volatile, ids: Csr.Ids)
    requires imm < 0x800
    ensures var w := EncS(imm, rs2, rs1, 2, OP_STORE);
      Legal(w) && Executed(p, w, s, v, ids) == Stores(s, Get(s.x, rs1) + imm, Get(s.x, rs2))
  {
    hide EncS, Opcode, Funct3, Funct7, Rs1, Rs2, ImmS, Executed, Wrap, Legal;
    var w := EncS(imm, rs2, rs1, 2, OP_STORE);
    FieldsS(imm, rs2, rs1, 2, OP_STORE);
    LegalByFields(w);
    Dispatches(p, w, s, v, ids);
  }

  lemma JumpGoes(p: Half, w: Word, s: M.Arch, target: Word)
    ensures Effect(M.Jump(Fetched(p, w), s, target)) == Goes(s, target, Rd(w))
  {
    hide Rd;
  }

  lemma GoesWrapped(s: M.Arch, x: int, rd: Reg)
    ensures Goes(s, Wrap(x), rd) == Goes(s, x, rd)
  {
  }

  lemma JalDoes(p: Half, offset: Imm21, rd: Reg, value: int, s: M.Arch, v: Csr.Volatile, ids: Csr.Ids)
    requires offset % 2 == 0 && SignExtend(offset, 0x10_0000) == Wrap(value)
    ensures var w := EncJ(offset, rd, OP_JAL);
      Legal(w) && Executed(p, w, s, v, ids) == Goes(s, s.pc + value, rd)
  {
    hide EncJ, Opcode, Rd, ImmJ, Executed, Wrap, SignExtend, Legal, Goes, Effect, M.Jump;
    var w := EncJ(offset, rd, OP_JAL);
    FieldsJ(offset, rd, OP_JAL);
    LegalByFields(w);
    WrapAdds(s.pc, value);
    GoesWrapped(s, s.pc + value, rd);
    JumpGoes(p, w, s, Wrap(s.pc + ImmJ(w)));
    Dispatches(p, w, s, v, ids);
  }

  lemma JalrDoes(p: Half, rs1: Reg, rd: Reg, s: M.Arch, v: Csr.Volatile, ids: Csr.Ids)
    ensures var w := EncI(0, rs1, 0, rd, OP_JALR);
      var a := Get(s.x, rs1);
      Legal(w) && Executed(p, w, s, v, ids) == Goes(s, a - a % 2, rd)
  {
    hide EncI, Opcode, Rd, Funct3, Rs1, ImmI, Executed, Legal, Goes, Effect, M.Jump, Funct7;
    var w := EncI(0, rs1, 0, rd, OP_JALR);
    FieldsI(0, rs1, 0, rd, OP_JALR);
    LegalByFields(w);
    var a := Get(s.x, rs1);
    JumpGoes(p, w, s, a - a % 2);
    Dispatches(p, w, s, v, ids);
  }

  lemma BranchDoes(p: Half, offset: Imm13, rs1: Reg, f3: Field3, value: int, s: M.Arch, v: Csr.Volatile, ids: Csr.Ids)
    requires offset % 2 == 0 && SignExtend(offset, 0x1000) == Wrap(value) && f3 <= 1
    ensures var w := EncB(offset, 0, rs1, f3, OP_BRANCH);
      && Legal(w)
      && Executed(p, w, s, v, ids) == if (Get(s.x, rs1) == 0) == (f3 == 0) then Goes(s, s.pc + value,
              0) else Continue(s)
  {
    hide EncB, Opcode, Funct3, Rs1, Rs2, ImmB, Executed, Wrap, SignExtend, Legal;
    var w := EncB(offset, 0, rs1, f3, OP_BRANCH);
    FieldsB(offset, 0, rs1, f3, OP_BRANCH);
    LegalByFields(w);
    WrapAdds(s.pc, value);
    Dispatches(p, w, s, v, ids);
  }

  // ---- The scattered immediates ------------------------------------------------------------

  lemma ImmediatesAgree(p: Half)
    ensures D.Addi4spnImm(p) == SpAdd4(p) && D.LwImm(p) == WordOffset(p)
    ensures D.LwspImm(p) == SpLoadOffset(p) && D.SwspImm(p) == SpStoreOffset(p)
    ensures SpAdd4(p) < 0x400 && WordOffset(p) < 0x80 && SpLoadOffset(p) < 0x100 && SpStoreOffset(p) < 0x100
  {
  }

  lemma SixAgrees(p: Half)
    ensures SignExtend(D.Imm6As12(p), 0x800) == Wrap(Imm6(p))
    ensures D.Imm6As20(p) * 0x1000 == Wrap(Imm6(p) * 0x1000)
    ensures D.Imm6(p) == 0 <==> Imm6(p) == 0
  {
    assert D.Imm6(p) == One(p, 0x1000) * 0x20 + Five(p, 4);
    hide D.Imm6, One, Five;
  }

  lemma Sp16Agrees(p: Half)
    ensures SignExtend(D.Addi16spImm(p), 0x800) == Wrap(SpAdd16(p))
    ensures D.Addi16spImm(p) == 0 <==> SpAdd16(p) == 0
  {
    var v := One(p, 0x1000) * 0x200 + Two(p, 8) * 0x80 + One(p, 0x20) * 0x40 + One(p, 4) * 0x20 + One(p, 0x40) * 0x10;
    assert v < 0x400;
    assert D.Addi16spImm(p) == if v < 0x200 then v else v + 0xC00;
    hide D.Addi16spImm, One, Two;
  }

  /** Sign-extending a field to a wider field first changes nothing. */
  lemma Widened(v: nat, half: nat, wide: nat)
    requires 0 < half < wide <= 0x8000_0000 && v < 2 * half
    ensures SignExtend(if v < half then v else v + 2 * (wide - half), wide) == Wrap(SignedField(v, half))
  {
  }

  lemma JumpSum(a: nat, b: nat, c: nat, d: nat, e: nat, f: nat, g: nat, h: nat)
    requires a < 2 && b < 2 && c < 4 && d < 2 && e < 2 && f < 2 && g < 8 && h < 2
    ensures var v := a * 0x800 + b * 0x10 + c * 0x100 + d * 0x400 + e * 0x40 + f * 0x80 + g * 2 + h * 0x20;
      v < 0x1000 && v % 2 == 0
  {
  }

  lemma FieldBounds(p: Half, weight: nat)
    requires weight > 0
    ensures One(p, weight) < 2 && Two(p, weight) < 4 && Three(p, weight) < 8
  {
  }

  lemma JumpBits(p: Half, v: nat)
    requires v == One(p, 0x1000) * 0x800 + One(p, 0x800) * 0x10 + Two(p, 0x200) * 0x100 + One(p, 0x100) * 0x400
                  + One(p, 0x80) * 0x40 + One(p, 0x40) * 0x80 + Three(p, 8) * 2 + One(p, 4) * 0x20
    ensures v < 0x1000 && v % 2 == 0
    ensures D.JumpImm(p) == (if v < 0x800 then v else v + 0x1F_F000) && D.JumpImm(p) % 2 == 0
  {
    hide One, Two, Three, D.JumpImm, D.Bit12;
    FieldBounds(p, 0x1000);
    FieldBounds(p, 0x800);
    FieldBounds(p, 0x200);
    FieldBounds(p, 0x100);
    FieldBounds(p, 0x80);
    FieldBounds(p, 0x40);
    FieldBounds(p, 8);
    FieldBounds(p, 4);
    JumpSum(One(p, 0x1000), One(p, 0x800), Two(p, 0x200), One(p, 0x100), One(p, 0x80), One(p, 0x40), Three(p, 8),
            One(p, 4));
    JumpFields(p);
  }

  lemma JumpFields(p: Half)
    ensures var v := One(p, 0x1000) * 0x800 + One(p, 0x800) * 0x10 + Two(p, 0x200) * 0x100 + One(p, 0x100) * 0x400
                     + One(p, 0x80) * 0x40 + One(p, 0x40) * 0x80 + Three(p, 8) * 2 + One(p, 4) * 0x20;
      D.JumpImm(p) == if v < 0x800 then v else v + 0x1F_F000
  {
  }

  lemma BranchBits(p: Half, v: nat)
    requires v == One(p, 0x1000) * 0x100 + Two(p, 0x400) * 8 + Two(p, 0x20) * 0x40 + Two(p, 8) * 2 + One(p, 4) * 0x20
    ensures v < 0x200 && v % 2 == 0
    ensures D.BranchImm(p) == (if v < 0x100 then v else v + 0x1E00) && D.BranchImm(p) % 2 == 0
  {
  }

  lemma JumpAgrees(p: Half)
    ensures SignExtend(D.JumpImm(p), 0x10_0000) == Wrap(JumpOffset(p)) && D.JumpImm(p) % 2 == 0
  {
    hide D.JumpImm, One, Two, Three, SignExtend, Wrap, SignedField;
    var v := One(p, 0x1000) * 0x800 + One(p, 0x800) * 0x10 + Two(p, 0x200) * 0x100 + One(p, 0x100) * 0x400
             + One(p, 0x80) * 0x40 + One(p, 0x40) * 0x80 + Three(p, 8) * 2 + One(p, 4) * 0x20;
    JumpBits(p, v);
    Widened(v, 0x800, 0x10_0000);
  }

  lemma BranchAgrees(p: Half)
    ensures SignExtend(D.BranchImm(p), 0x1000) == Wrap(BranchOffset(p)) && D.BranchImm(p) % 2 == 0
  {
    hide D.BranchImm, One, Two, SignExtend, Wrap, SignedField;
    var v := One(p, 0x1000) * 0x100 + Two(p, 0x400) * 8 + Two(p, 0x20) * 0x40 + Two(p, 8) * 2 + One(p, 4) * 0x20;
    BranchBits(p, v);
    Widened(v, 0x100, 0x1000);
  }

  /** Register and selector fields are the same bits on both sides. */
  lemma FieldsAgree(p: Half)
    ensures D.CRd(p) == RdField(p) && D.CRs2(p) == Rs2Field(p) && D.CRdPrime(p) == RdPrime(p)
    ensures D.CRs1Prime(p) == Rs1Prime(p)
    ensures D.CFunct3(p) == p / 0x2000 && D.Bit12(p) == One(p, 0x1000) && D.Quadrant(p) == p % 4
  {
  }

  // ---- Parcel by parcel --------------------------------------------------------------------

  /** An illegal parcel, passed on zero-extended, is refused with itself as the trap value. */
  lemma RefusedParcel(p: Half, s: M.Arch, v: Csr.Volatile, ids: Csr.Ids)
    requires p % 4 != 3
    ensures !Legal(p) && Executed(p, p, s, v, ids) == Reserved(p)
  {
    assert Opcode(p) % 4 == p % 4;
    assert !Legal(p) by { hide Opcode, Funct3, Funct7; }
    hide Legal, Opcode;
  }

  lemma Quadrant0Agrees(p: Half, s: M.Arch, v: Csr.Volatile, ids: Csr.Ids)
    requires p % 4 == 0
    ensures Executed(p, Fetch.Canonical(p), s, v, ids) == Quadrant0(p, s)
  {
    hide Executed, EncI, EncS, D.Addi4spnImm, D.LwImm, SpAdd4, WordOffset, RdPrime, Rs1Prime, D.CRdPrime, D.CRs1Prime,
         Loads, Stores, Sets, Wrap, D.Expand1, D.Expand2, D.CFunct3, D.Quadrant, Legal, D.CRd, D.CRs2, RdField,
         Rs2Field, D.Bit12, One, D.LwspImm, D.SwspImm, SpLoadOffset, SpStoreOffset, Opcode, SignExtend;
    FieldsAgree(p);
    ImmediatesAgree(p);
    RefusedParcel(p, s, v, ids);
    var f3 := p / 0x2000;
    if f3 == 0 {
      Unsigned12(SpAdd4(p));
      AddiDoes(p, D.Addi4spnImm(p), 2, D.CRdPrime(p), SpAdd4(p), s, v, ids);
    } else if f3 == 2 {
      LoadDoes(p, D.LwImm(p), D.CRs1Prime(p), D.CRdPrime(p), s, v, ids);
    } else if f3 == 6 {
      StoreDoes(p, D.LwImm(p), D.CRdPrime(p), D.CRs1Prime(p), s, v, ids);
    }
  }

  lemma Unsigned12(x: nat)
    requires x < 0x800
    ensures SignExtend(x, 0x800) == Wrap(x)
  {
  }

  lemma BitIsBit(p: Half)
    ensures One(p, 0x1000) <= 1
  {
  }

  lemma ArithmeticAgrees(p: Half, s: M.Arch, v: Csr.Volatile, ids: Csr.Ids)
    requires p % 4 != 3
    ensures Executed(p, match D.Arithmetic(p) case Some(w) => w case None => p, s, v, ids) == Arithmetic(p, s)
  {
    hide Executed, EncI, EncR, RdPrime, Rs1Prime, Rs2Field, D.CRdPrime, D.CRs1Prime, D.CRs2, Sets, Wrap, D.Bit12,
         Imm6, D.Imm6As12, And, Or, Xor, ShiftRight, ShiftRightSigned, Legal, SignExtend, One, D.CRd, RdField,
         D.CFunct3, D.Quadrant, D.Imm6, D.Imm6As20, Opcode;
    FieldsAgree(p);
    RefusedParcel(p, s, v, ids);
    BitIsBit(p);
    var r, rs2, n := D.CRs1Prime(p), D.CRdPrime(p), D.CRs2(p);
    var kind, op := (p / 0x400) % 4, (p / 0x20) % 4;
    if kind == 2 {
      SixAgrees(p);
      AndiDoes(p, D.Imm6As12(p), r, Imm6(p), s, v, ids);
    } else if kind == 0 {
      ShiftsDo(p, 5, 0, n, r, s, v, ids);
    } else if kind == 1 {
      ShiftsDo(p, 5, 0x20, n, r, s, v, ids);
    } else if op == 0 {
      RegistersDo(p, 0, 0x20, rs2, r, r, s, v, ids);
    } else {
      RegistersDo(p, if op == 1 then 4 else if op == 2 then 6 else 7, 0, rs2, r, r, s, v, ids);
    }
  }

  lemma Quadrant1Agrees(p: Half, s: M.Arch, v: Csr.Volatile, ids: Csr.Ids)
    requires p % 4 == 1
    ensures Executed(p, Fetch.Canonical(p), s, v, ids) == Quadrant1(p, s)
  {
    hide Executed, EncI, EncU, EncJ, EncB, RdField, Rs1Prime, D.CRd, D.CRs1Prime, Sets, Goes, Continue, Wrap, Imm6,
         D.Imm6, D.Imm6As12, D.Imm6As20, JumpOffset, BranchOffset, SpAdd16, D.JumpImm, D.BranchImm, D.Addi16spImm,
         D.Arithmetic, Arithmetic, D.Expand0, D.Expand2, D.CFunct3, D.Quadrant, Legal, SignExtend, RdPrime, Rs2Field,
         D.CRdPrime, D.CRs2, D.Bit12, One, Opcode;
    FieldsAgree(p);
    var f3, rd := p / 0x2000, D.CRd(p);
    if f3 == 0 {
      SixAgrees(p);
      AddiDoes(p, D.Imm6As12(p), rd, rd, Imm6(p), s, v, ids);
    } else if f3 == 2 {
      SixAgrees(p);
      AddiDoes(p, D.Imm6As12(p), 0, rd, Imm6(p), s, v, ids);
    } else if f3 == 1 || f3 == 5 {
      JumpAgrees(p);
      JalDoes(p, D.JumpImm(p), if f3 == 1 then 1 else 0, JumpOffset(p), s, v, ids);
    } else if f3 == 3 {
      UpperAgrees(p, s, v, ids);
    } else if f3 == 4 {
      ArithmeticAgrees(p, s, v, ids);
    } else {
      BranchAgrees(p);
      BranchDoes(p, D.BranchImm(p), D.CRs1Prime(p), if f3 == 7 then 1 else 0, BranchOffset(p), s, v, ids);
    }
  }

  /** C.ADDI16SP, C.LUI and the hint between them. */
  lemma UpperAgrees(p: Half, s: M.Arch, v: Csr.Volatile, ids: Csr.Ids)
    requires p % 4 == 1 && p / 0x2000 == 3
    ensures Executed(p, Fetch.Canonical(p), s, v, ids) == Quadrant1(p, s)
  {
    hide Executed, EncI, EncU, RdField, D.CRd, Sets, Continue, Wrap, Imm6, D.Imm6, D.Imm6As12, D.Imm6As20, SpAdd16,
         D.Addi16spImm, D.Expand0, D.Expand2, D.CFunct3, D.Quadrant, Legal, SignExtend, RdPrime, Rs1Prime, Rs2Field,
         D.CRdPrime, D.CRs1Prime, D.CRs2, D.Bit12, One, Opcode;
    FieldsAgree(p);
    SixAgrees(p);
    Sp16Agrees(p);
    RefusedParcel(p, s, v, ids);
    NopDoes(p, s, v, ids);
    AddiDoes(p, D.Addi16spImm(p), 2, 2, SpAdd16(p), s, v, ids);
    LuiDoes(p, D.Imm6As20(p), D.CRd(p), Imm6(p), s, v, ids);
  }

  lemma NopDoes(p: Half, s: M.Arch, v: Csr.Volatile, ids: Csr.Ids)
    ensures Executed(p, NOP, s, v, ids) == Continue(s)
  {
    assert EncI(0, 0, 0, 0, OP_IMM) == NOP;
    hide Executed, EncI;
    AddiDoes(p, 0, 0, 0, 0, s, v, ids);
  }

  lemma EbreakDoes(p: Half, s: M.Arch, v: Csr.Volatile, ids: Csr.Ids)
    ensures Executed(p, EBREAK, s, v, ids) == M.Except(M.BREAKPOINT, 0)
  {
    assert Opcode(EBREAK) == OP_SYSTEM && Funct3(EBREAK) == 0;
    hide Opcode, Funct3, Funct7;
  }

  lemma JumpsAndMoves(p: Half, s: M.Arch, v: Csr.Volatile, ids: Csr.Ids)
    requires p % 4 == 2 && p / 0x2000 == 4
    ensures Executed(p, Fetch.Canonical(p), s, v, ids) == Quadrant2(p, s)
  {
    hide Executed, EncI, EncR, RdField, Rs2Field, D.CRd, D.CRs2, Sets, Goes, Wrap, D.Expand0, D.Expand1, D.CFunct3,
         D.Quadrant, D.Bit12, Legal, One, RdPrime, Rs1Prime, D.CRdPrime, D.CRs1Prime, Opcode;
    FieldsAgree(p);
    BitIsBit(p);
    var rd, rs2, wide := D.CRd(p), D.CRs2(p), D.Bit12(p) == 1;
    if rs2 == 0 {
      if rd == 0 {
        RefusedParcel(p, s, v, ids);
        EbreakDoes(p, s, v, ids);
      } else {
        JalrDoes(p, rd, if wide then 1 else 0, s, v, ids);
      }
    } else if wide {
      RegistersDo(p, 0, 0, rs2, rd, rd, s, v, ids);
    } else {
      MoveSets(s, rd, rs2);
      RegistersDo(p, 0, 0, rs2, 0, rd, s, v, ids);
    }
  }

  lemma MoveSets(s: M.Arch, rd: Reg, rs2: Reg)
    ensures Get(s.x, 0) + Get(s.x, rs2) == Get(s.x, rs2)
  {
  }

  lemma StackAgrees(p: Half, s: M.Arch, v: Csr.Volatile, ids: Csr.Ids)
    requires p % 4 == 2 && p / 0x2000 != 4
    ensures Executed(p, Fetch.Canonical(p), s, v, ids) == Quadrant2(p, s)
  {
    hide Executed, EncI, EncS, RdField, Rs2Field, D.CRd, D.CRs2, Sets, Loads, Stores, Wrap, D.LwspImm, D.SwspImm,
         SpLoadOffset, SpStoreOffset, ShiftLeft, D.Expand0, D.Expand1, D.CFunct3, D.Quadrant, D.Bit12, Legal, One,
         RdPrime, Rs1Prime, D.CRdPrime, D.CRs1Prime, SpAdd4, WordOffset, D.Addi4spnImm, D.LwImm, Opcode;
    FieldsAgree(p);
    BitIsBit(p);
    ImmediatesAgree(p);
    RefusedParcel(p, s, v, ids);
    var f3, rd, rs2 := p / 0x2000, D.CRd(p), D.CRs2(p);
    if f3 == 0 {
      ShiftsDo(p, 1, 0, rs2, rd, s, v, ids);
    } else if f3 == 2 {
      LoadDoes(p, D.LwspImm(p), 2, rd, s, v, ids);
    } else if f3 == 6 {
      StoreDoes(p, D.SwspImm(p), rs2, 2, s, v, ids);
    }
  }

  lemma Quadrant2Agrees(p: Half, s: M.Arch, v: Csr.Volatile, ids: Csr.Ids)
    requires p % 4 == 2
    ensures Executed(p, Fetch.Canonical(p), s, v, ids) == Quadrant2(p, s)
  {
    hide Executed, Fetch.Canonical, Quadrant2;
    if p / 0x2000 == 4 { JumpsAndMoves(p, s, v, ids); } else { StackAgrees(p, s, v, ids); }
  }

  /** For every parcel that is not a full-size instruction's half, and every state: executing what
      fetch passes on for it, the expansion of a legal parcel or an illegal one zero-extended, is
      executing the compressed instruction. */
  lemma ExpansionMeansParcel(p: Half, s: M.Arch, v: Csr.Volatile, ids: Csr.Ids)
    requires p % 4 != 3
    ensures Effect(M.Execute(ids, Fetch.Fetched(false, Fetch.Canonical(p), p, true), s, v)) == Meaning(p, s)
  {
    hide M.Execute, Fetch.Canonical, Quadrant0, Quadrant1, Quadrant2, Effect;
    if p % 4 == 0 { Quadrant0Agrees(p, s, v, ids); }
    else if p % 4 == 1 { Quadrant1Agrees(p, s, v, ids); }
    else { Quadrant2Agrees(p, s, v, ids); }
  }
}
