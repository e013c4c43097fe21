/** The CSRs as software sees them: what reads return after a trap, a return, a write and a retirement,
    which interrupt is taken and where it goes, in addresses and binary digits of the Privileged
    Architecture 20211203.  Nothing is said through the register file's own update functions. */
module Software {
  import opened Words
  import Csr
  import M = Machine

  /** What a CSR instruction reads at an address. */
  function See(c: Csr.State, v: Csr.Volatile, ids: Csr.Ids, a: nat): Word { Csr.Read(c, v, ids, a).data }

  // ---- The address map -----------------------------------------------------------------------

  /** The addresses that exist, and of these the ones that can be written. */
  lemma AddressMap(c: Csr.State, v: Csr.Volatile, ids: Csr.Ids, a: nat)
    requires a < 0x1000
    ensures var port := Csr.Read(c, v, ids, a);
      && (port.valid <==> a in {0x300, 0x301, 0x304, 0x305, 0x310, 0x320, 0x340, 0x341, 0x342, 0x343, 0x344,
                                0xB00, 0xB02, 0xB80, 0xB82, 0xC00, 0xC01, 0xC02, 0xC80, 0xC81, 0xC82,
                                0xF11, 0xF12, 0xF13, 0xF14, 0xF15} || 0x323 <= a <= 0x33F)
      && (port.writable <==> port.valid && a < 0xC00)
      && (!port.valid ==> port.data == 0)
  {
  }

  /** What never changes. */
  lemma FixedReads(c: Csr.State, v: Csr.Volatile, ids: Csr.Ids)
    ensures See(c, v, ids, 0x301) == 0x4000_1104 && See(c, v, ids, 0x310) == 0
    ensures forall a :: 0x323 <= a <= 0x33F ==> See(c, v, ids, a) == 0
    ensures See(c, v, ids, 0xF11) == ids.mvendorid && See(c, v, ids, 0xF12) == ids.marchid
    ensures See(c, v, ids, 0xF13) == ids.mimpid && See(c, v, ids, 0xF14) == ids.mhartid
    ensures See(c, v, ids, 0xF15) == ids.mconfigptr
  {
  }

  /** The pins show up in mip. */
  lemma PinsAreSeen(c: Csr.State, v: Csr.Volatile, ids: Csr.Ids)
    ensures See(c, v, ids, 0x344)
         == (if v.pins.external then 0x800 else 0) + (if v.pins.timer then 0x80 else 0)
            + if v.pins.software then 8 else 0
  {
  }

  /** Each counter in two halves, with its read-only shadow. */
  lemma CountersAreSeen(c: Csr.State, v: Csr.Volatile, ids: Csr.Ids)
    ensures See(c, v, ids, 0xB00) == See(c, v, ids, 0xC00) == v.mcycle % 0x1_0000_0000
    ensures See(c, v, ids, 0xB80) == See(c, v, ids, 0xC80) == v.mcycle / 0x1_0000_0000
    ensures See(c, v, ids, 0xC01) == v.time % 0x1_0000_0000 && See(c, v, ids, 0xC81) == v.time / 0x1_0000_0000
    ensures See(c, v, ids, 0xB02) == See(c, v, ids, 0xC02) && See(c, v, ids, 0xB82) == See(c, v, ids, 0xC82)
    ensures See(c, v, ids, 0xC82) * 0x1_0000_0000 + See(c, v, ids, 0xC02) == c.minstret
  {
  }

  /** Out of reset interrupts are off, machine mode is the previous mode, and everything else is zero. */
  lemma ResetReads(v: Csr.Volatile, ids: Csr.Ids)
    ensures See(Csr.RESET, v, ids, 0x300) == 0x1800
    ensures forall a :: a in {0x304, 0x305, 0x320, 0x340, 0x341, 0x342, 0x343, 0xB02, 0xB82} ==>
              See(Csr.RESET, v, ids, a) == 0
  {
  }

  // ---- Writes --------------------------------------------------------------------------------

  /** The part of a written word that a register keeps, and the bits that are always set. */
  function Kept(a: nat, w: Word): Word {
    if a == 0x300 then 0x1800 + 0x80 * ((w / 0x80) % 2) + 8 * ((w / 8) % 2)
    else if a == 0x304 then 0x800 * ((w / 0x800) % 2) + 0x80 * ((w / 0x80) % 2) + 8 * ((w / 8) % 2)
    else if a == 0x305 then w - w % 4 + if w % 4 == 1 then 1 else 0
    else if a == 0x320 then 4 * ((w / 4) % 2) + w % 2
    else if a == 0x341 then w - w % 2
    else w
  }

  predicate Held(a: nat) { a in {0x300, 0x304, 0x305, 0x320, 0x340, 0x341, 0x342, 0x343, 0xB02, 0xB82} }

  /** After a write, the register shows what it keeps of the word, the read-only shadow of a counter half
      shows it too, and nothing else has changed. */
  ghost predicate WroteTo(c: Csr.State, d: Csr.State, a: nat, w: Word) {
    forall v: Csr.Volatile, ids: Csr.Ids, b: nat ::
      See(d, v, ids, b)
        == if Held(a) && (b == a || (b == a + 0x100 && a >= 0xB00)) then Kept(a, w) else See(c, v, ids, b)
  }

  lemma WriteIsSeen(c: Csr.State, a: nat, w: Word)
    ensures WroteTo(c, Csr.Write(c, a, w), a, w)
  {
    hide Csr.Write, See, Kept, Held;
    forall v: Csr.Volatile, ids: Csr.Ids, b: nat
      ensures See(Csr.Write(c, a, w), v, ids, b)
           == if Held(a) && (b == a || (b == a + 0x100 && a >= 0xB00)) then Kept(a, w) else See(c, v, ids, b)
    {
      if a < 0xB00 { RegisterIsSeen(c, a, w, v, ids, b); } else { CounterIsSeen(c, a, w, v, ids, b); }
    }
  }

  lemma HalvesWritten(d: Dword, w: Word)
    ensures Csr.LowWord(Csr.WithLow(d, w)) == w && Csr.HighWord(Csr.WithLow(d, w)) == Csr.HighWord(d)
    ensures Csr.LowWord(Csr.WithHigh(d, w)) == Csr.LowWord(d) && Csr.HighWord(Csr.WithHigh(d, w)) == w
  {
  }

  lemma CounterIsSeen(c: Csr.State, a: nat, w: Word, v: Csr.Volatile, ids: Csr.Ids, b: nat)
    requires a >= 0xB00
    ensures See(Csr.Write(c, a, w), v, ids, b)
         == if Held(a) && (b == a || b == a + 0x100) then Kept(a, w) else See(c, v, ids, b)
  {
    hide Csr.LowWord, Csr.HighWord, Csr.WithLow, Csr.WithHigh, Csr.WriteRegister;
    HalvesWritten(c.minstret, w);
    CounterKeepsRest(Csr.WriteInstret(c, a, w), a, w);
  }

  lemma CounterKeepsRest(c: Csr.State, a: nat, w: Word)
    requires a >= 0xB00
    ensures Csr.WriteRegister(c, a, w) == c
  {
    hide Csr.Enabled;
  }

  lemma RegisterIsSeen(c: Csr.State, a: nat, w: Word, v: Csr.Volatile, ids: Csr.Ids, b: nat)
    requires a < 0xB00
    ensures See(Csr.Write(c, a, w), v, ids, b) == if Held(a) && b == a then Kept(a, w) else See(c, v, ids, b)
  {
    hide Csr.LowWord, Csr.HighWord, Csr.WithLow, Csr.WithHigh, Csr.Mstatus;
    StatusIsSeen(c, Csr.Write(c, a, w), a, w);
    assert Csr.WriteInstret(c, a, w) == c;
  }

  lemma StatusIsSeen(c: Csr.State, d: Csr.State, a: nat, w: Word)
    requires a < 0xB00 && d == Csr.Write(c, a, w)
    ensures Csr.Mstatus(d) == if a == 0x300 then Kept(a, w) else Csr.Mstatus(c)
  {
  }

  // ---- Traps, returns and retirements --------------------------------------------------------

  /** A trap has recorded its PC without bit 0, its cause and its value, moved MIE to MPIE and cleared it. */
  ghost predicate Trapped(c: Csr.State, d: Csr.State, pc: Word, cause: Word, value: Word) {
    forall v: Csr.Volatile, ids: Csr.Ids, a: nat ::
      See(d, v, ids, a)
        == if a == 0x341 then pc - pc % 2
           else if a == 0x342 then cause
           else if a == 0x343 then value
           else if a == 0x300 then 0x1800 + 0x80 * ((See(c, v, ids, 0x300) / 8) % 2)
           else See(c, v, ids, a)
  }

  lemma TrapIsSeen(c: Csr.State, pc: Word, cause: Word, value: Word)
    ensures Trapped(c, Csr.EnterTrap(c, pc, cause, value), pc, cause, value)
  {
  }

  /** A return has moved MPIE to MIE and set it. */
  ghost predicate Returned(c: Csr.State, d: Csr.State) {
    forall v: Csr.Volatile, ids: Csr.Ids, a: nat ::
      See(d, v, ids, a)
        == if a == 0x300 then 0x1880 + 8 * ((See(c, v, ids, 0x300) / 0x80) % 2) else See(c, v, ids, a)
  }

  lemma ReturnIsSeen(c: Csr.State)
    ensures Returned(c, Csr.Return(c))
  {
  }

  /** Both halves of the retirement counter. */
  function Instructions(c: Csr.State, v: Csr.Volatile, ids: Csr.Ids): nat {
    See(c, v, ids, 0xC82) * 0x1_0000_0000 + See(c, v, ids, 0xC02)
  }

  /** An instruction has retired: the counter is one more, modulo 2^64, unless bit 2 of mcountinhibit is
      set, and nothing else has changed. */
  ghost predicate OneMore(c: Csr.State, d: Csr.State) {
    forall v: Csr.Volatile, ids: Csr.Ids ::
      && Instructions(d, v, ids)
           == (if (See(c, v, ids, 0x320) / 4) % 2 == 1 then Instructions(c, v, ids)
               else (Instructions(c, v, ids) + 1) % 0x1_0000_0000_0000_0000)
      && forall a: nat :: a !in {0xB02, 0xB82, 0xC02, 0xC82} ==> See(d, v, ids, a) == See(c, v, ids, a)
  }

  lemma RetireIsSeen(c: Csr.State)
    ensures OneMore(c, Csr.Retire(c))
  {
    forall v: Csr.Volatile, ids: Csr.Ids
      ensures Instructions(c, v, ids) == c.minstret && Instructions(Csr.Retire(c), v, ids) == Csr.Retire(c).minstret
    {
      CountersAreSeen(c, v, ids);
      CountersAreSeen(Csr.Retire(c), v, ids);
    }
    hide Csr.LowWord, Csr.HighWord, Instructions;
  }

  // ---- Interrupts ----------------------------------------------------------------------------

  /** Some line is raised whose bit in mie is set: 11 external, 3 software, 7 timer. */
  predicate Waiting(mie: Word, p: Csr.Pins) {
    || ((mie / 0x800) % 2 == 1 && p.external)
    || ((mie / 8) % 2 == 1 && p.software)
    || ((mie / 0x80) % 2 == 1 && p.timer)
  }

  /** External before software before timer. */
  function CauseOf(mie: Word, p: Csr.Pins): Word {
    if (mie / 0x800) % 2 == 1 && p.external then 0x8000_000B
    else if (mie / 8) % 2 == 1 && p.software then 0x8000_0003
    else 0x8000_0007
  }

  /** An interrupt is pending when MIE is set and some enabled line is raised; its cause is the first's; and
      the core is woken whatever MIE is. */
  lemma InterruptIsSeen(c: Csr.State, p: Csr.Pins, v: Csr.Volatile, ids: Csr.Ids)
    ensures Csr.WakePending(c, p) <==> Waiting(See(c, v, ids, 0x304), p)
    ensures Csr.IrqPending(c, p) <==> (See(c, v, ids, 0x300) / 8) % 2 == 1 && Waiting(See(c, v, ids, 0x304), p)
    ensures Csr.IrqPending(c, p) ==> Csr.IrqCause(c, p) == CauseOf(See(c, v, ids, 0x304), p)
  {
  }

  /** Where a trap goes: to the base, or in vectored mode four bytes further for each interrupt number. */
  function Target(mtvec: Word, cause: Word): Word {
    var base := mtvec - mtvec % 4;
    if mtvec % 4 == 1 && cause >= 0x8000_0000 then (base + 4 * (cause - 0x8000_0000)) % 0x1_0000_0000 else base
  }

  lemma VectorsAreSeen(c: Csr.State, v: Csr.Volatile, ids: Csr.Ids, cause: Word)
    ensures cause < 0x8000_0000 ==> M.DirectVector(c) == Target(See(c, v, ids, 0x305), cause)
    ensures 0x8000_0000 <= cause < 0x8000_0010 ==> M.InterruptVector(c, cause) == Target(See(c, v, ids, 0x305), cause)
  {
  }
}
