/** Machine-mode CSRs (csr_file.sv): trap and return updates, legalised writes, interrupt
    selection and the two counters. */
module Csr {
  import opened Words

  /** The state an instruction sequence determines.  `enables` is the mie register;
      `mie` and `mpie` are the mstatus bits. */
  datatype State = State(
    mie: bool, mpie: bool, enables: Word, mtvec: Word, mscratch: Word, mepc: Word, mcause: Word,
    mtval: Word, minstret: Dword, inhibit: Word)

  const RESET: State := State(false, false, 0, 0, 0, 0, 0, 0, 0, 0)

  datatype Pins = Pins(software: bool, timer: bool, external: bool)

  /** What a read can see that is not a function of the instruction sequence. */
  datatype Volatile = Volatile(mcycle: Dword, time: Dword, pins: Pins)

  /** Identification constants fixed at integration. */
  datatype Ids = Ids(mvendorid: Word, marchid: Word, mimpid: Word, mhartid: Word, mconfigptr: Word)

  datatype Access = Access(valid: bool, writable: bool, data: Word)

  const MISA: Word := 0x4000_1104

  function Bit(b: bool, weight: Word): Word { if b then weight else 0 }

  function Mstatus(c: State): Word { 0x1800 + Bit(c.mpie, 0x80) + Bit(c.mie, 8) }

  function Mip(p: Pins): Word { Bit(p.software, 8) + Bit(p.timer, 0x80) + Bit(p.external, 0x800) }

  function LowWord(d: Dword): Word { d % 0x1_0000_0000 }
  function HighWord(d: Dword): Word { d / 0x1_0000_0000 }

  function ReadWrite(data: Word): Access { Access(true, true, data) }
  function ReadOnly(data: Word): Access { Access(true, false, data) }

  function Read(c: State, v: Volatile, ids: Ids, addr: nat): Access {
    if addr == 0x300 then ReadWrite(Mstatus(c))
    else if addr == 0x310 then ReadWrite(0)
    else if addr == 0x301 then ReadWrite(MISA)
    else if addr == 0x304 then ReadWrite(c.enables)
    else if addr == 0x305 then ReadWrite(c.mtvec)
    else if addr == 0x320 then ReadWrite(c.inhibit)
    else if addr == 0x340 then ReadWrite(c.mscratch)
    else if addr == 0x341 then ReadWrite(c.mepc)
    else if addr == 0x342 then ReadWrite(c.mcause)
    else if addr == 0x343 then ReadWrite(c.mtval)
    else if addr == 0x344 then ReadWrite(Mip(v.pins))
    else if addr >= 0xB00 then ReadCounter(c, v, ids, addr)
    else if 0x323 <= addr <= 0x33F then ReadWrite(0)
    else Access(false, false, 0)
  }

  function ReadCounter(c: State, v: Volatile, ids: Ids, addr: nat): Access {
    if addr == 0xB00 then ReadWrite(LowWord(v.mcycle))
    else if addr == 0xB02 then ReadWrite(LowWord(c.minstret))
    else if addr == 0xB80 then ReadWrite(HighWord(v.mcycle))
    else if addr == 0xB82 then ReadWrite(HighWord(c.minstret))
    else if addr == 0xC00 then ReadOnly(LowWord(v.mcycle))
    else if addr == 0xC01 then ReadOnly(LowWord(v.time))
    else if addr == 0xC02 then ReadOnly(LowWord(c.minstret))
    else if addr == 0xC80 then ReadOnly(HighWord(v.mcycle))
    else if addr == 0xC81 then ReadOnly(HighWord(v.time))
    else if addr == 0xC82 then ReadOnly(HighWord(c.minstret))
    else if addr == 0xF11 then ReadOnly(ids.mvendorid)
    else if addr == 0xF12 then ReadOnly(ids.marchid)
    else if addr == 0xF13 then ReadOnly(ids.mimpid)
    else if addr == 0xF14 then ReadOnly(ids.mhartid)
    else if addr == 0xF15 then ReadOnly(ids.mconfigptr)
    else Access(false, false, 0)
  }

  // Interrupts: external before software before timer.

  predicate Enabled(w: Word, weight: Word) requires weight > 0 { (w / weight) % 2 == 1 }

  predicate External(c: State, p: Pins) { Enabled(c.enables, 0x800) && p.external }
  predicate Software(c: State, p: Pins) { Enabled(c.enables, 8) && p.software }
  predicate Timer(c: State, p: Pins) { Enabled(c.enables, 0x80) && p.timer }

  predicate WakePending(c: State, p: Pins) { External(c, p) || Software(c, p) || Timer(c, p) }

  predicate IrqPending(c: State, p: Pins) { c.mie && WakePending(c, p) }

  function IrqCause(c: State, p: Pins): Word {
    if !c.mie then 0
    else if External(c, p) then 0x8000_000B
    else if Software(c, p) then 0x8000_0003
    else if Timer(c, p) then 0x8000_0007
    else 0
  }

  // Updates.

  function EnterTrap(c: State, pc: Word, cause: Word, value: Word): State {
    c.(mepc := pc - pc % 2, mcause := cause, mtval := value, mpie := c.mie, mie := false)
  }

  function Return(c: State): State {
    c.(mie := c.mpie, mpie := true)
  }

  /** The legalised effect of a CSR write on every register but the counters. */
  function WriteRegister(c: State, addr: nat, w: Word): State {
    if addr == 0x300 then c.(mie := Enabled(w, 8), mpie := Enabled(w, 0x80))
    else if addr == 0x304 then
      c.(enables := Bit(Enabled(w, 8), 8) + Bit(Enabled(w, 0x80), 0x80) + Bit(Enabled(w, 0x800), 0x800))
    else if addr == 0x305 then c.(mtvec := Align(w) + if w % 4 == 1 then 1 else 0)
    else if addr == 0x320 then c.(inhibit := Bit(Enabled(w, 4), 4) + w % 2)
    else if addr == 0x340 then c.(mscratch := w)
    else if addr == 0x341 then c.(mepc := w - w % 2)
    else if addr == 0x342 then c.(mcause := w)
    else if addr == 0x343 then c.(mtval := w)
    else c
  }

  function WithLow(d: Dword, w: Word): Dword { HighWord(d) * 0x1_0000_0000 + w }
  function WithHigh(d: Dword, w: Word): Dword { w * 0x1_0000_0000 + LowWord(d) }

  function WriteInstret(c: State, addr: nat, w: Word): State {
    if addr == 0xB02 then c.(minstret := WithLow(c.minstret, w))
    else if addr == 0xB82 then c.(minstret := WithHigh(c.minstret, w))
    else c
  }

  function Write(c: State, addr: nat, w: Word): State {
    WriteRegister(WriteInstret(c, addr, w), addr, w)
  }

  /** One instruction retires. */
  function Retire(c: State): State {
    if Enabled(c.inhibit, 4) then c else c.(minstret := (c.minstret + 1) % 0x1_0000_0000_0000_0000)
  }

  /** The inputs of one cycle. */
  datatype Command = Command(write: bool, addr: nat, data: Word,
                             trap: bool, trapPc: Word, cause: Word, value: Word,
                             mret: bool, retire: bool)

  /** One clock edge: trap entry beats return beats a write; counters advance on their own. */
  function Clock(c: State, k: Command): State {
    var counted := if k.retire then Retire(c) else c;
    var written := if k.write then WriteInstret(counted, k.addr, k.data) else counted;
    if k.trap then EnterTrap(written, k.trapPc, k.cause, k.value)
    else if k.mret then Return(written)
    else if k.write then WriteRegister(written, k.addr, k.data)
    else written
  }

  function ClockCycle(mcycle: Dword, c: State, k: Command): Dword {
    var next: Dword := if c.inhibit % 2 == 1 then mcycle else (mcycle + 1) % 0x1_0000_0000_0000_0000;
    if k.write && k.addr == 0xB00 then WithLow(next, k.data)
    else if k.write && k.addr == 0xB80 then WithHigh(next, k.data)
    else next
  }

  /** Counting a retirement and changing the trap state do not interfere. */
  lemma RetireCommutes(c: State, pc: Word, cause: Word, value: Word)
    ensures Retire(EnterTrap(c, pc, cause, value)) == EnterTrap(Retire(c), pc, cause, value)
    ensures Retire(Return(c)) == Return(Retire(c))
  {
  }

  /** Nothing an interrupt or a vector depends on changes when an instruction retires. */
  lemma RetireKeeps(c: State, p: Pins)
    ensures var d := Retire(c);
      && IrqPending(d, p) == IrqPending(c, p) && IrqCause(d, p) == IrqCause(c, p)
      && WakePending(d, p) == WakePending(c, p)
      && d.mtvec == c.mtvec && d.mepc == c.mepc
  {
    hide Enabled;
  }

  // Architectural laws.

  /** A reserved vector mode is coerced to direct and the base survives; reading back any legal
      value returns it. */
  lemma MtvecWarl(c: State, w: Word)
    ensures var d := Write(c, 0x305, w);
      && d.mtvec % 4 <= 1 && Align(d.mtvec) == Align(w)
      && (w % 4 <= 1 ==> d.mtvec == w)
  {
  }

  /** Only the three machine interrupts can ever be enabled, and writing what was read changes nothing. */
  lemma EnablesWarl(c: State, w: Word)
    ensures var d := Write(c, 0x304, w);
      && Write(d, 0x304, d.enables) == d
      && Enabled(d.enables, 8) == Enabled(w, 8) && Enabled(d.enables, 0x80) == Enabled(w, 0x80)
      && Enabled(d.enables, 0x800) == Enabled(w, 0x800)
      && d.enables <= 0x888
  {
  }

  /** Taking a trap masks every interrupt, and returning restores the mask the trap saved. */
  lemma TrapThenReturn(c: State, pc: Word, cause: Word, value: Word, p: Pins)
    ensures var d := EnterTrap(c, pc, cause, value);
      && !IrqPending(d, p)
      && d.mepc % 2 == 0
      && Return(d).mie == c.mie
      && Return(d).mepc == pc - pc % 2
  {
    hide Enabled;
  }

  class File {
    var mie: bool
    var mpie: bool
    var enables: Word
    var mtvec: Word
    var mscratch: Word
    var mepc: Word
    var mcause: Word
    var mtval: Word
    var minstret: Dword
    var inhibit: Word
    var mcycle: Dword

    function View(): State
      reads this
    {
      State(mie, mpie, enables, mtvec, mscratch, mepc, mcause, mtval, minstret, inhibit)
    }

    constructor ()
      ensures View() == RESET && mcycle == 0
    {
      mie, mpie := false, false;
      enables, mtvec, mscratch, mepc, mcause, mtval, inhibit := 0, 0, 0, 0, 0, 0, 0;
      minstret, mcycle := 0, 0;
    }

    method TickWrite(addr: nat, w: Word)
      modifies this
      ensures mcycle == old(mcycle)
      ensures View() == WriteRegister(old(View()), addr, w)
    {
      hide Enabled;
      if addr == 0x300 {
        mie, mpie := Enabled(w, 8), Enabled(w, 0x80);
      } else if addr == 0x304 {
        enables := Bit(Enabled(w, 8), 8) + Bit(Enabled(w, 0x80), 0x80) + Bit(Enabled(w, 0x800), 0x800);
      } else if addr == 0x305 {
        mtvec := Align(w) + if w % 4 == 1 then 1 else 0;
      } else if addr == 0x320 {
        inhibit := Bit(Enabled(w, 4), 4) + w % 2;
      } else if addr == 0x340 {
        mscratch := w;
      } else if addr == 0x341 {
        mepc := w - w % 2;
      } else if addr == 0x342 {
        mcause := w;
      } else if addr == 0x343 {
        mtval := w;
      }
    }

    /** The trap-state process: trap entry, return and register writes. */
    method TickRegisters(k: Command)
      modifies this
      ensures mcycle == old(mcycle)
      ensures View() == (if k.trap then EnterTrap(old(View()), k.trapPc, k.cause, k.value)
                         else if k.mret then Return(old(View()))
                         else if k.write then WriteRegister(old(View()), k.addr, k.data)
                         else old(View()))
      ensures k.trap ==> mcause == k.cause && mtval == k.value && mepc == k.trapPc - k.trapPc % 2
      ensures k.trap ==> mpie == old(mie) && !mie
    {
      hide Enabled, Bit, Align, WriteRegister;
      if k.trap {
        mepc, mcause, mtval := k.trapPc - k.trapPc % 2, k.cause, k.value;
        mpie, mie := mie, false;
      } else if k.mret {
        mie, mpie := mpie, true;
      } else if k.write {
        TickWrite(k.addr, k.data);
      }
    }

    /** The counter process, which samples the inhibit bits before this edge. */
    method TickCounters(k: Command)
      modifies this
      ensures mcycle == ClockCycle(old(mcycle), old(View()), k)
      ensures var counted := if k.retire then Retire(old(View())) else old(View());
        View() == if k.write then WriteInstret(counted, k.addr, k.data) else counted
    {
      hide Enabled, WithLow, WithHigh;
      if inhibit % 2 == 0 {
        mcycle := (mcycle + 1) % 0x1_0000_0000_0000_0000;
      }
      if k.write && k.addr == 0xB00 {
        mcycle := WithLow(mcycle, k.data);
      } else if k.write && k.addr == 0xB80 {
        mcycle := WithHigh(mcycle, k.data);
      }
      if k.retire && !Enabled(inhibit, 4) {
        minstret := (minstret + 1) % 0x1_0000_0000_0000_0000;
      }
      if k.write && k.addr == 0xB02 {
        minstret := WithLow(minstret, k.data);
      } else if k.write && k.addr == 0xB82 {
        minstret := WithHigh(minstret, k.data);
      }
    }

    method Tick(k: Command)
      modifies this
      ensures View() == Clock(old(View()), k)
      ensures mcycle == ClockCycle(old(mcycle), old(View()), k)
    {
      TickCounters(k);
      TickRegisters(k);
    }
  }
}
