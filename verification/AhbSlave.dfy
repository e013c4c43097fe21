/** The AHB-Lite memory model (ahb_memory.py) as the bridge's slave: wait states, the two-cycle ERROR
    response (section 5.1 of ARM IHI 0033A), and writes by address and size in the data phase. */
module AhbSlave {
  import opened Words
  import opened Memory
  import B = Bridge

  /** The fixed parameters: wait states, failing addresses, and which port this is. */
  datatype Setup = Setup(waitStates: nat, errors: set<Word>, instructionPort: bool)

  datatype State = State(ram: Ram, pending: Option<B.Control>, remaining: nat, announced: bool,
                         accepted: seq<B.Control>, completed: seq<B.Control>)

  function Loaded(ram: Ram): State { State(ram, None, 0, false, [], []) }

  function ReadWord(u: Setup, ram: Ram, addr: Word): Word {
    if Mapped(ram, addr) then WordAt(ram, addr) else if u.instructionPort then 0x13 else 0
  }

  /** What the slave drives from the falling edge on.  HRDATA is only meaningful at completion. */
  function Drive(u: Setup, s: State): B.Slave {
    match s.pending
    case None => B.Slave(true, false, 0)
    case Some(c) =>
      if s.remaining > 0 then B.Slave(false, false, 0)
      else if c.addr in u.errors && !s.announced then B.Slave(false, true, 0)
      else B.Slave(true, c.addr in u.errors, ReadWord(u, s.ram, c.addr))
  }

  /** A write without an error reaches memory; an unmapped one stops the original simulation. */
  function AfterWrite(u: Setup, ram: Ram, c: B.Control, wdata: Word): Ram {
    if c.write && c.addr !in u.errors && c.addr + Width(c.size) <= |ram| then
      ByAddress(ram, c.addr, wdata, Width(c.size))
    else ram
  }

  /** This cycle completes a write outside the memory. */
  predicate Unmapped(u: Setup, s: State) {
    match s.pending
    case None => false
    case Some(c) =>
      Drive(u, s).ready && c.write && c.addr !in u.errors && c.addr + Width(c.size) > |s.ram|
  }

  /** One cycle: falling edge and rising edge. */
  function Clock(u: Setup, s: State, bus: B.Bus): State {
    match s.pending
    case None =>
      if bus.trans == B.Nonseq then
        var c := B.Control(bus.addr, bus.write, bus.size);
        s.(pending := Some(c), remaining := u.waitStates, announced := false, accepted := s.accepted + [c])
      else s
    case Some(c) =>
      if s.remaining > 0 then s.(remaining := s.remaining - 1)
      else if !Drive(u, s).ready then s.(announced := true)
      else s.(ram := AfterWrite(u, s.ram, c, bus.wdata), pending := None, completed := s.completed + [c])
  }

  // ---- With the bridge ---------------------------------------------------------------------

  /** The slave waits for the transfer the bridge is in; its lists are the bus monitor's. */
  predicate Agrees(b: B.State, s: State, m: B.Monitor) {
    && s.pending == m.pending && (B.Busy(b) <==> s.pending.Some?)
    && s.accepted == m.accepted && s.completed == B.Controls(m.completed)
  }

  lemma ControlsExtend(ts: seq<B.Transfer>, t: B.Transfer)
    ensures B.Controls(ts + [t]) == B.Controls(ts) + [t.control]
  {
    assert (ts + [t])[..|ts|] == ts;
  }

  /** The model ignores HTRANS while it has a transfer pending.  Against this bridge nothing is lost: the
      address phases it accepts and the transfers it completes are those an AHB-Lite monitor sees. */
  lemma NothingIsLost(u: Setup, b: B.State, n: B.Native, s: State, m: B.Monitor)
    requires Agrees(b, s, m)
    ensures var bus, h := B.Drive(b, n), Drive(u, s);
      Agrees(B.Clock(b, n, h), Clock(u, s, bus), B.Watch(m, bus, h))
  {
    hide ReadWord, AfterWrite, B.Controls;
    var bus, h := B.Drive(b, n), Drive(u, s);
    match m.pending {
      case Some(c) => ControlsExtend(m.completed, B.Transfer(c, bus.wdata, h.rdata, h.resp));
      case None => assert m.completed + [] == m.completed && m.accepted + [] == m.accepted;
    }
  }

  // ---- Latency -----------------------------------------------------------------------------

  /** Cycles, this one included, until the request now presented is answered. */
  function Remaining(u: Setup, s: State, n: B.Native): nat {
    var extra := if n.request.addr in u.errors then 1 else 0;
    match s.pending
    case None => u.waitStates + 2 + extra
    case Some(c) => s.remaining + 1 + if s.announced then 0 else extra
  }

  /** With a request held, the answer comes after the address phase, the wait states and, for a failing
      address, the first cycle of the ERROR response; the error is reported exactly with the answer. */
  lemma AnswersInTime(u: Setup, b: B.State, n: B.Native, s: State)
    requires n.valid && (B.Busy(b) <==> s.pending.Some?)
    requires s.pending.Some? ==> s.pending.value == B.ControlOf(n.request)
    ensures var h := Drive(u, s);
      var a, left := B.Reply(b, h), Remaining(u, s, n);
      && (a.ready <==> left == 1)
      && (a.ready ==> a.error == (n.request.addr in u.errors) && a.rdata == ReadWord(u, s.ram, n.request.addr))
      && (!a.ready ==> Remaining(u, Clock(u, s, B.Drive(b, n)), n) == left - 1)
  {
    hide ReadWord, AfterWrite;
  }

  // ---- The slave as it runs ----------------------------------------------------------------

  class Slave {
    const u: Setup
    const memory: AhbMemory
    var pending: Option<B.Control>
    var remaining: nat
    var errorAnnounced: bool
    var accepted: seq<B.Control>
    var completed: seq<B.Control>

    predicate Valid() { memory.instructionPort == u.instructionPort }

    function View(): State
      reads this, memory.data
    {
      State(memory.data[..], pending, remaining, errorAnnounced, accepted, completed)
    }

    constructor (u: Setup, size: nat)
      ensures this.u == u && Valid() && fresh(memory) && fresh(memory.data) && memory.data.Length == size
      ensures pending == None && accepted == [] && completed == []
    {
      this.u := u;
      memory := new AhbMemory(size, u.instructionPort);
      pending, remaining, errorAnnounced, accepted, completed := None, 0, false, [], [];
    }

    /** One turn of the run loop: the response driven at the falling edge, and the rising edge.  Completing
        a write outside the memory raises, and the loop stops with nothing changed. */
    method Cycle(bus: B.Bus) returns (h: B.Slave, raised: bool)
      requires Valid() && (pending.Some? ==> pending.value.size <= 2)
      modifies this, memory, memory.data
      ensures h == Drive(u, old(View())) && raised == Unmapped(u, old(View()))
      ensures View() == if raised then old(View()) else Clock(u, old(View()), bus)
    {
      raised := false;
      match pending {
        case None =>
          h := B.Slave(true, false, 0);
          if bus.trans == B.Nonseq {
            var c := B.Control(bus.addr, bus.write, bus.size);
            pending, remaining, errorAnnounced, accepted := Some(c), u.waitStates, false, accepted + [c];
          }
        case Some(c) =>
          if remaining > 0 {
            h, remaining := B.Slave(false, false, 0), remaining - 1;
          } else if c.addr in u.errors && !errorAnnounced {
            h, errorAnnounced := B.Slave(false, true, 0), true;
          } else {
            var rdata := memory.ReadWord(c.addr);
            h := B.Slave(true, c.addr in u.errors, rdata);
            if c.write && c.addr !in u.errors {
              var ok := memory.Write(c.addr, c.size, bus.wdata);
              if !ok {
                raised := true;
                return;
              }
            }
            pending, completed := None, completed + [c];
          }
      }
    }
  }
}
