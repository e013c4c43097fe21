/** The native-to-AHB-Lite bridge (native_to_ahb_lite.sv), watched by a bus monitor that knows only
    AMBA 3 AHB-Lite (ARM IHI 0033A, sections 3.1 and 3.2). */
module Bridge {
  import opened Words

  datatype Phase = AddressPhase | DataPhase

  datatype State = State(phase: Phase, addr: Word, wdata: Word)

  const RESET: State := State(AddressPhase, 0, 0)

  datatype Request = Request(write: bool, addr: Word, wdata: Word, size: nat)

  /** The native side: a request, valid or not. */
  datatype Native = Native(valid: bool, request: Request)

  /** HREADY, HRESP and HRDATA. */
  datatype Slave = Slave(ready: bool, resp: bool, rdata: Word)

  datatype Trans = Idle | Nonseq

  /** HTRANS, HADDR, HWRITE, HSIZE and HWDATA. */
  datatype Bus = Bus(trans: Trans, addr: Word, write: bool, size: nat, wdata: Word)

  datatype Answer = Answer(ready: bool, error: bool, rdata: Word)

  function Drive(s: State, n: Native): Bus {
    if s.phase == AddressPhase then
      Bus(if n.valid then Nonseq else Idle, n.request.addr, n.request.write, n.request.size, s.wdata)
    else Bus(Idle, s.addr, false, 2, s.wdata)
  }

  function Reply(s: State, h: Slave): Answer {
    var ready := s.phase == DataPhase && h.ready;
    Answer(ready, ready && h.resp, h.rdata)
  }

  function Clock(s: State, n: Native, h: Slave): State {
    if s.phase == AddressPhase then
      if n.valid && h.ready then State(DataPhase, n.request.addr, n.request.wdata) else s
    else if h.ready then s.(phase := AddressPhase)
    else s
  }

  predicate Busy(s: State) { s.phase == DataPhase }

  // ---- The bus monitor ---------------------------------------------------------------------

  datatype Control = Control(addr: Word, write: bool, size: nat)

  datatype Transfer = Transfer(control: Control, wdata: Word, rdata: Word, error: bool)

  /** The transfer whose data phase is current, every address phase accepted and every transfer
      completed so far. */
  datatype Monitor = Monitor(pending: Option<Control>, accepted: seq<Control>, completed: seq<Transfer>)

  const QUIET: Monitor := Monitor(None, [], [])

  function Controls(ts: seq<Transfer>): seq<Control> {
    if ts == [] then [] else Controls(ts[..|ts| - 1]) + [ts[|ts| - 1].control]
  }

  /** A cycle with HREADY high ends the current data phase and accepts the address phase. */
  function Watch(m: Monitor, b: Bus, h: Slave): Monitor {
    if !h.ready then m
    else
      Monitor(if b.trans == Nonseq then Some(Control(b.addr, b.write, b.size)) else None,
              m.accepted + (if b.trans == Nonseq then [Control(b.addr, b.write, b.size)] else []),
              m.completed + (match m.pending case Some(c) => [Transfer(c, b.wdata, h.rdata, h.resp)] case None => []))
  }

  function AsSeq(o: Option<Control>): seq<Control> {
    match o case Some(c) => [c] case None => []
  }

  /** The address phases accepted are those of the completed transfers, once each and in order, and
      of the one in its data phase. */
  predicate Consistent(m: Monitor) {
    m.accepted == Controls(m.completed) + AsSeq(m.pending)
  }

  lemma WatchIsConsistent(m: Monitor, b: Bus, h: Slave)
    requires Consistent(m)
    ensures Consistent(Watch(m, b, h))
  {
    var t := Watch(m, b, h);
    if h.ready && m.pending.Some? {
      assert t.completed[..|t.completed| - 1] == m.completed;
    } else {
      assert t.completed == m.completed;
    }
  }

  // ---- One cycle ---------------------------------------------------------------------------

  function ControlOf(q: Request): Control { Control(q.addr, q.write, q.size) }

  /** What the native master is told in this cycle. */
  function Completing(s: State, n: Native, h: Slave): seq<Transfer> {
    var a := Reply(s, h);
    if a.ready then [Transfer(ControlOf(n.request), n.request.wdata, a.rdata, a.error)] else []
  }

  /** A busy bridge works for the request the master still holds. */
  predicate Paired(s: State, n: Native, m: Monitor) {
    if s.phase == DataPhase then
      n.valid && s.addr == n.request.addr && s.wdata == n.request.wdata && m.pending == Some(ControlOf(n.request))
    else m.pending == None
  }

  /** The native contract: a request not yet answered is presented again unchanged. */
  predicate Holds(s: State, n: Native, h: Slave, n': Native) {
    n.valid && !Reply(s, h).ready ==> n' == n
  }

  lemma ClockPairs(s: State, n: Native, h: Slave, m: Monitor, n': Native)
    requires Paired(s, n, m) && Holds(s, n, h, n')
    ensures var m' := Watch(m, Drive(s, n), h);
      && Paired(Clock(s, n, h), n', m')
      && m'.completed == m.completed + Completing(s, n, h)
  {
  }

  /** While HREADY is low the bus signals do not move. */
  lemma WaitedSignalsHold(s: State, n: Native, h: Slave, n': Native)
    requires !h.ready && Holds(s, n, h, n') && (s.phase == DataPhase ==> n.valid)
    ensures Drive(s, n).trans == Nonseq || s.phase == DataPhase ==> Drive(Clock(s, n, h), n') == Drive(s, n)
  {
  }

  // ---- Runs --------------------------------------------------------------------------------

  datatype Cycle = Cycle(native: Native, slave: Slave)

  datatype History = History(s: State, monitor: Monitor, answered: seq<Transfer>)

  function Play(cycles: seq<Cycle>): History {
    if cycles == [] then History(RESET, QUIET, [])
    else
      var n := |cycles| - 1;
      var h, c := Play(cycles[..n]), cycles[n];
      History(Clock(h.s, c.native, c.slave), Watch(h.monitor, Drive(h.s, c.native), c.slave),
              h.answered + Completing(h.s, c.native, c.slave))
  }

  /** The master held every request until it was answered. */
  predicate AllHeld(cycles: seq<Cycle>) {
    if |cycles| < 2 then true
    else
      var n := |cycles| - 1;
      AllHeld(cycles[..n]) && Holds(Play(cycles[..n - 1]).s, cycles[n - 1].native, cycles[n - 1].slave,
                                    cycles[n].native)
  }

  /** For every run with a master that holds its requests: the answers the master received are, in
      order, exactly the transfers the bus completed, with the same address, direction, size, write
      data, read data and error; and the address phases accepted are those of the completed
      transfers, once each, and of the one in its data phase. */
  lemma {:induction false} AnswersAreTransfers(cycles: seq<Cycle>)
    requires AllHeld(cycles)
    ensures var h := Play(cycles);
      && h.answered == h.monitor.completed
      && Consistent(h.monitor)
      && (Busy(h.s) <==> h.monitor.pending.Some?)
    ensures |cycles| > 0 ==>
      var n := |cycles| - 1;
      Paired(Play(cycles[..n]).s, cycles[n].native, Play(cycles[..n]).monitor)
  {
    hide Drive, Watch, Clock, Completing;
    if |cycles| > 0 {
      hide Controls, Consistent;
      var n := |cycles| - 1;
      var h, c := Play(cycles[..n]), cycles[n];
      AnswersAreTransfers(cycles[..n]);
      if n > 0 {
        assert cycles[..n][..n - 1] == cycles[..n - 1];
        var b := Play(cycles[..n - 1]);
        ClockPairs(b.s, cycles[n - 1].native, cycles[n - 1].slave, b.monitor, c.native);
      }
      WatchIsConsistent(h.monitor, Drive(h.s, c.native), c.slave);
      hide Paired;
      ClockPairs(h.s, c.native, c.slave, h.monitor, c.native);
      PairedMeansBusy(h.s, c.native, h.monitor);
      NextPending(h.s, c.native, c.slave, h.monitor);
    }
  }

  lemma PairedMeansBusy(s: State, n: Native, m: Monitor)
    requires Paired(s, n, m)
    ensures Busy(s) <==> m.pending.Some?
  {
  }

  lemma NextPending(s: State, n: Native, h: Slave, m: Monitor)
    requires Paired(s, n, m)
    ensures Busy(Clock(s, n, h)) <==> Watch(m, Drive(s, n), h).pending.Some?
  {
  }

  // ---- The clocked bridge ------------------------------------------------------------------

  class Master {
    var phase: Phase
    var requestAddr: Word
    var requestWdata: Word

    function View(): State
      reads this
    {
      State(phase, requestAddr, requestWdata)
    }

    constructor ()
      ensures View() == RESET
    {
      phase, requestAddr, requestWdata := AddressPhase, 0, 0;
    }

    method Tick(n: Native, h: Slave)
      modifies this
      ensures View() == Clock(old(View()), n, h)
    {
      match phase {
        case AddressPhase =>
          if n.valid && h.ready {
            requestAddr, requestWdata, phase := n.request.addr, n.request.wdata, DataPhase;
          }
        case DataPhase =>
          if h.ready { phase := AddressPhase; }
      }
    }
  }
}
