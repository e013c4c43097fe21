/** The fetch buffer (rv32c_fetch_buffer.sv): aligned 32-bit responses in, one canonical
    instruction at a halfword-aligned PC out. */
module Fetch {
  import opened Words
  import opened Decode
  import opened Decompress

  /** What the instruction port returns for an aligned address. */
  datatype Beat = Beat(data: Word, error: bool)

  /** The instruction memory seen by one run. */
  type Imem = Word -> Beat

  // The reference: how memory parses into instructions from a given PC.

  /** The canonical instruction at a PC.  `raw` is what mtval and the commit port show. */
  datatype Fetched = Fetched(fault: bool, instr: Word, raw: Word, compressed: bool)

  function Length(compressed: bool): nat { if compressed then 2 else 4 }

  /** The 16-bit parcel at a halfword address, or None on a bus error. */
  function Parcel(mem: Imem, a: Word): Option<Half> {
    var beat := mem(Align(a));
    if beat.error then None
    else Some(if UpperHalf(a) then beat.data / 0x1_0000 else beat.data % 0x1_0000)
  }

  /** A legal parcel is replaced by its expansion; an illegal one is passed on zero-extended. */
  function Canonical(p: Half): Word {
    match Expand(p)
    case Some(w) => w
    case None => p
  }

  const FAULTED: Fetched := Fetched(true, NOP, NOP, false)

  /** Mixed 16/32-bit parsing, section 1.5 of the RISC-V Unprivileged ISA 20191213. */
  function InstructionAt(mem: Imem, pc: Word): Fetched {
    match Parcel(mem, pc)
    case None => FAULTED
    case Some(low) =>
      if low % 4 != 3 then Fetched(false, Canonical(low), low, true)
      else
        match Parcel(mem, Wrap(pc + 2))
        case None => FAULTED
        case Some(high) => Fetched(false, high * 0x1_0000 + low, high * 0x1_0000 + low, false)
  }

  // The buffer.

  datatype State = State(crossPending: bool, firstHalf: Half,
                         held: bool, heldCross: bool, heldError: bool, heldResponse: Word)

  /** i_response_valid, _data and _error. */
  datatype Response = Response(valid: bool, beat: Beat)

  datatype Output = Output(complete: bool, fetched: Fetched)

  predicate RequestValid(s: State) { !s.held }

  function BusAddress(s: State, pc: Word): Word {
    if s.crossPending then Wrap(Align(pc) + 4) else Align(pc)
  }

  function SelectHalf(pc: Word, data: Word): Half {
    if UpperHalf(pc) then data / 0x1_0000 else data % 0x1_0000
  }

  predicate StartsCrossWord(s: State, pc: Word, data: Word) {
    !s.crossPending && UpperHalf(pc) && (data / 0x1_0000) % 4 == 3
  }

  function Joined(s: State, data: Word): Word {
    (data % 0x1_0000) * 0x1_0000 + s.firstHalf
  }

  /** One aligned word that holds a whole instruction at pc. */
  function Whole(pc: Word, data: Word): Fetched {
    var p := SelectHalf(pc, data);
    if p % 4 != 3 then Fetched(false, Canonical(p), p, true) else Fetched(false, data, data, false)
  }

  /** The combinational outputs. */
  function Outputs(s: State, pc: Word, r: Response): Output {
    if s.held then
      if s.heldError then Output(true, FAULTED)
      else if s.heldCross then Output(true, Fetched(false, s.heldResponse, s.heldResponse, false))
      else Output(true, Whole(pc, s.heldResponse))
    else if r.valid then
      if s.crossPending then
        Output(true, Fetched(r.beat.error, Joined(s, r.beat.data), Joined(s, r.beat.data), false))
      else if r.beat.error then Output(true, FAULTED)
      else if StartsCrossWord(s, pc, r.beat.data) then Output(false, FAULTED.(fault := false))
      else Output(true, Whole(pc, r.beat.data))
    else Output(false, FAULTED.(fault := false))
  }

  /** One clock edge.  A flush wins over everything. */
  function Clock(s: State, pc: Word, r: Response, flush: bool, consume: bool): State {
    if flush then s.(crossPending := false, held := false, heldCross := false, heldError := false)
    else if s.held then
      if consume then s.(held := false, heldCross := false, heldError := false) else s
    else if r.valid then
      if !r.beat.error && StartsCrossWord(s, pc, r.beat.data) then
        s.(crossPending := true, firstHalf := r.beat.data / 0x1_0000)
      else if consume then s.(crossPending := false)
      else s.(crossPending := false, held := true, heldCross := s.crossPending,
              heldError := Outputs(s, pc, r).fetched.fault,
              heldResponse := if s.crossPending then Joined(s, r.beat.data) else r.beat.data)
    else s
  }

  predicate Empty(s: State) { !s.crossPending && !s.held }

  // Correctness against the reference parse.

  /** The canonical instruction is what the reference says; a faulting one carries no instruction. */
  predicate Agrees(f: Fetched, ref: Fetched) {
    && f.fault == ref.fault && f.compressed == ref.compressed
    && (!ref.fault ==> f.instr == ref.instr && f.raw == ref.raw)
  }

  /** What the buffer's state means for the instruction at pc. */
  ghost predicate Holds(mem: Imem, pc: Word, s: State) {
    && (s.crossPending ==>
          && !s.held
          && UpperHalf(pc)
          && Parcel(mem, pc) == Some(s.firstHalf) && s.firstHalf % 4 == 3)
    && (s.held ==> Agrees(Outputs(s, pc, Response(false, Beat(0, false))).fetched, InstructionAt(mem, pc)))
  }

  predicate Served(mem: Imem, pc: Word, s: State, r: Response) {
    r.valid ==> !s.held && r.beat == mem(BusAddress(s, pc))
  }

  lemma NextWord(pc: Word)
    requires UpperHalf(pc)
    ensures Align(Wrap(pc + 2)) == Wrap(Align(pc) + 4) && !UpperHalf(Wrap(pc + 2))
  {
  }

  lemma SameWord(pc: Word)
    requires !UpperHalf(pc)
    ensures Align(Wrap(pc + 2)) == Align(pc) && UpperHalf(Wrap(pc + 2))
  {
  }

  /** A whole-word response is parsed as the reference parses memory. */
  lemma WholeIsReference(mem: Imem, pc: Word)
    requires !mem(Align(pc)).error
    requires !(UpperHalf(pc) && (mem(Align(pc)).data / 0x1_0000) % 4 == 3)
    ensures Whole(pc, mem(Align(pc)).data) == InstructionAt(mem, pc)
  {
    hide Canonical, Align, Wrap;
    if !UpperHalf(pc) { SameWord(pc); }
  }

  /** The two-beat assembly is the reference's crossing instruction. */
  lemma JoinedIsReference(mem: Imem, pc: Word, s: State)
    requires Holds(mem, pc, s) && s.crossPending
    ensures var beat := mem(BusAddress(s, pc));
      Agrees(Fetched(beat.error, Joined(s, beat.data), Joined(s, beat.data), false), InstructionAt(mem, pc))
  {
    NextWord(pc);
    hide Canonical, Align, Wrap;
  }

  /** A completed fetch is the reference's instruction, held or not, one beat or two. */
  lemma CompleteIsReference(mem: Imem, pc: Word, s: State, r: Response)
    requires Holds(mem, pc, s) && Served(mem, pc, s, r) && Outputs(s, pc, r).complete
    ensures Agrees(Outputs(s, pc, r).fetched, InstructionAt(mem, pc))
  {
    if s.held {
      hide Whole, InstructionAt;
    } else if s.crossPending {
      JoinedIsReference(mem, pc, s);
      hide InstructionAt;
    } else if !r.beat.error {
      WholeIsReference(mem, pc);
      hide InstructionAt;
    }
  }

  /** The buffer keeps its meaning while the PC stands still. */
  lemma ClockHolds(mem: Imem, pc: Word, s: State, r: Response, flush: bool)
    requires Holds(mem, pc, s) && Served(mem, pc, s, r)
    ensures Holds(mem, pc, Clock(s, pc, r, flush, false))
  {
    if !flush && !s.held && r.valid {
      if Outputs(s, pc, r).complete {
        CompleteIsReference(mem, pc, s, r);
        hide InstructionAt, Canonical;
      }
    }
  }

  /** When an instruction is consumed or a redirect is accepted, the buffer starts afresh at any PC. */
  lemma ClockEmpties(mem: Imem, pc: Word, s: State, r: Response, flush: bool, consume: bool, next: Word)
    requires Holds(mem, pc, s)
    requires flush || (consume && Outputs(s, pc, r).complete)
    ensures Empty(Clock(s, pc, r, flush, consume)) && Holds(mem, next, Clock(s, pc, r, flush, consume))
  {
    hide Whole, Canonical;
  }

  /** Bus beats still needed before the instruction at pc is complete. */
  function BeatsLeft(mem: Imem, pc: Word, s: State): nat {
    if s.held then 0
    else if s.crossPending then 1
    else if !mem(Align(pc)).error && UpperHalf(pc) && (mem(Align(pc)).data / 0x1_0000) % 4 == 3 then 2
    else 1
  }

  /** Each accepted beat is one fewer; the instruction is complete exactly when none is left. */
  lemma BeatsCount(mem: Imem, pc: Word, s: State, r: Response)
    requires Holds(mem, pc, s) && Served(mem, pc, s, r)
    ensures Outputs(s, pc, r).complete <==> BeatsLeft(mem, pc, s) - (if r.valid then 1 else 0) == 0
    ensures BeatsLeft(mem, pc, Clock(s, pc, r, false, false)) == BeatsLeft(mem, pc, s) - (if r.valid then 1 else 0)
  {
    hide Whole, Joined;
  }

  class Buffer {
    var crossPending: bool
    var firstHalf: Half
    var held: bool
    var heldCross: bool
    var heldError: bool
    var heldResponse: Word

    function View(): State
      reads this
    {
      State(crossPending, firstHalf, held, heldCross, heldError, heldResponse)
    }

    constructor ()
      ensures Empty(View())
    {
      crossPending, held, heldCross, heldError := false, false, false, false;
    }

    method Tick(pc: Word, r: Response, flush: bool, consume: bool)
      modifies this
      ensures View() == Clock(old(View()), pc, r, flush, consume)
    {
      hide Whole, Joined;
      if flush {
        crossPending, held, heldCross, heldError := false, false, false, false;
      } else if held {
        if consume { held, heldCross, heldError := false, false, false; }
      } else if r.valid {
        if !r.beat.error && StartsCrossWord(View(), pc, r.beat.data) {
          crossPending, firstHalf := true, r.beat.data / 0x1_0000;
        } else if consume {
          crossPending := false;
        } else {
          var fault := Outputs(View(), pc, r).fetched.fault;
          var response := if crossPending then Joined(View(), r.beat.data) else r.beat.data;
          held, heldCross, heldError, heldResponse, crossPending := true, crossPending, fault, response, false;
        }
      }
    }
  }
}
