/** The fetch stream: program counter and fetch buffer together, over any pattern of wait states,
    consumption and accepted redirects. */
module FetchStream {
  import opened Words
  import opened Fetch

  /** What happens in one cycle: whether the port answers, whether a redirect is accepted, and whether
      the pipeline can take an instruction. */
  datatype Turn = Turn(ready: bool, redirect: Option<Word>, take: bool)

  /** The front end, with what it did since the last accepted redirect: where that went, the
      instructions consumed and the bus reads accepted. */
  datatype Front = Front(pc: Word, fb: State, origin: Word, taken: seq<Fetched>, beats: nat)

  function Answer(mem: Imem, f: Front, t: Turn): Response {
    Response(RequestValid(f.fb) && t.ready, mem(BusAddress(f.fb, f.pc)))
  }

  function One(b: bool): nat { if b then 1 else 0 }

  function Turned(mem: Imem, f: Front, t: Turn): Front {
    var r := Answer(mem, f, t);
    var out := Outputs(f.fb, f.pc, r);
    var consume := t.take && out.complete;
    var fb := Clock(f.fb, f.pc, r, t.redirect.Some?, consume);
    match t.redirect
    case Some(target) => Front(target, fb, target, [], 0)
    case None =>
      Front(if consume then Wrap(f.pc + Length(out.fetched.compressed)) else f.pc, fb, f.origin,
            if consume then f.taken + [out.fetched] else f.taken, f.beats + One(r.valid))
  }

  function Fetching(mem: Imem, f: Front, turns: seq<Turn>): Front {
    if turns == [] then f else Turned(mem, Fetching(mem, f, turns[..|turns| - 1]), turns[|turns| - 1])
  }

  // ---- The reference stream ----------------------------------------------------------------

  /** The PC of the k-th instruction of memory parsed from a starting PC. */
  function PcAt(mem: Imem, origin: Word, k: nat): Word {
    if k == 0 then origin
    else
      var pc := PcAt(mem, origin, k - 1);
      Wrap(pc + Length(InstructionAt(mem, pc).compressed))
  }

  /** Two reads for an instruction that crosses a word boundary, and one otherwise. */
  function ReadsFor(mem: Imem, pc: Word): nat {
    var beat := mem(Align(pc));
    if !beat.error && UpperHalf(pc) && (beat.data / 0x1_0000) % 4 == 3 then 2 else 1
  }

  function ReadsUpTo(mem: Imem, origin: Word, k: nat): nat {
    if k == 0 then 0 else ReadsUpTo(mem, origin, k - 1) + ReadsFor(mem, PcAt(mem, origin, k - 1))
  }

  ghost predicate Streams(mem: Imem, f: Front) {
    && f.pc == PcAt(mem, f.origin, |f.taken|)
    && (forall k :: 0 <= k < |f.taken| ==> Fetch.Agrees(f.taken[k], InstructionAt(mem, PcAt(mem, f.origin, k))))
    && Holds(mem, f.pc, f.fb)
    && f.beats + BeatsLeft(mem, f.pc, f.fb) == ReadsUpTo(mem, f.origin, |f.taken|) + ReadsFor(mem, f.pc)
  }

  lemma FreshReads(mem: Imem, pc: Word, s: State)
    requires Empty(s)
    ensures BeatsLeft(mem, pc, s) == ReadsFor(mem, pc)
  {
    hide Align, UpperHalf;
  }

  lemma TurnStreams(mem: Imem, f: Front, t: Turn)
    requires Streams(mem, f)
    ensures Streams(mem, Turned(mem, f, t))
  {
    hide Holds, Empty, Outputs, Clock, BeatsLeft, ReadsFor, InstructionAt, BusAddress, Length, RequestValid;
    var r := Answer(mem, f, t);
    var out := Outputs(f.fb, f.pc, r);
    var consume, g := t.take && out.complete, Turned(mem, f, t);
    AnswerServed(mem, f, t);
    BeatsCount(mem, f.pc, f.fb, r);
    if t.redirect.Some? {
      ClockEmpties(mem, f.pc, f.fb, r, true, consume, g.pc);
      FreshReads(mem, g.pc, g.fb);
    } else if consume {
      CompleteIsReference(mem, f.pc, f.fb, r);
      ClockEmpties(mem, f.pc, f.fb, r, false, true, g.pc);
      FreshReads(mem, g.pc, g.fb);
    } else {
      ClockHolds(mem, f.pc, f.fb, r, false);
    }
  }

  lemma AnswerServed(mem: Imem, f: Front, t: Turn)
    ensures Served(mem, f.pc, f.fb, Answer(mem, f, t))
  {
  }

  /** For every memory, wait pattern and sequence of redirects: what has been consumed since the last
      accepted redirect is exactly the mixed 16- and 32-bit parse of memory from its target, the PC is
      that of the next instruction, and the reads accepted are two for each crossing instruction and
      one for any other, plus those already made for the next. */
  lemma {:induction false} ConsumedIsParse(mem: Imem, pc: Word, s: State, turns: seq<Turn>)
    requires Empty(s)
    ensures var f := Fetching(mem, Front(pc, s, pc, [], 0), turns);
      && f.pc == PcAt(mem, f.origin, |f.taken|)
      && (forall k :: 0 <= k < |f.taken| ==> Fetch.Agrees(f.taken[k], InstructionAt(mem, PcAt(mem, f.origin, k))))
      && f.beats + BeatsLeft(mem, f.pc, f.fb) == ReadsUpTo(mem, f.origin, |f.taken|) + ReadsFor(mem, f.pc)
      && Streams(mem, f)
  {
    hide Turned, InstructionAt, BeatsLeft, ReadsFor, Holds;
    if turns == [] {
      FreshReads(mem, pc, s);
      EmptyHolds(mem, pc, s);
    } else {
      ConsumedIsParse(mem, pc, s, turns[..|turns| - 1]);
      TurnStreams(mem, Fetching(mem, Front(pc, s, pc, [], 0), turns[..|turns| - 1]), turns[|turns| - 1]);
    }
  }

  lemma EmptyHolds(mem: Imem, pc: Word, s: State)
    requires Empty(s)
    ensures Holds(mem, pc, s)
  {
  }
}
