/** The pipeline holds ID back exactly for the two reasons it must: a register that the load in EX has not
    loaded yet, and a CSR instruction that waits until it is alone. */
module Bubbles {
  import opened Words
  import opened Decode
  import opened Pipeline
  import opened Relation
  import opened Departing
  import opened Runs
  import Csr
  import Execution
  import Stages
  import I = Isa
  import M = Machine

  /** The registers whose values an instruction needs in EX.  Store data is needed only in MEM. */
  function Needs(i: I.Instruction): set<Reg> {
    match i
    case Jalr(_, rs1, _) => {rs1}
    case Branch(_, rs1, rs2, _) => {rs1, rs2}
    case Load(_, _, _, rs1, _) => {rs1}
    case Store(_, rs1, _, _) => {rs1}
    case Immediate(_, _, rs1, _) => {rs1}
    case Register(_, _, rs1, rs2) => {rs1, rs2}
    case CsrOp(_, immediate, _, source, _) => if immediate then {} else {source}
    case _ => {}
  }

  predicate WaitsForLoad(ex: I.Instruction, id: I.Instruction) {
    ex.Load? && ex.rd != 0 && ex.rd in Needs(id)
  }

  /** The decoder's read intents, load and CSR signals are those of the instruction. */
  predicate NeedsAgree(w: Word, i: I.Instruction) {
    var c := Control(w);
    && (forall r: Reg :: r in Needs(i) <==> (r == Rs1(w) && c.rs1Read) || (r == Rs2(w) && c.rs2Read && !c.memWrite))
    && (i.Load? <==> c.memRead) && (i.Load? ==> c.regWrite && i.rd == Rd(w))
    && (i.CsrOp? <==> c.csrEn)
  }

  lemma ComputingNeeds(w: Word)
    requires I.Parse(w).Some? && w % 0x80 in {0x13, 0x33, 0x37, 0x17}
    ensures NeedsAgree(w, I.Parse(w).value)
  {
    hide I.Field, Opcode, Funct3, Funct7, Rd, Rs1, Rs2, I.OffsetI, I.OffsetS, I.OffsetB, I.OffsetJ, Legal, IntegerOp,
         MultiplyOp, CsrField;
    I.FieldsAgree(w);
  }

  lemma OtherNeeds(w: Word)
    requires I.Parse(w).Some? && w % 0x80 !in {0x13, 0x33, 0x37, 0x17}
    ensures NeedsAgree(w, I.Parse(w).value)
  {
    hide I.Field, Opcode, Funct3, Funct7, Rd, Rs1, Rs2, I.OffsetI, I.OffsetS, I.OffsetB, I.OffsetJ, Legal, IntegerOp,
         MultiplyOp, CsrField;
    I.FieldsAgree(w);
  }

  lemma DecodedNeeds(w: Word)
    requires I.Parse(w).Some?
    ensures NeedsAgree(w, I.Parse(w).value)
  {
    hide I.Parse, NeedsAgree;
    if w % 0x80 in {0x13, 0x33, 0x37, 0x17} { ComputingNeeds(w); } else { OtherNeeds(w); }
  }

  /** In every run, for an instruction in ID and whatever instruction EX holds. */
  lemma WaitsIffNeeded(cfg: Config, st0: State, inputs: seq<Input>)
    requires Reset(cfg, st0)
    ensures var st := Play(cfg, st0, inputs).st;
      var id, ex := I.Parse(st.id.instr), I.Parse(st.ex.instr);
      st.id.valid && id.Some? && (st.ex.valid ==> ex.Some?) ==>
        (StallId(st) <==>
           || (st.ex.valid && WaitsForLoad(ex.value, id.value))
           || (id.value.CsrOp? && (st.ex.valid || st.mem.valid || st.wb.valid)))
  {
    hide Reset, Play, Related, Control, I.Parse, Rs1, Rs2, Rd, Execution.Decoded, Needs;
    AlwaysDescribed(cfg, st0, inputs);
    var st := Play(cfg, st0, inputs).st;
    var x: Flight, s: M.Arch, v: Csr.Volatile :| Related(x, st, s, v) && x.cfg == cfg;
    ExIsDecoded(x, st, s, v);
    if st.ex.valid {
      DecodedControl(st.ex);
      assert st.ex.rd == Rd(st.ex.instr) by { DecodedRd(st.ex); }
    }
    if I.Parse(st.id.instr).Some? { DecodedNeeds(st.id.instr); }
    if st.ex.valid && I.Parse(st.ex.instr).Some? { DecodedNeeds(st.ex.instr); }
  }

  lemma DecodedRd(ex: Stages.IdEx)
    requires Execution.Decoded(ex)
    ensures ex.rd == Rd(ex.instr)
  {
    hide Control, Immediate, Rs1, Rs2, Rd;
  }
}
