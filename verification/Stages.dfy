/** The four stage registers (if_id_register.sv, id_ex_register.sv, ex_mem_register.sv,
    mem_wb_register.sv).  Control bits are reset; payload fields are not. */
module Stages {
  import opened Words
  import opened Decode

  datatype IfId = IfId(valid: bool, fault: bool, instr: Word, compressed: bool, pc: Word, raw: Word)

  datatype IdEx = IdEx(valid: bool, fault: bool, compressed: bool, ctrl: Ctrl,
                       pc: Word, instr: Word, raw: Word, rs1Data: Word, rs2Data: Word, imm: Word,
                       rs1: Reg, rs2: Reg, rd: Reg)

  datatype ExMem = ExMem(valid: bool, regWrite: bool, memRead: bool, memWrite: bool, wbSel: WbSel, memType: nat,
                         pc: Word, raw: Word, alu: Word, rs2Data: Word, link: Word, imm: Word,
                         rs2: Reg, rd: Reg)

  datatype MemWb = MemWb(valid: bool, regWrite: bool, memWrite: bool,
                         pc: Word, raw: Word, data: Word, rd: Reg,
                         memAddr: Word, memData: Word, memStrobes: nat)

  /** IF/ID: a flush beats a stall, and an invalid stage shows a NOP. */
  function NextIfId(q: IfId, stall: bool, flush: bool, d: IfId): IfId {
    var payload := if stall then q else q.(pc := d.pc, raw := d.raw);
    if flush then payload.(valid := false, fault := false, instr := NOP, compressed := false)
    else if stall then payload
    else payload.(valid := d.valid, fault := d.fault, instr := d.instr, compressed := d.compressed)
  }

  /** ID/EX: a stall beats a flush; a flush clears every control but captures the payload. */
  function NextIdEx(q: IdEx, stall: bool, flush: bool, d: IdEx): IdEx {
    if stall then q
    else if flush then d.(valid := false, fault := false, compressed := false, ctrl := CLEARED)
    else d
  }

  /** EX/MEM: a stall beats a flush; a flush clears every control but captures the payload. */
  function NextExMem(q: ExMem, stall: bool, flush: bool, d: ExMem): ExMem {
    if stall then q
    else if flush then
      d.(valid := false, regWrite := false, memRead := false, memWrite := false, wbSel := WbAlu, memType := 0)
    else d
  }

  function NextMemWb(q: MemWb, stall: bool, d: MemWb): MemWb {
    if stall then q else d
  }

  // Reset clears the control bank and leaves the payload arbitrary.

  predicate ResetIfId(q: IfId) { !q.valid && !q.fault && q.instr == NOP && !q.compressed }

  predicate ResetIdEx(q: IdEx) { !q.valid && !q.fault && !q.compressed && q.ctrl == CLEARED }

  predicate ResetExMem(q: ExMem) {
    !q.valid && !q.regWrite && !q.memRead && !q.memWrite && q.wbSel == WbAlu && q.memType == 0
  }

  predicate ResetMemWb(q: MemWb) { !q.valid && !q.regWrite && !q.memWrite }

  class IfIdRegister {
    var q: IfId

    constructor (payload: IfId)
      ensures ResetIfId(q)
    {
      q := payload.(valid := false, fault := false, instr := NOP, compressed := false);
    }

    method Tick(stall: bool, flush: bool, d: IfId)
      modifies this
      ensures q == NextIfId(old(q), stall, flush, d)
    {
      if flush {
        q := q.(valid := false, fault := false, instr := NOP, compressed := false);
      } else if !stall {
        q := q.(valid := d.valid, fault := d.fault, instr := d.instr, compressed := d.compressed);
      }
      if !stall { q := q.(pc := d.pc, raw := d.raw); }
    }
  }

  class IdExRegister {
    var q: IdEx

    constructor (payload: IdEx)
      ensures ResetIdEx(q)
    {
      q := payload.(valid := false, fault := false, compressed := false, ctrl := CLEARED);
    }

    method Tick(stall: bool, flush: bool, d: IdEx)
      modifies this
      ensures q == NextIdEx(old(q), stall, flush, d)
    {
      if !stall {
        q := d;
        if flush { q := q.(valid := false, fault := false, compressed := false, ctrl := CLEARED); }
      }
    }
  }

  class ExMemRegister {
    var q: ExMem

    constructor (payload: ExMem)
      ensures ResetExMem(q)
    {
      q := payload.(valid := false, regWrite := false, memRead := false, memWrite := false, wbSel := WbAlu,
                    memType := 0);
    }

    method Tick(stall: bool, flush: bool, d: ExMem)
      modifies this
      ensures q == NextExMem(old(q), stall, flush, d)
    {
      if !stall {
        q := d;
        if flush {
          q := q.(valid := false, regWrite := false, memRead := false, memWrite := false, wbSel := WbAlu, memType := 0);
        }
      }
    }
  }

  class MemWbRegister {
    var q: MemWb

    constructor (payload: MemWb)
      ensures ResetMemWb(q)
    {
      q := payload.(valid := false, regWrite := false, memWrite := false);
    }

    method Tick(stall: bool, d: MemWb)
      modifies this
      ensures q == NextMemWb(old(q), stall, d)
    {
      if !stall { q := d; }
    }
  }
}
