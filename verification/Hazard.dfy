/** forwarding_unit.sv and hazard_detection_unit.sv. */
module Hazard {
  import opened Words
  import opened Decode
  import opened Stages

  /** The forwarding mux select: 00, 01 and 10 of the source. */
  datatype Select = FromRegisters | FromWb | FromMem

  predicate Matches(write: bool, rd: Reg, rs: Reg) {
    write && rd != 0 && rd == rs
  }

  /** Newest writer first. */
  function Forward(rs: Reg, memRd: Reg, memWrite: bool, wbRd: Reg, wbWrite: bool): Select {
    if Matches(memWrite, memRd, rs) then FromMem
    else if Matches(wbWrite, wbRd, rs) then FromWb
    else FromRegisters
  }

  /** The mux the select drives. */
  function Pick(s: Select, registers: Word, wb: Word, mem: Word): Word {
    match s
    case FromRegisters => registers
    case FromWb => wb
    case FromMem => mem
  }

  /** A load in EX and a dependent instruction in ID; a store's data operand is exempt. */
  predicate LoadUse(ex: IdEx, idCtrl: Ctrl, rs1: Reg, rs2: Reg) {
    && ex.ctrl.memRead && ex.ctrl.regWrite && ex.rd != 0
    && ((rs1 == ex.rd && idCtrl.rs1Read) || (rs2 == ex.rd && idCtrl.rs2Read && !idCtrl.memWrite))
  }

  predicate ControlHazard(taken: bool, ctrl: Ctrl) {
    taken || ctrl.jal || ctrl.jalr
  }
}
