/** Lane steering of the load/store unit (load_store_unit.sv). */
module LoadStore {
  import opened Words

  const MEM_BYTE := 0
  const MEM_HALF := 1
  const MEM_WORD := 2
  const MEM_BYTE_U := 4
  const MEM_HALF_U := 5

  type Strobes = s: nat | s < 16

  function Byte(w: Word, lane: nat): nat
    ensures Byte(w, lane) < 0x100
  {
    if lane == 0 then w % 0x100
    else if lane == 1 then (w / 0x100) % 0x100
    else if lane == 2 then (w / 0x1_0000) % 0x100
    else w / 0x100_0000
  }

  function HalfOf(w: Word, offset: nat): Half {
    if offset >= 2 then w / 0x1_0000 else w % 0x1_0000
  }

  function LoadData(ty: nat, offset: nat, w: Word): Word {
    if ty == MEM_BYTE then SignExtend(Byte(w, offset), 0x80)
    else if ty == MEM_HALF then SignExtend(HalfOf(w, offset), 0x8000)
    else if ty == MEM_WORD then w
    else if ty == MEM_BYTE_U then Byte(w, offset)
    else if ty == MEM_HALF_U then HalfOf(w, offset)
    else 0
  }

  function LaneWeight(offset: nat): nat {
    if offset == 0 then 1 else if offset == 1 then 0x100 else if offset == 2 then 0x1_0000 else 0x100_0000
  }

  function StoreData(ty: nat, offset: nat, data: Word): Word {
    if ty == MEM_BYTE then (data % 0x100) * LaneWeight(offset)
    else if ty == MEM_HALF then (data % 0x1_0000) * (if offset >= 2 then 0x1_0000 else 1)
    else if ty == MEM_WORD then data
    else 0
  }

  function ByteEnable(ty: nat, offset: nat): Strobes {
    if ty == MEM_BYTE then (if offset == 0 then 1 else if offset == 1 then 2 else if offset == 2 then 4 else 8)
    else if ty == MEM_HALF then (if offset >= 2 then 12 else 3)
    else if ty == MEM_WORD then 15
    else 0
  }

  /** log2 of the access width: o_dmem_size. */
  function Size(ty: nat): nat {
    if ty == MEM_WORD then 2 else if ty == MEM_HALF || ty == MEM_HALF_U then 1 else 0
  }

  predicate Misaligned(ty: nat, addr: Word) {
    if ty == MEM_HALF || ty == MEM_HALF_U then addr % 2 != 0
    else if ty == MEM_WORD then addr % 4 != 0
    else false
  }
}
