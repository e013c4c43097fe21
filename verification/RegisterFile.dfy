/** The integer register file (register_file.sv): storage without reset, a validity bitmap
    that supplies the reset values, and a same-cycle write-to-read bypass. */
module RegisterFile {
  import opened Words

  /** The value software sees in a register that was never written. */
  function ResetValue(r: Reg): Word {
    if r == 1 then 0x10 else if r == 2 then 0x20 else if r == 4 then 0x40 else if r == 5 then 0x50 else 0
  }

  function ResetView(): RegFile {
    seq(32, (r: nat) requires r < 32 => ResetValue(r))
  }

  function Clock(x: RegFile, write: bool, rd: Reg, data: Word): RegFile {
    if write then Put(x, rd, data) else x
  }

  /** A read port, with the write-through path from the same cycle's write. */
  function Read(x: RegFile, write: bool, rd: Reg, data: Word, rs: Reg): Word {
    if rs == 0 then 0
    else if write && rd == rs && rd != 0 then data
    else Get(x, rs)
  }

  /** The bypass makes a read see the file as it will be after this edge. */
  lemma ReadSeesWrite(x: RegFile, write: bool, rd: Reg, data: Word, rs: Reg)
    ensures Read(x, write, rd, data, rs) == Get(Clock(x, write, rd, data), rs)
  {
  }

  class File {
    const storage: array<Word>
    const valid: array<bool>

    predicate Valid() {
      storage.Length == 32 && valid.Length == 32
    }

    function Register(r: Reg): Word
      requires Valid()
      reads storage, valid
    {
      if r == 0 then 0 else if valid[r] then storage[r] else ResetValue(r)
    }

    /** The architectural view: what the read ports return. */
    function View(): RegFile
      requires Valid()
      reads storage, valid
    {
      seq(32, (r: nat) requires r < 32 && Valid() reads storage, valid => Register(r))
    }

    constructor ()
      ensures Valid() && fresh(storage) && fresh(valid)
      ensures View() == ResetView()
    {
      storage := new Word[32];
      valid := new bool[32](_ => false);
    }

    method ReadPort(write: bool, rd: Reg, data: Word, rs: Reg) returns (v: Word)
      requires Valid()
      ensures v == Read(View(), write, rd, data, rs)
    {
      v := if rs == 0 then 0 else if write && rd == rs && rd != 0 then data else Register(rs);
    }

    method Tick(write: bool, rd: Reg, data: Word)
      requires Valid()
      modifies storage, valid
      ensures View() == Clock(old(View()), write, rd, data)
    {
      if write && rd != 0 {
        storage[rd] := data;
        valid[rd] := true;
      }
      assert forall r: nat | r < 32 :: View()[r] == Clock(old(View()), write, rd, data)[r];
    }
  }
}
