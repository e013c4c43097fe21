/** One byte memory and its three implementations: the strobed RTL memory (data_memory.sv), the
    native simulation memory (native_memory.py) and the AHB-Lite simulation memory (ahb_memory.py). */
module Memory {
  import opened Words
  import opened LoadStore

  type Octet = b: nat | b < 0x100
  type Ram = seq<Octet>

  // ---- The flat little-endian byte map -----------------------------------------------------

  /** The number a run of bytes encodes. */
  function Little(bs: seq<Octet>): nat {
    if bs == [] then 0 else bs[0] + 0x100 * Little(bs[1..])
  }

  function Octets(data: Word, width: nat): seq<Octet>
    requires width <= 4
  {
    [Byte(data, 0), Byte(data, 1), Byte(data, 2), Byte(data, 3)][..width]
  }

  function Width(size: nat): nat {
    if size == 0 then 1 else if size == 1 then 2 else 4
  }

  predicate InRange(d: Ram, addr: Word, ty: nat) { addr + Width(Size(ty)) <= |d| }

  function FlatStore(d: Ram, ty: nat, addr: Word, data: Word): Ram
    requires InRange(d, addr, ty)
  {
    var n := Width(Size(ty));
    d[..addr] + Octets(data, n) + d[addr + n..]
  }

  /** The value of the bytes at addr, read as the load type says. */
  function FlatLoad(d: Ram, ty: nat, addr: Word): int
    requires InRange(d, addr, ty)
  {
    var n := Width(Size(ty));
    var v := Little(d[addr..addr + n]);
    if ty == MEM_BYTE && v >= 0x80 then v - 0x100
    else if ty == MEM_HALF && v >= 0x8000 then v - 0x1_0000
    else v
  }

  function Pair(b0: nat, b1: nat): nat { b0 + 0x100 * b1 }

  /** Four bytes as a little-endian word. */
  function Quad(b0: nat, b1: nat, b2: nat, b3: nat): Word
    requires b0 < 0x100 && b1 < 0x100 && b2 < 0x100 && b3 < 0x100
  {
    b0 + 0x100 * b1 + 0x1_0000 * b2 + 0x100_0000 * b3
  }

  // ---- Word-addressed views ----------------------------------------------------------------

  /** The aligned word around addr lies in the memory. */
  predicate Mapped(d: Ram, addr: Word) { Align(addr) + 4 <= |d| }

  function WordAt(d: Ram, addr: Word): Word
    requires Mapped(d, addr)
  {
    var b := Align(addr);
    Quad(d[b], d[b + 1], d[b + 2], d[b + 3])
  }

  predicate Strobed(strobes: Strobes, lane: nat) {
    if lane == 0 then strobes % 2 == 1
    else if lane == 1 then (strobes / 2) % 2 == 1
    else if lane == 2 then (strobes / 4) % 2 == 1
    else strobes / 8 == 1
  }

  /** Lanes below n are written where their strobe is set. */
  function ByStrobes(d: Ram, addr: Word, wdata: Word, strobes: Strobes, n: nat): (r: Ram)
    requires Mapped(d, addr) && n <= 4
    ensures |r| == |d|
  {
    if n == 0 then d
    else
      var e := ByStrobes(d, addr, wdata, strobes, n - 1);
      if Strobed(strobes, n - 1) then e[Align(addr) + n - 1 := Byte(wdata, n - 1)] else e
  }

  /** The same where the memory may end inside the word. */
  function Stored(d: Ram, addr: Word, wdata: Word, strobes: Strobes, n: nat): (r: Ram)
    requires n <= 4
    ensures |r| == |d| && (Mapped(d, addr) ==> r == ByStrobes(d, addr, wdata, strobes, n))
  {
    if n == 0 then d
    else
      var e := Stored(d, addr, wdata, strobes, n - 1);
      if Strobed(strobes, n - 1) && Align(addr) + n - 1 < |d| then e[Align(addr) + n - 1 := Byte(wdata, n - 1)] else e
  }

  /** The n bytes from addr on are taken from the lanes their addresses select. */
  function ByAddress(d: Ram, addr: Word, wdata: Word, n: nat): (r: Ram)
    requires addr + n <= |d|
    ensures |r| == |d|
  {
    if n == 0 then d
    else ByAddress(d, addr, wdata, n - 1)[addr + n - 1 := Byte(wdata, (addr + n - 1) % 4)]
  }

  // ---- The three agree ---------------------------------------------------------------------

  predicate IsLoad(ty: nat) { ty <= 2 || ty == MEM_BYTE_U || ty == MEM_HALF_U }

  predicate IsStore(ty: nat) { ty <= 2 }

  lemma ByteLane(x: nat, offset: nat)
    requires x < 0x100 && offset < 4
    ensures x * LaneWeight(offset) < 0x1_0000_0000 && Byte(x * LaneWeight(offset), offset) == x
  {
  }

  lemma HalfLanes(data: Word)
    ensures var h := data % 0x1_0000;
      && Byte(h, 0) == Byte(data, 0) && Byte(h, 1) == Byte(data, 1)
      && Byte(h * 0x1_0000, 2) == Byte(data, 0) && Byte(h * 0x1_0000, 3) == Byte(data, 1)
  {
    var h := data % 0x1_0000;
    assert (h * 0x1_0000) / 0x100_0000 == h / 0x100;
    assert data / 0x100 == 0x100 * (data / 0x1_0000) + h / 0x100;
  }

  /** The lane of the store data that carries byte k of the register. */
  lemma StoreLanes(ty: nat, offset: nat, data: Word, k: nat)
    requires IsStore(ty) && offset < 4 && k < Width(Size(ty)) && (ty == MEM_HALF ==> offset % 2 == 0)
    requires ty == MEM_WORD ==> offset == 0
    ensures Byte(StoreData(ty, offset, data), offset + k) == Byte(data, k)
  {
    if ty == MEM_BYTE {
      ByteLane(data % 0x100, offset);
      hide LaneWeight;
    } else if ty == MEM_HALF {
      HalfLanes(data);
      hide Byte;
    }
  }

  lemma StrobesAre(ty: nat, offset: nat, lane: nat)
    requires IsStore(ty) && offset < 4 && lane < 4 && (ty == MEM_HALF ==> offset % 2 == 0)
    requires ty == MEM_WORD ==> offset == 0
    ensures Strobed(ByteEnable(ty, offset), lane) <==> offset <= lane < offset + Width(Size(ty))
  {
  }

  /** A strobed write, byte by byte. */
  lemma {:induction false} StrobesAt(d: Ram, addr: Word, wdata: Word, strobes: Strobes, n: nat, k: nat)
    requires Mapped(d, addr) && n <= 4 && k < |d|
    ensures ByStrobes(d, addr, wdata, strobes, n)[k]
         == var lane := k - Align(addr);
            if 0 <= lane < n && Strobed(strobes, lane) then Byte(wdata, lane) else d[k]
  {
    if n > 0 {
      StrobesAt(d, addr, wdata, strobes, n - 1, k);
      hide Byte, Strobed, Align;
    }
  }

  lemma {:induction false} AddressAt(d: Ram, addr: Word, wdata: Word, n: nat, k: nat)
    requires addr + n <= |d| && k < |d|
    ensures ByAddress(d, addr, wdata, n)[k] == if addr <= k < addr + n then Byte(wdata, k % 4) else d[k]
  {
    if n > 0 {
      AddressAt(d, addr, wdata, n - 1, k);
      hide Byte;
    }
  }

  lemma AlignedAccess(d: Ram, ty: nat, addr: Word)
    requires IsLoad(ty) && !Misaligned(ty, addr) && Mapped(d, addr)
    ensures addr == Align(addr) + addr % 4 && InRange(d, addr, ty)
    ensures addr % 4 + Width(Size(ty)) <= 4
    ensures Size(ty) == 1 ==> (addr % 4) % 2 == 0
  {
  }

  lemma LaneOf(addr: Word, k: nat)
    requires addr % 4 + k < 4
    ensures (addr + k) % 4 == addr % 4 + k
  {
  }

  /** For every aligned store inside the memory, the byte strobes, the address and size, and the flat
      byte map all write the same bytes: the strobes dropped at the bus are redundant. */
  lemma StoresAgree(d: Ram, ty: nat, addr: Word, data: Word)
    requires IsStore(ty) && !Misaligned(ty, addr) && Mapped(d, addr) && InRange(d, addr, ty)
    ensures var w := StoreData(ty, addr % 4, data);
      && ByStrobes(d, addr, w, ByteEnable(ty, addr % 4), 4) == FlatStore(d, ty, addr, data)
      && ByAddress(d, addr, w, Width(Size(ty))) == FlatStore(d, ty, addr, data)
  {
    AlignedAccess(d, ty, addr);
    var w, flat, n := StoreData(ty, addr % 4, data), FlatStore(d, ty, addr, data), Width(Size(ty));
    forall k | 0 <= k < |d|
      ensures ByStrobes(d, addr, w, ByteEnable(ty, addr % 4), 4)[k] == flat[k]
      ensures ByAddress(d, addr, w, n)[k] == flat[k]
    {
      StoreAgreesAt(d, ty, addr, data, k);
    }
    assert |flat| == |d|;
  }

  lemma StoreAgreesAt(d: Ram, ty: nat, addr: Word, data: Word, k: nat)
    requires IsStore(ty) && !Misaligned(ty, addr) && Mapped(d, addr) && InRange(d, addr, ty) && k < |d|
    ensures var w := StoreData(ty, addr % 4, data);
      && |FlatStore(d, ty, addr, data)| == |d|
      && ByStrobes(d, addr, w, ByteEnable(ty, addr % 4), 4)[k] == FlatStore(d, ty, addr, data)[k]
      && ByAddress(d, addr, w, Width(Size(ty)))[k] == FlatStore(d, ty, addr, data)[k]
  {
    AlignedAccess(d, ty, addr);
    var o := addr % 4;
    var w, n := StoreData(ty, o, data), Width(Size(ty));
    StrobesAt(d, addr, w, ByteEnable(ty, o), 4, k);
    AddressAt(d, addr, w, n, k);
    if addr <= k < addr + n {
      StoreLanes(ty, o, data, k - addr);
      LaneOf(addr, k - addr);
      StrobesAre(ty, o, k - Align(addr));
    } else if 0 <= k - Align(addr) < 4 {
      StrobesAre(ty, o, k - Align(addr));
    }
    hide Byte, StoreData, ByteEnable, Strobed, Align, Misaligned, Mapped, ByStrobes, ByAddress;
    FlatAt(d, ty, addr, data, k);
  }

  lemma FlatAt(d: Ram, ty: nat, addr: Word, data: Word, k: nat)
    requires InRange(d, addr, ty) && k < |d|
    ensures |FlatStore(d, ty, addr, data)| == |d|
    ensures FlatStore(d, ty, addr, data)[k]
         == if addr <= k < addr + Width(Size(ty)) then Byte(data, k - addr) else d[k]
  {
    hide Byte;
    var n := Width(Size(ty));
    if addr <= k < addr + n { assert Octets(data, n)[k - addr] == Byte(data, k - addr) by { hide Width; } }
  }

  lemma QuadLanes(b0: nat, b1: nat, b2: nat, b3: nat)
    requires b0 < 0x100 && b1 < 0x100 && b2 < 0x100 && b3 < 0x100
    ensures var w := Quad(b0, b1, b2, b3);
      && Byte(w, 0) == b0 && Byte(w, 1) == b1 && Byte(w, 2) == b2 && Byte(w, 3) == b3
      && HalfOf(w, 0) == Pair(b0, b1) && HalfOf(w, 2) == Pair(b2, b3)
  {
    var w := Quad(b0, b1, b2, b3);
    assert w / 0x100 == b1 + 0x100 * b2 + 0x1_0000 * b3;
    assert w / 0x1_0000 == b2 + 0x100 * b3;
    assert w / 0x100_0000 == b3;
  }

  lemma WordLanes(d: Ram, addr: Word)
    requires Mapped(d, addr)
    ensures forall lane :: 0 <= lane < 4 ==> Byte(WordAt(d, addr), lane) == d[Align(addr) + lane]
    ensures HalfOf(WordAt(d, addr), 0) == Pair(d[Align(addr)], d[Align(addr) + 1])
    ensures HalfOf(WordAt(d, addr), 2) == Pair(d[Align(addr) + 2], d[Align(addr) + 3])
  {
    var b := Align(addr);
    hide Align, Byte, HalfOf, Quad, Pair;
    QuadLanes(d[b], d[b + 1], d[b + 2], d[b + 3]);
  }

  lemma LittleOne(bs: seq<Octet>)
    requires |bs| == 1
    ensures Little(bs) == bs[0]
  {
    assert bs[1..] == [];
  }

  lemma LittleTwo(bs: seq<Octet>)
    requires |bs| == 2
    ensures Little(bs) == Pair(bs[0], bs[1])
  {
    LittleOne(bs[1..]);
  }

  lemma LittleFour(bs: seq<Octet>)
    requires |bs| == 4
    ensures Little(bs) == Quad(bs[0], bs[1], bs[2], bs[3])
  {
    assert Little(bs[1..]) == Pair(bs[1], Little(bs[2..])) by { assert bs[1..][1..] == bs[2..]; }
    LittleTwo(bs[2..]);
  }

  lemma BytesAgree(d: Ram, ty: nat, addr: Word)
    requires (ty == MEM_BYTE || ty == MEM_BYTE_U) && Mapped(d, addr) && InRange(d, addr, ty)
    ensures LoadData(ty, addr % 4, WordAt(d, addr)) == Wrap(FlatLoad(d, ty, addr))
  {
    hide Byte, HalfOf, WordAt, Mapped, Little, Pair;
    assert addr == Align(addr) + addr % 4;
    hide Align;
    WordLanes(d, addr);
    LittleOne(d[addr..addr + 1]);
  }

  lemma HalvesAgree(d: Ram, ty: nat, addr: Word)
    requires (ty == MEM_HALF || ty == MEM_HALF_U) && !Misaligned(ty, addr) && Mapped(d, addr) && InRange(d, addr, ty)
    ensures LoadData(ty, addr % 4, WordAt(d, addr)) == Wrap(FlatLoad(d, ty, addr))
  {
    hide Byte, HalfOf, WordAt, Align, Mapped, Little, Pair;
    AlignedAccess(d, ty, addr);
    WordLanes(d, addr);
    LittleTwo(d[addr..addr + 2]);
    PairFits(d[addr], d[addr + 1]);
    EvenLane(addr % 4);
  }

  lemma PairFits(b0: nat, b1: nat)
    requires b0 < 0x100 && b1 < 0x100
    ensures Pair(b0, b1) < 0x1_0000
  {
  }

  lemma EvenLane(offset: nat)
    requires offset % 2 == 0 && offset < 4
    ensures offset == 0 || offset == 2
  {
  }

  lemma WordsAgree(d: Ram, addr: Word)
    requires !Misaligned(MEM_WORD, addr) && Mapped(d, addr) && InRange(d, addr, MEM_WORD)
    ensures LoadData(MEM_WORD, addr % 4, WordAt(d, addr)) == Wrap(FlatLoad(d, MEM_WORD, addr))
  {
    hide Byte, HalfOf, Little, Quad, Pair;
    LittleFour(d[addr..addr + 4]);
  }

  /** For every aligned load inside the memory, steering and extending the lanes of the containing
      word gives the value the flat byte map holds at that address. */
  lemma LoadsAgree(d: Ram, ty: nat, addr: Word)
    requires IsLoad(ty) && !Misaligned(ty, addr) && Mapped(d, addr) && InRange(d, addr, ty)
    ensures LoadData(ty, addr % 4, WordAt(d, addr)) == Wrap(FlatLoad(d, ty, addr))
  {
    hide LoadData, FlatLoad, WordAt, Align, Misaligned, Mapped, Wrap, Size, Width;
    if ty == MEM_BYTE || ty == MEM_BYTE_U {
      BytesAgree(d, ty, addr);
    } else if ty == MEM_HALF || ty == MEM_HALF_U {
      HalvesAgree(d, ty, addr);
    } else {
      WordsAgree(d, addr);
    }
  }

  // ---- Sequences of accesses ---------------------------------------------------------------

  datatype Op = LoadOp(ty: nat, addr: Word) | StoreOp(ty: nat, addr: Word, data: Word)

  /** What the core issues: a defined access type, aligned, inside the memory. */
  predicate Proper(size: nat, op: Op) {
    && Align(op.addr) + 4 <= size && !Misaligned(op.ty, op.addr)
    && (if op.LoadOp? then IsLoad(op.ty) else IsStore(op.ty))
  }

  datatype Outcome = Outcome(ram: Ram, loaded: seq<Word>)

  function FlatOp(o: Outcome, op: Op): (r: Outcome)
    requires Proper(|o.ram|, op)
    ensures |r.ram| == |o.ram|
  {
    AlignedAccess(o.ram, op.ty, op.addr);
    match op
    case LoadOp(ty, addr) => o.(loaded := o.loaded + [Wrap(FlatLoad(o.ram, ty, addr))])
    case StoreOp(ty, addr, data) => o.(ram := FlatStore(o.ram, ty, addr, data))
  }

  function StrobeOp(o: Outcome, op: Op): (r: Outcome)
    requires Proper(|o.ram|, op)
    ensures |r.ram| == |o.ram|
  {
    match op
    case LoadOp(ty, addr) => o.(loaded := o.loaded + [LoadData(ty, addr % 4, WordAt(o.ram, addr))])
    case StoreOp(ty, addr, data) =>
      o.(ram := ByStrobes(o.ram, addr, StoreData(ty, addr % 4, data), ByteEnable(ty, addr % 4), 4))
  }

  function SizeOp(o: Outcome, op: Op): (r: Outcome)
    requires Proper(|o.ram|, op)
    ensures |r.ram| == |o.ram|
  {
    AlignedAccess(o.ram, op.ty, op.addr);
    match op
    case LoadOp(ty, addr) => o.(loaded := o.loaded + [LoadData(ty, addr % 4, WordAt(o.ram, addr))])
    case StoreOp(ty, addr, data) =>
      o.(ram := ByAddress(o.ram, addr, StoreData(ty, addr % 4, data), Width(Size(ty))))
  }

  /** One program of accesses on the flat map, by strobes, and by address and size. */
  function FlatRun(o: Outcome, ops: seq<Op>): Outcome
    requires forall op <- ops :: Proper(|o.ram|, op)
    decreases |ops|
  {
    if ops == [] then o else FlatRun(FlatOp(o, ops[0]), ops[1..])
  }

  function StrobeRun(o: Outcome, ops: seq<Op>): Outcome
    requires forall op <- ops :: Proper(|o.ram|, op)
    decreases |ops|
  {
    if ops == [] then o else StrobeRun(StrobeOp(o, ops[0]), ops[1..])
  }

  function SizeRun(o: Outcome, ops: seq<Op>): Outcome
    requires forall op <- ops :: Proper(|o.ram|, op)
    decreases |ops|
  {
    if ops == [] then o else SizeRun(SizeOp(o, ops[0]), ops[1..])
  }

  lemma OpsAgree(o: Outcome, op: Op)
    requires Proper(|o.ram|, op)
    ensures StrobeOp(o, op) == FlatOp(o, op) && SizeOp(o, op) == FlatOp(o, op)
  {
    AlignedAccess(o.ram, op.ty, op.addr);
    hide FlatLoad, FlatStore, ByStrobes, ByAddress, StoreData, ByteEnable, LoadData, WordAt, Align, Misaligned, Size,
         Wrap;
    match op {
      case LoadOp(ty, addr) => LoadsAgree(o.ram, ty, addr);
      case StoreOp(ty, addr, data) => StoresAgree(o.ram, ty, addr, data);
    }
  }

  /** For every program of aligned, in-range byte, halfword and word accesses, the three memories
      end with the same bytes and every load returns the same value. */
  lemma {:induction false} ViewsAgree(o: Outcome, ops: seq<Op>)
    requires forall op <- ops :: Proper(|o.ram|, op)
    ensures StrobeRun(o, ops) == FlatRun(o, ops) && SizeRun(o, ops) == FlatRun(o, ops)
    decreases |ops|
  {
    hide FlatOp, StrobeOp, SizeOp, Proper;
    if ops != [] {
      OpsAgree(o, ops[0]);
      ViewsAgree(FlatOp(o, ops[0]), ops[1..]);
    }
  }

  // ---- The implementations -----------------------------------------------------------------

  /** data_memory.sv */
  class DataMemory {
    const mem: array<Octet>

    constructor (bytes: nat)
      ensures fresh(mem) && mem.Length == bytes && forall k :: 0 <= k < bytes ==> mem[k] == 0
    {
      mem := new Octet[bytes](_ => 0);
    }

    /** Beyond the last byte a read floats: `floating` is whatever the missing lanes show. */
    method Read(re: bool, addr: Word, floating: Word) returns (rdata: Word)
      ensures !re ==> rdata == 0
      ensures re && Mapped(mem[..], addr) ==> rdata == WordAt(mem[..], addr)
      ensures re ==> forall lane :: 0 <= lane < 4 ==>
        Byte(rdata, lane) == if Align(addr) + lane < mem.Length then mem[Align(addr) + lane] else Byte(floating, lane)
    {
      if !re { return 0; }
      var a := Align(addr);
      var b0 := if a < mem.Length then mem[a] else Byte(floating, 0);
      var b1 := if a + 1 < mem.Length then mem[a + 1] else Byte(floating, 1);
      var b2 := if a + 2 < mem.Length then mem[a + 2] else Byte(floating, 2);
      var b3 := if a + 3 < mem.Length then mem[a + 3] else Byte(floating, 3);
      rdata := Quad(b0, b1, b2, b3);
      QuadLanes(b0, b1, b2, b3);
      hide Byte, Quad, Align;
    }

    /** A lane beyond the last byte is not written. */
    method Tick(we: bool, addr: Word, wdata: Word, wstrb: Strobes)
      modifies mem
      ensures mem[..] == if we then Stored(old(mem[..]), addr, wdata, wstrb, 4) else old(mem[..])
    {
      hide Byte, Strobed, Align;
      if we {
        for lane := 0 to 4
          invariant mem[..] == Stored(old(mem[..]), addr, wdata, wstrb, lane)
        {
          if Strobed(wstrb, lane) && Align(addr) + lane < mem.Length { mem[Align(addr) + lane] := Byte(wdata, lane); }
        }
      }
    }
  }

  /** NativeMemory of native_memory.py. */
  class NativeMemory {
    const data: array<Octet>
    var storeCount: nat

    constructor (size: nat)
      ensures fresh(data) && data.Length == size && storeCount == 0
    {
      data := new Octet[size](_ => 0);
      storeCount := 0;
    }

    /** The memory-mapped hook answers first, if it has an answer; outside the memory a read returns zero. */
    method ReadWord(addr: Word, mmio: Option<Word>) returns (r: Word)
      ensures mmio.Some? ==> r == mmio.value
      ensures mmio == None ==> r == if Mapped(data[..], addr) then WordAt(data[..], addr) else 0
    {
      if mmio.Some? { return mmio.value; }
      var a := Align(addr);
      if a + 4 > data.Length { return 0; }
      r := Quad(data[a], data[a + 1], data[a + 2], data[a + 3]);
    }

    /** A write the memory-mapped hook takes is only counted; outside the memory a write is an error, and
        writes nothing. */
    method Write(addr: Word, wdata: Word, strobes: Strobes, mmio: bool) returns (ok: bool)
      modifies this, data
      ensures ok == (mmio || Mapped(old(data[..]), addr))
      ensures data[..]
           == if ok && !mmio then ByStrobes(old(data[..]), addr, wdata, strobes, 4) else old(data[..])
      ensures storeCount == old(storeCount) + if ok then 1 else 0
    {
      hide Byte, Strobed, Align;
      if mmio {
        storeCount := storeCount + 1;
        return true;
      }
      if Align(addr) + 4 > data.Length { return false; }
      for lane := 0 to 4
        invariant data[..] == ByStrobes(old(data[..]), addr, wdata, strobes, lane)
        invariant storeCount == old(storeCount)
      {
        if Strobed(strobes, lane) { data[Align(addr) + lane] := Byte(wdata, lane); }
      }
      storeCount := storeCount + 1;
      ok := true;
    }
  }

  /** AHBLiteMemory of ahb_memory.py. */
  class AhbMemory {
    const data: array<Octet>
    const instructionPort: bool
    var storeCount: nat

    constructor (size: nat, instructionPort: bool)
      ensures fresh(data) && data.Length == size && storeCount == 0 && this.instructionPort == instructionPort
    {
      data := new Octet[size](_ => 0);
      storeCount := 0;
      this.instructionPort := instructionPort;
    }

    /** Outside the memory a fetch returns a NOP and a read zero. */
    method ReadWord(addr: Word) returns (r: Word)
      ensures r == if Mapped(data[..], addr) then WordAt(data[..], addr) else if instructionPort then 0x13 else 0
    {
      var a := Align(addr);
      if a + 4 > data.Length { return if instructionPort then 0x13 else 0; }
      r := Quad(data[a], data[a + 1], data[a + 2], data[a + 3]);
    }

    /** Outside the memory a write is an error, and writes nothing. */
    method Write(addr: Word, size: nat, wdata: Word) returns (ok: bool)
      requires size <= 2
      modifies this, data
      ensures ok == (addr + Width(size) <= data.Length)
      ensures data[..] == if ok then ByAddress(old(data[..]), addr, wdata, Width(size)) else old(data[..])
      ensures storeCount == old(storeCount) + if ok then 1 else 0
    {
      hide Byte;
      var width := Width(size);
      if addr + width > data.Length { return false; }
      for offset := 0 to width
        invariant data[..] == ByAddress(old(data[..]), addr, wdata, offset)
        invariant storeCount == old(storeCount)
      {
        data[addr + offset] := Byte(wdata, (addr + offset) % 4);
      }
      storeCount := storeCount + 1;
      ok := true;
    }
  }
}
