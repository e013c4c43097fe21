/** Machine words of the core (N = 32), register names, and the few pieces of
    two's-complement arithmetic that every other module shares. */
module Words {

  const WORD := 0x1_0000_0000

  type Word = w: nat | w < 0x1_0000_0000
  type Half = h: nat | h < 0x1_0000
  type Dword = d: nat | d < 0x1_0000_0000_0000_0000
  type Reg = r: nat | r < 32

  datatype Option<+T> = None | Some(value: T)

  /** Truncation to 32 bits. */
  function Wrap(x: int): Word {
    x % 0x1_0000_0000
  }

  /** The two's-complement reading of a word. */
  function Signed(w: Word): int {
    if w < 0x8000_0000 then w else w - 0x1_0000_0000
  }

  /** Sign extension of a `width`-bit field whose sign weight is `half`. */
  function SignExtend(field: nat, half: nat): Word
    requires 0 < half <= 0x8000_0000 && field < 2 * half
  {
    if field < half then field else Wrap(field - 2 * half)
  }

  function Align(a: Word): Word {
    a - a % 4
  }

  /** Bit 1 of an address: which halfword of the bus word it names. */
  predicate UpperHalf(a: Word) {
    a % 4 >= 2
  }

  // The register file as software sees it: x0 reads as zero whatever is stored.

  type RegFile = s: seq<Word> | |s| == 32 witness seq(32, _ => 0)

  function Get(x: RegFile, r: Reg): Word {
    if r == 0 then 0 else x[r]
  }

  function Put(x: RegFile, r: Reg, v: Word): RegFile {
    if r == 0 then x else x[r := v]
  }
}
