/** The machine as the kernel sees it: sizes, error numbers, 32-bit words and page-table entries. */
module Machine {

  const TOTAL_PAGES: int := 2048
  const PT_ENTRIES: int := 1024
  const NUM_PAG_CODE: int := 8
  const NUM_PAG_DATA: int := 20
  const NUM_SHARED_PAGES: int := 10
  const USER_START_PAGE: int := 0x800

  /** The first index of a user table that can hold a shared page. */
  const FIRST_SHARED: int := NUM_PAG_DATA + NUM_PAG_CODE

  /** One PCB, one directory, one user table and the data pages. */
  const FRAMES_PER_TASK: int := 3 + NUM_PAG_DATA

  const TWO_32: int := 0x1_0000_0000

  const EAGAIN: int := 11
  const ENOMEM: int := 12
  const EFAULT: int := 14
  const EINVAL: int := 22

  const FREE_FRAME: Byte := 0
  const USED_FRAME: Byte := 1

  newtype Byte = b: int | 0 <= b < 0x100
  type Bits20 = b: int | 0 <= b < 0x10_0000
  type Bits9 = b: int | 0 <= b < 0x200
  type Uint32 = u: int | 0 <= u < TWO_32

  /** Every 32-bit word, seen through the bit-fields of a page-table entry; `flags` are the bits 3 to 11. */
  datatype Word = Word(present: bool, rw: bool, user: bool, flags: Bits9, base: Bits20)

  const ZERO_WORD: Word := Word(false, false, false, 0, 0)

  type Page = p: seq<Word> | |p| == PT_ENTRIES witness seq(PT_ENTRIES, i => ZERO_WORD)

  function ZeroPage(): (p: Page)
    ensures forall i :: 0 <= i < PT_ENTRIES ==> p[i] == ZERO_WORD
  {
    seq(PT_ENTRIES, i => ZERO_WORD)
  }

  function BitValue(b: bool, weight: nat): nat { if b then weight else 0 }

  /** The number a word stands for. */
  function ToUint32(w: Word): Uint32 {
    BitValue(w.present, 1) + BitValue(w.rw, 2) + BitValue(w.user, 4) + 8 * w.flags + 4096 * w.base
  }

  function FromUint32(u: Uint32): Word {
    Word(u % 2 == 1, u / 2 % 2 == 1, u / 4 % 2 == 1, u / 8 % 512, u / 4096)
  }

  lemma Split(bit: int, rest: int, n: int)
    requires n == bit + 2 * rest && 0 <= bit < 2
    ensures n / 2 == rest && n % 2 == bit
  {
  }

  /** The bit-field view loses nothing: it is a bijection with the 32-bit numbers. */
  lemma WordsAreNumbers(w: Word, u: Uint32)
    ensures FromUint32(ToUint32(w)) == w
    ensures ToUint32(FromUint32(u)) == u
    ensures ToUint32(ZERO_WORD) == 0
  {
    var n := ToUint32(w);
    var n8 := w.flags + 512 * w.base;
    var n4 := BitValue(w.user, 1) + 2 * n8;
    var n2 := BitValue(w.rw, 1) + 2 * n4;
    Split(BitValue(w.present, 1), n2, n);
    Split(BitValue(w.rw, 1), n4, n2);
    Split(BitValue(w.user, 1), n8, n4);
    Quarter(n);
    Quarter(u);
  }

  lemma Quarter(n: int)
    requires 0 <= n
    ensures n / 4 == n / 2 / 2 && n / 8 == n / 2 / 2 / 2 && n / 4096 == n / 8 / 512
  {
  }

  /** The entry that set_ss_pag writes. */
  function Pte(frame: Bits20, user: bool): Word {
    Word(true, true, user, 0, frame)
  }
}
