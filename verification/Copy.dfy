/** The copy loops of utils.c: words of four bytes while more than four are left, then bytes, all within one memory. */
module Copy {
  import opened Machine

  /** The word that starts at p is read, and then written at q. */
  function PutWord(mem: seq<Byte>, p: int, q: int): (mem': seq<Byte>)
    requires 0 <= p <= |mem| - 4 && 0 <= q <= |mem| - 4
    ensures |mem'| == |mem|
    ensures forall i :: 0 <= i < |mem| ==> mem'[i] == if q <= i < q + 4 then mem[p + i - q] else mem[i]
  {
    mem[q := mem[p]][q + 1 := mem[p + 1]][q + 2 := mem[p + 2]][q + 3 := mem[p + 3]]
  }

  ghost predicate Fits(mem: seq<Byte>, p: int, q: int, size: int) {
    0 < size ==> 0 <= p <= |mem| - size && 0 <= q <= |mem| - size
  }

  function ByteLoop(mem: seq<Byte>, p: int, q: int, size: int): (mem': seq<Byte>)
    requires Fits(mem, p, q, size)
    ensures |mem'| == |mem|
    decreases size
  {
    if size > 0 then ByteLoop(mem[q := mem[p]], p + 1, q + 1, size - 1) else mem
  }

  function WordLoop(mem: seq<Byte>, p: int, q: int, size: int): (mem': seq<Byte>)
    requires Fits(mem, p, q, size)
    ensures |mem'| == |mem|
    decreases size
  {
    if size > 4 then WordLoop(PutWord(mem, p, q), p + 4, q + 4, size - 4) else ByteLoop(mem, p, q, size)
  }

  /** copy_data; copy_from_user and copy_to_user have the same body. */
  method CopyData(mem: array<Byte>, start: int, dest: int, size: int)
    requires Fits(mem[..], start, dest, size)
    modifies mem
    ensures mem[..] == WordLoop(old(mem[..]), start, dest, size)
  {
    var p, q, n := start, dest, size;
    while n > 4
      invariant Fits(mem[..], p, q, n)
      invariant WordLoop(mem[..], p, q, n) == WordLoop(old(mem[..]), start, dest, size)
    {
      ghost var before := mem[..];
      mem[q], mem[q + 1], mem[q + 2], mem[q + 3] := mem[p], mem[p + 1], mem[p + 2], mem[p + 3];
      assert mem[..] == PutWord(before, p, q);
      p, q, n := p + 4, q + 4, n - 4;
    }
    while n > 0
      invariant Fits(mem[..], p, q, n)
      invariant ByteLoop(mem[..], p, q, n) == WordLoop(old(mem[..]), start, dest, size)
    {
      ghost var before := mem[..];
      mem[q] := mem[p];
      assert mem[..] == before[q := before[p]];
      p, q, n := p + 1, q + 1, n - 1;
    }
  }

  // ---------- what a copy should be ----------

  /** The byte that belongs at place i after a copy. */
  function Due(mem: seq<Byte>, start: int, dest: int, size: int, i: int): Byte
    requires Fits(mem, start, dest, size) && 0 <= i < |mem|
  {
    if dest <= i < dest + size then mem[start + i - dest] else mem[i]
  }

  /** The bytes from dest on are those that were at start; all others are as they were. */
  ghost predicate Copied(mem: seq<Byte>, mem': seq<Byte>, start: int, dest: int, size: int)
    requires Fits(mem, start, dest, size)
  {
    && |mem'| == |mem|
    && forall i :: 0 <= i < |mem| ==> mem'[i] == Due(mem, start, dest, size, i)
  }

  /** The destination starts inside the source, after its first byte. */
  predicate StartsInside(start: int, dest: int, size: int) {
    start < dest < start + size
  }

  /** Nothing but the destination is written, however the two overlap. */
  lemma {:induction false} OnlyDestination(mem: seq<Byte>, p: int, q: int, size: int, i: int)
    requires Fits(mem, p, q, size) && 0 <= i < |mem| && !(q <= i < q + size)
    ensures WordLoop(mem, p, q, size)[i] == mem[i] && ByteLoop(mem, p, q, size)[i] == mem[i]
    decreases size
  {
    if size > 0 { OnlyDestination(mem[q := mem[p]], p + 1, q + 1, size - 1, i); }
    if size > 4 { OnlyDestination(PutWord(mem, p, q), p + 4, q + 4, size - 4, i); }
  }

  /** What is left to copy is not disturbed by the first n bytes copied. */
  lemma CopiedThen(mem: seq<Byte>, mem1: seq<Byte>, mem2: seq<Byte>, p: int, q: int, n: int, size: int)
    requires Fits(mem, p, q, size) && !StartsInside(p, q, size) && 0 <= n <= size && Copied(mem, mem1, p, q, n)
    requires Copied(mem1, mem2, p + n, q + n, size - n)
    ensures Copied(mem, mem2, p, q, size)
  {
    forall i | 0 <= i < |mem| ensures mem2[i] == Due(mem, p, q, size, i) {
      if q + n <= i < q + size {
        assert mem2[i] == Due(mem1, p + n, q + n, size - n, i) == mem1[p + i - q];
        assert mem1[p + i - q] == Due(mem, p, q, n, p + i - q);
      } else {
        assert mem2[i] == mem1[i];
      }
    }
  }

  lemma {:induction false} BytesCopy(mem: seq<Byte>, p: int, q: int, size: int)
    requires Fits(mem, p, q, size) && !StartsInside(p, q, size)
    ensures Copied(mem, ByteLoop(mem, p, q, size), p, q, size)
    decreases size
  {
    if size > 0 {
      var mem1 := mem[q := mem[p]];
      assert Copied(mem, mem1, p, q, 1);
      BytesCopy(mem1, p + 1, q + 1, size - 1);
      CopiedThen(mem, mem1, ByteLoop(mem, p, q, size), p, q, 1, size);
    }
  }

  lemma {:induction false} ApartCopies(mem: seq<Byte>, p: int, q: int, size: int)
    requires Fits(mem, p, q, size) && !StartsInside(p, q, size)
    ensures Copied(mem, WordLoop(mem, p, q, size), p, q, size)
    decreases size
  {
    if size > 4 {
      var mem1 := PutWord(mem, p, q);
      assert Copied(mem, mem1, p, q, 4);
      ApartCopies(mem1, p + 4, q + 4, size - 4);
      CopiedThen(mem, mem1, WordLoop(mem, p, q, size), p, q, 4, size);
    } else {
      BytesCopy(mem, p, q, size);
    }
  }

  /** The first offset whose byte is overwritten before it is read. */
  function FirstLost(start: int, dest: int, size: int): int {
    if size > 4 && dest - start < 4 then 4 else dest - start
  }

  /** With the destination d >= 4 bytes into the source, or no words to copy, a byte is the one found d before it. */
  lemma {:induction false} Echoes(mem: seq<Byte>, p: int, q: int, size: int, j: int)
    requires Fits(mem, p, q, size) && p < q && (q - p >= 4 || size <= 4) && 0 <= j < size
    ensures WordLoop(mem, p, q, size)[q + j] == WordLoop(mem, p, q, size)[p + j]
    decreases size
  {
    if size > 4 {
      var mem1 := PutWord(mem, p, q);
      if j >= 4 {
        Echoes(mem1, p + 4, q + 4, size - 4, j - 4);
      } else {
        FirstWordStays(mem1, p + 4, q + 4, size - 4, q + j);
        FirstWordStays(mem1, p + 4, q + 4, size - 4, p + j);
      }
    } else {
      EchoesBytes(mem, p, q, size, j);
    }
  }

  lemma FirstWordStays(mem: seq<Byte>, p: int, q: int, size: int, i: int)
    requires Fits(mem, p, q, size) && 0 <= i < |mem| && i < q
    ensures WordLoop(mem, p, q, size)[i] == mem[i]
  {
    OnlyDestination(mem, p, q, size, i);
  }

  lemma {:induction false} EchoesBytes(mem: seq<Byte>, p: int, q: int, size: int, j: int)
    requires Fits(mem, p, q, size) && p < q && size <= 4 && 0 <= j < size
    ensures ByteLoop(mem, p, q, size)[q + j] == ByteLoop(mem, p, q, size)[p + j]
    decreases size
  {
    var mem1 := mem[q := mem[p]];
    if j >= 1 {
      EchoesBytes(mem1, p + 1, q + 1, size - 1, j - 1);
    } else {
      OnlyDestination(mem1, p + 1, q + 1, size - 1, q);
      OnlyDestination(mem1, p + 1, q + 1, size - 1, p);
    }
  }

  /** When the destination starts inside the source, the byte at offset FirstLost is a copy of an earlier one. */
  lemma LostByte(mem: seq<Byte>, p: int, q: int, size: int)
    requires Fits(mem, p, q, size) && StartsInside(p, q, size)
    ensures var k := FirstLost(p, q, size);
      0 < q - p <= k < size && WordLoop(mem, p, q, size)[q + k] == mem[p + k - (q - p)]
  {
    if size > 4 && q - p < 4 {
      NearWord(mem, p, q, size);
    } else {
      Echoes(mem, p, q, size, q - p);
      Echoes(mem, p, q, size, 0);
      OnlyDestination(mem, p, q, size, p);
    }
  }

  lemma NearWord(mem: seq<Byte>, p: int, q: int, size: int)
    requires Fits(mem, p, q, size) && size > 4 && 0 < q - p < 4
    ensures WordLoop(mem, p, q, size)[q + 4] == mem[p + 4 - (q - p)]
  {
    var mem1 := PutWord(mem, p, q);
    if size - 4 > 4 {
      OnlyDestination(PutWord(mem1, p + 4, q + 4), p + 8, q + 8, size - 8, q + 4);
    } else {
      OnlyDestination(mem1[q + 4 := mem1[p + 4]], p + 5, q + 5, size - 5, q + 4);
    }
  }

  lemma NotCopied(n: nat, start: int, dest: int, size: int) returns (mem: seq<Byte>)
    requires 0 <= start <= n - size && 0 <= dest <= n - size && StartsInside(start, dest, size)
    ensures |mem| == n && !Copied(mem, WordLoop(mem, start, dest, size), start, dest, size)
  {
    var k := FirstLost(start, dest, size);
    mem := seq(n, i => if i == start + k then 1 else 0);
    var mem' := WordLoop(mem, start, dest, size);
    LostByte(mem, start, dest, size);
    assert mem'[dest + k] == 0;
    assert start + (dest + k) - dest == start + k && mem[start + k] == 1;
  }

  /** copy_data copies whatever the memory holds if and only if the destination does not start inside the source. */
  lemma CopiesExactlyWhen(n: nat, start: int, dest: int, size: int)
    requires 0 < size ==> 0 <= start <= n - size && 0 <= dest <= n - size
    ensures (forall mem: seq<Byte> :: |mem| == n ==> Copied(mem, WordLoop(mem, start, dest, size), start, dest, size))
      <==> !StartsInside(start, dest, size)
  {
    if StartsInside(start, dest, size) {
      var mem := NotCopied(n, start, dest, size);
    } else {
      forall mem: seq<Byte> | |mem| == n ensures Copied(mem, WordLoop(mem, start, dest, size), start, dest, size) {
        ApartCopies(mem, start, dest, size);
      }
    }
  }

  // ---------- copying a page ----------

  const PAGE_SIZE: int := 4096

  /** Byte k of a word, lowest first. */
  function ByteOfWord(w: Word, k: int): Byte
    requires 0 <= k < 4
  {
    var u := ToUint32(w);
    (if k == 0 then u % 0x100 else if k == 1 then u / 0x100 % 0x100 else if k == 2 then u / 0x1_0000 % 0x100
      else u / 0x100_0000) as Byte
  }

  function ByteOfPage(p: Page, o: int): Byte
    requires 0 <= o < PAGE_SIZE
  {
    ByteOfWord(p[o / 4], o % 4)
  }

  /** Memory, byte by byte. */
  function Bytes(ram: seq<Page>): (mem: seq<Byte>)
    ensures |mem| == PAGE_SIZE * |ram|
  {
    seq(PAGE_SIZE * |ram|, i requires 0 <= i < PAGE_SIZE * |ram| => ByteOfPage(ram[i / PAGE_SIZE], i % PAGE_SIZE))
  }

  lemma ByteAt(ram: seq<Page>, f: int, o: int)
    requires 0 <= f < |ram| && 0 <= o < PAGE_SIZE
    ensures 0 <= 4096 * f + o < 4096 * |ram| && Bytes(ram)[4096 * f + o] == ByteOfPage(ram[f], o)
  {
    assert (4096 * f + o) / 4096 == f && (4096 * f + o) % 4096 == o;
  }

  /** The bytes of a page lie together. */
  lemma PageSpan(n: nat, f: int, o: int)
    requires 0 <= f < n && 0 <= o < PAGE_SIZE
    ensures 0 <= 4096 * f <= 4096 * n - 4096
  {
  }

  lemma PageByteDue(ram: seq<Page>, src: int, dst: int, f: int, o: int)
    requires 0 <= src < |ram| && 0 <= dst < |ram| && 0 <= f < |ram| && 0 <= o < PAGE_SIZE
    requires Fits(Bytes(ram), 4096 * src, 4096 * dst, 4096)
    ensures 0 <= 4096 * f + o < |Bytes(ram)| == |Bytes(ram[dst := ram[src]])|
    ensures Bytes(ram[dst := ram[src]])[4096 * f + o] == Due(Bytes(ram), 4096 * src, 4096 * dst, 4096, 4096 * f + o)
  {
    ByteAt(ram[dst := ram[src]], f, o);
    ByteAt(ram, f, o);
    ByteAt(ram, src, o);
  }

  lemma PageIsDue(ram: seq<Page>, src: int, dst: int)
    requires 0 <= src < |ram| && 0 <= dst < |ram|
    ensures Fits(Bytes(ram), 4096 * src, 4096 * dst, 4096)
    ensures Copied(Bytes(ram), Bytes(ram[dst := ram[src]]), 4096 * src, 4096 * dst, 4096)
  {
    PageSpan(|ram|, src, 0);
    PageSpan(|ram|, dst, 0);
    forall i | 0 <= i < 4096 * |ram|
      ensures Bytes(ram[dst := ram[src]])[i] == Due(Bytes(ram), 4096 * src, 4096 * dst, 4096, i)
    {
      var f, o := i / 4096, i % 4096;
      PageByteDue(ram, src, dst, f, o);
      assert i == 4096 * f + o;
    }
  }

  /** copy_data of one page to another, as fork does it, is what a copy of the page should be. */
  lemma PageIsCopied(ram: seq<Page>, src: int, dst: int)
    requires 0 <= src < |ram| && 0 <= dst < |ram|
    ensures Fits(Bytes(ram), PAGE_SIZE * src, PAGE_SIZE * dst, PAGE_SIZE)
    ensures WordLoop(Bytes(ram), PAGE_SIZE * src, PAGE_SIZE * dst, PAGE_SIZE) == Bytes(ram[dst := ram[src]])
  {
    var mem := Bytes(ram);
    PageIsDue(ram, src, dst);
    PagesApart(src, dst);
    ApartCopies(mem, 4096 * src, 4096 * dst, 4096);
    SameCopies(mem, WordLoop(mem, 4096 * src, 4096 * dst, 4096), Bytes(ram[dst := ram[src]]), 4096 * src, 4096 * dst,
      4096);
  }

  lemma PagesApart(src: int, dst: int)
    ensures !StartsInside(4096 * src, 4096 * dst, 4096)
  {
  }

  /** There is only one way to copy. */
  lemma SameCopies(mem: seq<Byte>, a: seq<Byte>, b: seq<Byte>, start: int, dest: int, size: int)
    requires Fits(mem, start, dest, size) && Copied(mem, a, start, dest, size) && Copied(mem, b, start, dest, size)
    ensures a == b
  {
    assert forall i :: 0 <= i < |a| ==> a[i] == b[i];
  }
}
