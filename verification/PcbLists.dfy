/**
 * The list nodes inside task_structs, where they are in memory: each is two words of the frame of its PCB, and
 * list_add_tail and list_del write wherever these words lead, whatever that frame is used for by then.
 */
module PcbLists {
  import opened Machine

  type Index = i: int | 0 <= i < PT_ENTRIES

  /** The address of a word: its frame, and its place in the frame. */
  datatype Place = Place(frame: Bits20, index: Index)

  /** The words of a task_struct. A list_head is two of them: `next`, and then `prev`. */
  const LIST: Index := 2
  const PENDING_UNBLOCKS: Index := 4
  const CHILDREN_BLOCKED: Index := 5
  const CHILDREN_UNBLOCKED: Index := 7
  const SIBILING: Index := 9
  const PARENT: Index := 13
  const TASK_LIST: Index := 14

  /** The null pointer is the address of the first word of all. */
  const NULL: Place := Place(0, 0)

  function Pointer(p: Place): Word {
    Word(false, false, p.index % 2 == 1, p.index / 2, p.frame)
  }

  function Target(w: Word): Place {
    Place(w.base, 2 * w.flags + BitValue(w.user, 1))
  }

  /** A pointer is the address of its place in bytes. It never has the bit that makes an entry present. */
  lemma PointersAreAddresses(p: Place)
    ensures Target(Pointer(p)) == p && !Pointer(p).present
    ensures ToUint32(Pointer(p)) == 4096 * p.frame + 4 * p.index
    ensures Pointer(p) == ZERO_WORD <==> p == NULL
  {
  }

  lemma PointerBack(p: Place)
    ensures Target(Pointer(p)) == p && (Pointer(p) == ZERO_WORD <==> p == NULL)
  {
  }

  /** The place k words further on. */
  function Plus(p: Place, k: Index): Place {
    if p.index + k < PT_ENTRIES then Place(p.frame, p.index + k)
    else Place(if p.frame == 0xF_FFFF then 0 else p.frame + 1, p.index + k - PT_ENTRIES)
  }

  function ToFrame(f: int): Bits20 {
    if 0 <= f < 0x10_0000 then f else f % 0x10_0000
  }

  /** A member of the task_struct in frame f. */
  function Member(f: int, k: Index): Place {
    Place(ToFrame(f), k)
  }

  function WordAt(ram: seq<Page>, p: Place): Word {
    if p.frame < |ram| then ram[p.frame][p.index] else ZERO_WORD
  }

  function Put(ram: seq<Page>, p: Place, w: Word): (ram': seq<Page>)
    ensures |ram'| == |ram|
  {
    if p.frame < |ram| then ram[p.frame := ram[p.frame][p.index := w]] else ram
  }

  /** What is read at q after a word was written at p. */
  lemma WordAfterPut(ram: seq<Page>, p: Place, w: Word, q: Place)
    ensures WordAt(Put(ram, p, w), q) == if p == q && p.frame < |ram| then w else WordAt(ram, q)
  {
  }

  function Next(ram: seq<Page>, p: Place): Place {
    Target(WordAt(ram, p))
  }

  function Prev(ram: seq<Page>, p: Place): Place {
    Target(WordAt(ram, Plus(p, 1)))
  }

  // ---------- list.c, on words ----------

  /** INIT_LIST_HEAD */
  function InitHead(ram: seq<Page>, h: Place): seq<Page> {
    Put(Put(ram, h, Pointer(h)), Plus(h, 1), Pointer(h))
  }

  /** The four writes of list_add_tail, in their order. */
  function AddTail(ram: seq<Page>, n: Place, h: Place): (ram': seq<Page>)
    ensures |ram'| == |ram|
  {
    var last := Prev(ram, h);
    Put(Put(Put(Put(ram, Plus(h, 1), Pointer(n)), n, Pointer(h)), Plus(n, 1), Pointer(last)), last, Pointer(n))
  }

  /** The four writes of list_del, in their order. */
  function Del(ram: seq<Page>, e: Place): (ram': seq<Page>)
    ensures |ram'| == |ram|
  {
    var next, prev := Next(ram, e), Prev(ram, e);
    Put(Put(Put(Put(ram, Plus(next, 1), Pointer(prev)), prev, Pointer(next)), e, ZERO_WORD), Plus(e, 1), ZERO_WORD)
  }

  /** The words that list_add_tail writes. */
  function AddTailHits(ram: seq<Page>, n: Place, h: Place): set<Place> {
    {Plus(h, 1), n, Plus(n, 1), Prev(ram, h)}
  }

  /** The words that list_del writes. */
  function DelHits(ram: seq<Page>, e: Place): set<Place> {
    {Plus(Next(ram, e), 1), Prev(ram, e), e, Plus(e, 1)}
  }

  /** Only the words in `hits` differ. */
  ghost predicate Within(ram: seq<Page>, ram': seq<Page>, hits: set<Place>) {
    |ram'| == |ram| && forall p: Place :: p !in hits ==> WordAt(ram', p) == WordAt(ram, p)
  }

  lemma PutStaysWithin(ram: seq<Page>, ram0: seq<Page>, p: Place, w: Word, hits: set<Place>)
    requires Within(ram0, ram, hits) && p in hits
    ensures Within(ram0, Put(ram, p, w), hits)
  {
    forall q: Place | q !in hits ensures WordAt(Put(ram, p, w), q) == WordAt(ram0, q) {
      WordAfterPut(ram, p, w, q);
    }
  }

  lemma AddTailStaysWithin(ram: seq<Page>, n: Place, h: Place)
    ensures Within(ram, AddTail(ram, n, h), AddTailHits(ram, n, h))
  {
    var last, hits := Prev(ram, h), AddTailHits(ram, n, h);
    var ram1 := Put(ram, Plus(h, 1), Pointer(n));
    var ram2 := Put(ram1, n, Pointer(h));
    var ram3 := Put(ram2, Plus(n, 1), Pointer(last));
    PutStaysWithin(ram, ram, Plus(h, 1), Pointer(n), hits);
    PutStaysWithin(ram1, ram, n, Pointer(h), hits);
    PutStaysWithin(ram2, ram, Plus(n, 1), Pointer(last), hits);
    PutStaysWithin(ram3, ram, last, Pointer(n), hits);
  }

  lemma DelStaysWithin(ram: seq<Page>, e: Place)
    ensures Within(ram, Del(ram, e), DelHits(ram, e))
  {
    var next, prev, hits := Next(ram, e), Prev(ram, e), DelHits(ram, e);
    var ram1 := Put(ram, Plus(next, 1), Pointer(prev));
    var ram2 := Put(ram1, prev, Pointer(next));
    var ram3 := Put(ram2, e, ZERO_WORD);
    PutStaysWithin(ram, ram, Plus(next, 1), Pointer(prev), hits);
    PutStaysWithin(ram1, ram, prev, Pointer(next), hits);
    PutStaysWithin(ram2, ram, e, ZERO_WORD, hits);
    PutStaysWithin(ram3, ram, Plus(e, 1), ZERO_WORD, hits);
  }

  lemma InitStaysWithin(ram: seq<Page>, h: Place)
    ensures Within(ram, InitHead(ram, h), {h, Plus(h, 1)})
  {
    PutStaysWithin(ram, ram, h, Pointer(h), {h, Plus(h, 1)});
    PutStaysWithin(Put(ram, h, Pointer(h)), ram, Plus(h, 1), Pointer(h), {h, Plus(h, 1)});
  }

  lemma WithinChains(ram: seq<Page>, ram1: seq<Page>, ram2: seq<Page>, a: set<Place>, b: set<Place>)
    requires Within(ram, ram1, a) && Within(ram1, ram2, b)
    ensures Within(ram, ram2, a + b)
  {
  }

  /** A frame in which no word is written is the same page. */
  lemma SamePage(ram: seq<Page>, ram': seq<Page>, hits: set<Place>, f: int)
    requires Within(ram, ram', hits) && 0 <= f < |ram| && f < 0x10_0000
    requires forall p: Place :: p in hits ==> p.frame != f
    ensures ram'[f] == ram[f]
  {
    forall i | 0 <= i < PT_ENTRIES ensures ram'[f][i] == ram[f][i] {
      assert WordAt(ram', Place(f, i)) == WordAt(ram, Place(f, i));
    }
  }

  // ---------- what the writes leave to be read ----------

  lemma {:induction false} AddTailReads(ram: seq<Page>, n: Place, h: Place, q: Place)
    requires n.frame < |ram| && Plus(n, 1).frame < |ram| && Plus(h, 1).frame < |ram| && Prev(ram, h).frame < |ram|
    ensures WordAt(AddTail(ram, n, h), q) ==
      if q == Prev(ram, h) then Pointer(n)
      else if q == Plus(n, 1) then Pointer(Prev(ram, h))
      else if q == n then Pointer(h)
      else if q == Plus(h, 1) then Pointer(n)
      else WordAt(ram, q)
  {
  }

  lemma {:induction false} DelReads(ram: seq<Page>, e: Place, q: Place)
    requires e.frame < |ram| && Plus(e, 1).frame < |ram|
    requires Plus(Next(ram, e), 1).frame < |ram| && Prev(ram, e).frame < |ram|
    ensures WordAt(Del(ram, e), q) ==
      if q == Plus(e, 1) || q == e then ZERO_WORD
      else if q == Prev(ram, e) then Pointer(Next(ram, e))
      else if q == Plus(Next(ram, e), 1) then Pointer(Prev(ram, e))
      else WordAt(ram, q)
  {
  }

  /** The same for a word that is in memory, wherever the links lead. */
  lemma DelReadsAt(ram: seq<Page>, e: Place, q: Place)
    requires q.frame < |ram|
    ensures WordAt(Del(ram, e), q) ==
      if q == Plus(e, 1) || q == e then ZERO_WORD
      else if q == Prev(ram, e) then Pointer(Next(ram, e))
      else if q == Plus(Next(ram, e), 1) then Pointer(Prev(ram, e))
      else WordAt(ram, q)
  {
    var next, prev := Next(ram, e), Prev(ram, e);
    var ram1 := Put(ram, Plus(next, 1), Pointer(prev));
    var ram2 := Put(ram1, prev, Pointer(next));
    var ram3 := Put(ram2, e, ZERO_WORD);
    WordAfterPut(ram, Plus(next, 1), Pointer(prev), q);
    WordAfterPut(ram1, prev, Pointer(next), q);
    WordAfterPut(ram2, e, ZERO_WORD, q);
    WordAfterPut(ram3, Plus(e, 1), ZERO_WORD, q);
  }

  // ---------- walking ----------

  /** Where n steps of list_for_each lead to from p. */
  function Walk(ram: seq<Page>, p: Place, n: nat): Place
    decreases n
  {
    if n == 0 then p else Walk(ram, Next(ram, p), n - 1)
  }

  /**
   * A node that is already the last of a list is added to it again: it then follows itself, and a walk that comes to it
   * never gets back to the head.
   */
  lemma AddedTwice(ram: seq<Page>, n: Place, h: Place, k: nat)
    requires n.frame < |ram| && Plus(n, 1).frame < |ram| && Plus(h, 1).frame < |ram|
    requires Prev(ram, h) == n
    ensures Walk(AddTail(ram, n, h), n, k) == n
    decreases k
  {
    AddTailReads(ram, n, h, n);
    PointersAreAddresses(n);
    if k > 0 { AddedTwice(ram, n, h, k - 1); }
  }
}
