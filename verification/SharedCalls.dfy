/** What shmat, shmdt and shmrm answer, and all that they change, by the state before the call. */
module SharedCalls {
  import opened Machine
  import opened Memory
  import opened MemoryInvariant
  import opened MemoryTheorems
  import opened Reclaim

  // ---------- shmat ----------

  /** The page is one that can be attached: it is not marked, and has a frame or can get one. */
  predicate Attachable(m: Mem, id: int)
    requires Sized(m)
  {
    0 <= id < 10 && m.shMark[id] == 0 && (m.shFrame[id] >= 0 || NextFree(m) != -1)
  }

  /**
   * Index i of t's table is where a page with this id goes: the one of the address, if it is free or maps the page
   * already; without an address, the least free one.
   */
  predicate PlaceFor(m: Mem, t: int, id: int, addr: Uint32, i: int)
    requires Sized(m) && t in m.dir && 0 <= id < 10
  {
    28 <= i < 1024 &&
    if addr != 0 then addr == 4096 * (2048 + i) && (Tab(m, t)[i].present ==> Tab(m, t)[i].base == m.shFrame[id])
    else !Tab(m, t)[i].present && forall j :: 28 <= j < i ==> Tab(m, t)[j].present
  }

  lemma PlaceIsIndex(addr: Uint32, i: int)
    requires 28 <= i < 1024
    ensures addr == 4096 * (2048 + i) <==> addr % 4096 == 0 && TableIndex(addr) == i
  {
    if addr == 4096 * (2048 + i) { AddressOfIndex(i); }
    if addr % 4096 == 0 && TableIndex(addr) == i { AddressBound(addr); }
  }

  /** A frame that nobody owns is in no table. */
  lemma NewFrameIsNotMapped(m: Mem, t: int, id: int, i: int)
    requires Inv(m) && t in m.dir && 0 <= id < 10 && 28 <= i < 1024 && Tab(m, t)[i].present
    requires m.shFrame[id] < 0
    ensures Tab(m, t)[i].base != Provide(m, id).shFrame[id]
  {
    NextFreeIsFree(m);
    UserFrame(m, t, i);
  }

  /**
   * shmat succeeds if and only if the page can be attached and there is a place for it; otherwise the error is one of
   * two.
   */
  lemma ShmatAnswers(m: Mem, t: int, id: int, addr: Uint32)
    requires Inv(m) && t in m.dir
    ensures var r := Shmat(m, t, id, addr).1;
      && (r >= 0 <==> Attachable(m, id) && exists i :: PlaceFor(m, t, id, addr, i))
      && (r < 0 ==> r == if 0 <= id < 10 && m.shMark[id] == 0 && (addr == 0 || !Attachable(m, id)) then -12 else -22)
  {
    if 0 <= id < 10 {
      assert SharedOk(m, id);
      ProvideKeeps(m, id);
      NextFreeIsFree(m);
      if Attachable(m, id) { AnswerByPlace(m, t, id, addr); }
    }
  }

  /** The frame that the page has after the call. */
  function FrameFor(m: Mem, id: int): int
    requires Sized(m) && 0 <= id < 10
  {
    if m.shFrame[id] >= 0 then m.shFrame[id] else NextFree(m)
  }

  lemma ProvidedIs(m: Mem, id: int)
    requires Inv(m) && Attachable(m, id)
    ensures var m1 := Provide(m, id);
      && Inv(m1) && m1.ram == m.ram && m1.dir == m.dir && m1.boot == m.boot
      && m1.shMark == m.shMark && m1.shRefs == m.shRefs && m1.shFrame == m.shFrame[id := FrameFor(m, id)]
      && m1.own == (if m.shFrame[id] >= 0 then m.own else m.own[NextFree(m) := Shared(id)])
    ensures 0 <= FrameFor(m, id) < TOTAL_PAGES
  {
    assert SharedOk(m, id);
    ProvideKeeps(m, id);
    NextFreeIsFree(m);
    SharedFrames(Provide(m, id), id);
  }

  lemma AnswerByPlace(m: Mem, t: int, id: int, addr: Uint32)
    requires Inv(m) && t in m.dir && Attachable(m, id)
    ensures var r := Shmat(m, t, id, addr).1;
      && (r >= 0 <==> exists i :: PlaceFor(m, t, id, addr, i))
      && (r < 0 ==> r == if addr == 0 then -12 else -22)
  {
    ProvidedIs(m, id);
    var m1 := Provide(m, id);
    if addr != 0 {
      var i := TableIndex(addr);
      forall j | PlaceFor(m, t, id, addr, j) ensures j == i && addr % 4096 == 0 { PlaceIsIndex(addr, j); }
      if addr % 4096 == 0 && 28 <= i < 1024 {
        PlaceIsIndex(addr, i);
        if Tab(m, t)[i].present && m.shFrame[id] < 0 { NewFrameIsNotMapped(m, t, id, i); }
        if Tab(m, t)[i].present { UserFrame(m, t, i); }
        assert Tab(m1, t) == Tab(m, t);
        assert PlaceFor(m, t, id, addr, i) <==> Shmat(m, t, id, addr).1 >= 0;
      }
    } else {
      var i := FirstAbsent(Tab(m, t), FIRST_SHARED);
      assert Tab(m1, t) == Tab(m, t);
      if i < 1024 { assert PlaceFor(m, t, id, addr, i); }
    }
  }

  /** In memory, m' differs from m only in entry i of t's table, which is w, and in pages that become zero. */
  ghost predicate OnlyEntry(m: Mem, m': Mem, t: int, i: int, w: Word, zeroed: set<int>)
    requires t in m.dir && 0 <= i < PT_ENTRIES
  {
    && m'.dir == m.dir && m'.boot == m.boot && |m'.ram| == |m.ram|
    && (forall s :: s in m.dir ==> TableFrame(m', s) == TableFrame(m, s))
    && (forall s :: s in m.dir ==> Tab(m', s) == if s == t then Tab(m, t)[i := w] else Tab(m, s))
    && (forall f :: f !in zeroed && f != TableFrame(m, t) ==> PageAt(m', f) == PageAt(m, f))
    && (forall f :: f in zeroed ==> PageAt(m', f) == ZeroPage())
  }

  /** The call that succeeds at index i. */
  ghost predicate AttachesAt(m: Mem, t: int, id: int, addr: Uint32, i: int) {
    Inv(m) && t in m.dir && Attachable(m, id) && PlaceFor(m, t, id, addr, i)
  }

  lemma AttachIs(m: Mem, t: int, id: int, addr: Uint32, i: int)
    requires AttachesAt(m, t, id, addr, i)
    ensures Shmat(m, t, id, addr).1 == 4096 * (2048 + i)
    ensures Shmat(m, t, id, addr).0 ==
      if Tab(m, t)[i].present then Provide(m, id) else Map(Provide(m, id), t, i, id)
  {
    ProvidedIs(m, id);
    assert Tab(Provide(m, id), t) == Tab(m, t);
    if addr != 0 { PlaceIsIndex(addr, i); } else { assert FirstAbsent(Tab(m, t), FIRST_SHARED) == i; }
  }

  lemma MapIsEntry(m: Mem, t: int, i: int, id: int)
    requires Inv(m) && t in m.dir && 28 <= i < 1024 && 0 <= id < 10 && m.shFrame[id] >= 0 && !Tab(m, t)[i].present
    ensures 0 <= m.shFrame[id] < TOTAL_PAGES
    ensures var m' := Map(m, t, i, id);
      && OnlyEntry(m, m', t, i, Word(true, true, true, 0, m.shFrame[id]), {}) && Inv(m')
      && m' == m.(ram := m'.ram, shRefs := m.shRefs[id := m.shRefs[id] + 1])
  {
    assert TableOk(m, Tab(m, t)) && SharedEntry(m.shFrame, Tab(m, t)[i]);
    SharedFrames(m, id);
    MapKeeps(m, t, i, id);
    TablesAfter(m, t, i, Pte(ToBase(m.shFrame[id]), true));
  }

  /**
   * All that a successful attach changes: entry i of the caller's table leads to the page's frame, writable; the page
   * has the frame it had, or else the lowest free one; and its count is one more, unless the entry mapped it before.
   */
  lemma ShmatEffect(m: Mem, t: int, id: int, addr: Uint32, i: int)
    requires AttachesAt(m, t, id, addr, i)
    ensures 0 <= FrameFor(m, id) < TOTAL_PAGES && Inv(Shmat(m, t, id, addr).0)
    ensures var m', f := Shmat(m, t, id, addr).0, FrameFor(m, id);
      && Shmat(m, t, id, addr).1 == 4096 * (2048 + i)
      && OnlyEntry(m, m', t, i, Word(true, true, true, 0, f), {})
      && m'.shFrame == m.shFrame[id := f] && m'.shMark == m.shMark
      && m'.shRefs == m.shRefs[id := m.shRefs[id] + if Tab(m, t)[i].present then 0 else 1]
      && m'.own == if m.shFrame[id] >= 0 then m.own else m.own[f := Shared(id)]
  {
    var m1 := Provide(m, id);
    ProvidedIs(m, id);
    AttachIs(m, t, id, addr, i);
    assert Tab(m1, t) == Tab(m, t);
    if Tab(m, t)[i].present { MappedAlready(m, t, id, i); } else { MapIsEntry(m1, t, i, id); }
  }

  lemma MappedAlready(m: Mem, t: int, id: int, i: int)
    requires Inv(m) && t in m.dir && Attachable(m, id) && 28 <= i < 1024
    requires Tab(m, t)[i].present && Tab(m, t)[i].base == m.shFrame[id]
    ensures Tab(m, t)[i] == Word(true, true, true, 0, Tab(m, t)[i].base) && Provide(m, id) == m
    ensures OnlyEntry(m, m, t, i, Tab(m, t)[i], {})
  {
    assert TableOk(m, Tab(m, t)) && SharedEntry(m.shFrame, Tab(m, t)[i]);
  }

  /** What shared pages are for: a word that the caller then stores there is read by every task that maps the page. */
  lemma SharedWordIsSeen(m: Mem, t: int, id: int, addr: Uint32, i: int, s: int, j: int, offset: int, w: Word)
    requires AttachesAt(m, t, id, addr, i) && MapsFrame(m, s, j, m.shFrame[id]) && 0 <= offset < PT_ENTRIES
    ensures var m' := Shmat(m, t, id, addr).0;
      && t in m'.dir && s in m'.dir
      && Load(Store(m', t, i, offset, w), s, j) == Load(m, s, j)[offset := w]
  {
    var m' := Shmat(m, t, id, addr).0;
    ShmatEffect(m, t, id, addr, i);
    StoreIsSeen(m', t, i, offset, w, s, j);
    UserFrame(m, s, j);
    TaskFrames(m, t);
  }

  // ---------- shmdt ----------

  /** The address is that of entry i of t's table, above code and data, and the entry is present. */
  ghost predicate DetachesAt(m: Mem, t: int, addr: Uint32, i: int) {
    Inv(m) && t in m.dir && 28 <= i < 1024 && addr == 4096 * (2048 + i) && Tab(m, t)[i].present
  }

  /**
   * shmdt succeeds if and only if a page is attached at the address, be it marked or not; otherwise it changes nothing.
   */
  lemma ShmdtAnswers(m: Mem, t: int, addr: Uint32)
    requires Inv(m) && t in m.dir
    ensures Shmdt(m, t, addr).1 == 0 <==> exists i :: DetachesAt(m, t, addr, i)
    ensures Shmdt(m, t, addr).1 != 0 ==> Shmdt(m, t, addr) == (m, -22)
  {
    var i := TableIndex(addr);
    forall j | DetachesAt(m, t, addr, j) ensures j == i && addr % 4096 == 0 { PlaceIsIndex(addr, j); }
    if addr % 4096 == 0 && 28 <= i < 1024 && Tab(m, t)[i].present {
      PlaceIsIndex(addr, i);
      assert DetachesAt(m, t, addr, i);
      var id := PageOf(m, t, i);
    }
  }

  /** The shared page that a present entry maps. */
  lemma PageOf(m: Mem, t: int, i: int) returns (id: int)
    requires Inv(m) && t in m.dir && 28 <= i < 1024 && Tab(m, t)[i].present
    ensures 0 <= id < 10 && m.shFrame[id] == Tab(m, t)[i].base && FindShared(m.shFrame, Tab(m, t)[i].base) == id
    ensures forall k :: 0 <= k < 10 && m.shFrame[k] == Tab(m, t)[i].base ==> k == id
  {
    EntryMapsOneShared(m, t, i);
    id :| 0 <= id < NUM_SHARED_PAGES && m.shFrame[id] == Tab(m, t)[i].base;
    SharedFrames(m, id);
    forall k | 0 <= k < 10 && m.shFrame[k] == Tab(m, t)[i].base ensures k == id { SharedDistinct(m, k, id); }
  }

  /** This is the last mapping of a marked page. */
  ghost predicate LastOfMarked(m: Mem, id: int)
    requires Sized(m) && 0 <= id < 10
  {
    m.shMark[id] == 1 && m.shRefs[id] == 1
  }

  /**
   * All that a successful detach changes: the entry is zero, so that one mapping fewer is left. If it was the last one
   * of a marked page, the page is zeroed and forgotten and its frame free; otherwise its count is one less.
   */
  lemma ShmdtEffect(m: Mem, t: int, addr: Uint32, i: int, id: int)
    requires DetachesAt(m, t, addr, i) && 0 <= id < 10 && m.shFrame[id] == Tab(m, t)[i].base
    ensures Inv(Shmdt(m, t, addr).0) && Shmdt(m, t, addr).1 == 0
    ensures var m', f := Shmdt(m, t, addr).0, m.shFrame[id];
      && OnlyEntry(m, m', t, i, ZERO_WORD, if LastOfMarked(m, id) then {f} else {})
      && Mappings(m', f) == Mappings(m, f) - {(t, i)} && (t, i) in Mappings(m, f)
      && m'.shRefs == m.shRefs[id := m.shRefs[id] - 1]
      && m'.shFrame == (if LastOfMarked(m, id) then m.shFrame[id := -1] else m.shFrame)
      && m'.shMark == (if LastOfMarked(m, id) then m.shMark[id := 0] else m.shMark)
      && m'.own == (if LastOfMarked(m, id) then m.own - {f} else m.own)
  {
    var id' := PageOf(m, t, i);
    assert id' == id;
    PlaceIsIndex(addr, i);
    assert Shmdt(m, t, addr) == (Unmap(m, t, i, id), 0);
    UnmapKeeps(m, t, i, id);
    UnmapIsEntry(m, t, i, id);
    MappingsAfter(m, Unmap(m, t, i, id), t, i, m.shFrame[id]);
  }

  lemma UnmapIsEntry(m: Mem, t: int, i: int, id: int)
    requires Inv(m) && t in m.dir && 28 <= i < 1024 && 0 <= id < 10 && MapsFrame(m, t, i, m.shFrame[id])
    ensures var m', f := Unmap(m, t, i, id), m.shFrame[id];
      && OnlyEntry(m, m', t, i, ZERO_WORD, if LastOfMarked(m, id) then {f} else {})
      && m'.shRefs == m.shRefs[id := m.shRefs[id] - 1]
      && m'.shFrame == (if LastOfMarked(m, id) then m.shFrame[id := -1] else m.shFrame)
      && m'.shMark == (if LastOfMarked(m, id) then m.shMark[id := 0] else m.shMark)
      && m'.own == (if LastOfMarked(m, id) then m.own - {f} else m.own)
  {
    var m1 := SetEntry(m, TableFrame(m, t), i, ZERO_WORD).(shRefs := m.shRefs[id := m.shRefs[id] - 1]);
    UnmapKeeps(m, t, i, id);
    UnmapFacts(m, t, i, id);
    assert SharedOk(m, id);
    SharedFrames(m, id);
    TaskFrames(m, t);
    if LastOfMarked(m, id) { CleanupReclaims(m1, id, id); }
  }

  // ---------- shmrm ----------

  /** shmrm succeeds if and only if the page has a frame; otherwise it changes nothing. */
  lemma ShmrmAnswers(m: Mem, id: int)
    requires Inv(m)
    ensures Shmrm(m, id).1 == 0 <==> 0 <= id < 10 && m.shFrame[id] >= 0
    ensures Shmrm(m, id).1 != 0 ==> Shmrm(m, id) == (m, -22)
  {
  }

  /**
   * All that it changes: a page still mapped is marked; one that is not is zeroed and forgotten, and its frame free.
   */
  lemma ShmrmEffect(m: Mem, id: int)
    requires Inv(m) && 0 <= id < 10 && m.shFrame[id] >= 0
    ensures var m', f := Shmrm(m, id).0, m.shFrame[id];
      && Inv(m') && m'.dir == m.dir && m'.boot == m.boot && m'.shRefs == m.shRefs
      && (forall s :: s in m.dir ==> TableFrame(m', s) == TableFrame(m, s) && Tab(m', s) == Tab(m, s))
      && (if Mappings(m, f) != {} then m' == m.(shMark := m.shMark[id := 1])
        else
          && m'.shFrame == m.shFrame[id := -1] && m'.shMark == m.shMark && m'.own == m.own - {f}
          && |m'.ram| == |m.ram| && PageAt(m', f) == ZeroPage()
          && forall g :: g != f ==> PageAt(m', g) == PageAt(m, g))
  {
    var m1 := m.(shMark := m.shMark[id := 1]);
    assert SharedOk(m, id) && MarkedInUse(m, id);
    ShmrmKeeps(m, id);
    MarkedCore(m, id);
    if m.shRefs[id] == 0 {
      CleanupReclaims(m1, id, id);
      CleanupTables(m1, id);
    }
  }

  /** The ordinary deferred removal: marked while mapped, and gone with the last detach. */
  lemma RemovedThenDetached(m: Mem, t: int, addr: Uint32, i: int, id: int)
    requires DetachesAt(m, t, addr, i) && 0 <= id < 10 && m.shFrame[id] == Tab(m, t)[i].base && m.shRefs[id] == 1
    ensures var m1 := Shmrm(m, id).0;
      && Sized(m1) && t in m1.dir && Shmrm(m, id).1 == 0 && Shmdt(m1, t, addr).1 == 0
      && var m2 := Shmdt(m1, t, addr).0;
        m2.shFrame[id] == -1 && m2.shMark[id] == 0 && m.shFrame[id] !in m2.own && t in m2.dir
          && Tab(m2, t)[i] == ZERO_WORD && PageAt(m2, m.shFrame[id]) == ZeroPage()
  {
    ShmrmEffect(m, id);
    assert SharedOk(m, id) && (t, i) in Mappings(m, m.shFrame[id]);
    assert DetachesAt(Shmrm(m, id).0, t, addr, i);
    ShmdtEffect(Shmrm(m, id).0, t, addr, i, id);
  }
}
