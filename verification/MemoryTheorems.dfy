/** What the invariant and the operations mean for the users of memory. */
module MemoryTheorems {
  import opened Machine
  import opened Memory
  import opened MemoryInvariant
  import opened TaskLife
  import MR = MemoryRuns

  // ---------- ownership ----------

  /** A frame is marked used exactly when some part of the state uses it, and then exactly one part does. */
  lemma OneOwnerEach(m: Mem, f: int)
    requires Inv(m) && 0 <= f < TOTAL_PAGES
    ensures m.phys[f] == USED_FRAME <==> exists o :: Claim(m, o, f)
    ensures forall o1, o2 :: Claim(m, o1, f) && Claim(m, o2, f) ==> o1 == o2
  {
    if f in m.own { assert Claim(m, m.own[f], f); }
  }

  /** No frame that a live task maps, or is built from, is ever handed out. */
  lemma LiveFramesAreNotFree(m: Mem, t: int, i: int)
    requires Inv(m) && t in m.dir && 0 <= i < PT_ENTRIES
    ensures t !in FreeFrames(m) && m.dir[t] !in FreeFrames(m) && TableFrame(m, t) !in FreeFrames(m)
    ensures Tab(m, t)[i].present ==> Tab(m, t)[i].base !in FreeFrames(m)
  {
    TaskFrames(m, t);
    if Tab(m, t)[i].present { UserFrame(m, t, i); }
  }

  /**
   * The kernel image, the descriptor page and the screen and BIOS area stay used, and no task or shared page owns them.
   */
  lemma KernelFramesAreSafe(m: Mem, f: int, o: Owner)
    requires Inv(m)
    requires 0x10 <= f < m.boot.lastKernel || f == 0x90 || 0xA0 <= f < 0x100
    ensures 0 <= f < TOTAL_PAGES && m.phys[f] == USED_FRAME
    ensures Claim(m, o, f) ==> o == Pinned
  {
    assert f in m.boot.pinned;
    assert Claim(m, Pinned, f);
  }

  /** alloc_frame takes the least free frame from last_kernel on, and fails only when there is none. */
  lemma NextFreeIsLeast(m: Mem, f: int)
    requires Sized(m)
    ensures NextFree(m) == -1 ==> (m.boot.lastKernel <= f < TOTAL_PAGES ==> m.phys[f] != FREE_FRAME)
    ensures NextFree(m) != -1 ==> m.boot.lastKernel <= NextFree(m) < TOTAL_PAGES && m.phys[NextFree(m)] == FREE_FRAME
    ensures NextFree(m) != -1 && m.boot.lastKernel <= f < NextFree(m) ==> m.phys[f] != FREE_FRAME
  {
    var fs := FreeFrames(m);
    if fs == [] {
      assert f !in fs;
    } else {
      assert fs[0] in fs;
    }
  }

  /** The reference count of a shared page is the number of entries that map it, over all live tasks. */
  lemma RefsCountMappings(m: Mem, id: int)
    requires Inv(m) && 0 <= id < NUM_SHARED_PAGES
    ensures m.shRefs[id] == |Mappings(m, m.shFrame[id])|
    ensures m.shMark[id] == 1 ==> m.shFrame[id] >= 0 && m.shRefs[id] > 0
    ensures m.shFrame[id] < 0 ==> m.shRefs[id] == 0 && m.shMark[id] == 0
  {
    assert SharedOk(m, id) && MarkedInUse(m, id);
    NothingMapsMinusOne(m);
  }

  /** Every entry above code and data is absent or maps exactly one shared page. */
  lemma EntryMapsOneShared(m: Mem, t: int, i: int)
    requires Inv(m) && t in m.dir && FIRST_SHARED <= i < PT_ENTRIES && Tab(m, t)[i].present
    ensures exists id :: 0 <= id < NUM_SHARED_PAGES && m.shFrame[id] == Tab(m, t)[i].base
    ensures forall j, k :: 0 <= j < k < NUM_SHARED_PAGES ==>
      m.shFrame[j] != Tab(m, t)[i].base || m.shFrame[k] != Tab(m, t)[i].base
  {
    UserFrame(m, t, i);
    assert TableOk(m, Tab(m, t));
    assert SharedEntry(m.shFrame, Tab(m, t)[i]);
    forall j | 0 <= j < NUM_SHARED_PAGES && m.shFrame[j] == Tab(m, t)[i].base
      ensures m.own[Tab(m, t)[i].base] == Shared(j)
    {
      SharedFrames(m, j);
    }
  }

  // ---------- what stores do, and to whom ----------

  ghost predicate Writable(m: Mem, t: int, i: int)
    requires t in m.dir && 0 <= i < PT_ENTRIES
  {
    Tab(m, t)[i].present && Tab(m, t)[i].rw && Tab(m, t)[i].user
  }

  /** A store is seen through exactly the mappings of the same frame, and nowhere else. */
  lemma StoreIsSeen(m: Mem, t: int, i: int, offset: int, w: Word, s: int, j: int)
    requires Inv(m) && t in m.dir && s in m.dir && 0 <= i < PT_ENTRIES && 0 <= j < PT_ENTRIES
    requires 0 <= offset < PT_ENTRIES
    requires Tab(m, s)[j].present
    ensures Load(Store(m, t, i, offset, w), s, j) ==
      if Writable(m, t, i) && Tab(m, s)[j].base == Tab(m, t)[i].base then Load(m, s, j)[offset := w] else Load(m, s, j)
  {
    CopyOutTables(m, t, i, offset, w);
    UserFrame(m, s, j);
    if Tab(m, t)[i].present { UserFrame(m, t, i); }
  }

  /** A data page is mapped nowhere else: its task alone can read or write it. */
  lemma DataIsPrivate(m: Mem, t: int, i: int, s: int, j: int)
    requires Inv(m) && t in m.dir && s in m.dir && 0 <= i < NUM_PAG_DATA && 0 <= j < PT_ENTRIES
    requires Tab(m, s)[j].present && Tab(m, s)[j].base == Tab(m, t)[i].base
    ensures s == t && i == j
  {
    assert TableOk(m, Tab(m, t));
    UserFrame(m, t, i);
    UserFrame(m, s, j);
  }

  // ---------- fork ----------

  /** The tables after a fork of t onto the frames g. */
  ghost predicate ForkedTables(m: Mem, m': Mem, t: int, g: Grant)
    requires t in m.dir && |g.data| == NUM_PAG_DATA
  {
    && g.pcb !in m.dir && m'.dir == m.dir[g.pcb := g.dir]
    && (forall s :: s in m.dir ==> Tab(m', s) == Tab(m, s))
    && (forall i :: 0 <= i < NUM_PAG_DATA ==> Tab(m', g.pcb)[i] == Pte(ToBase(g.data[i]), true))
    && (forall i :: NUM_PAG_DATA <= i < FIRST_SHARED ==> Tab(m', g.pcb)[i] == Pte(Tab(m, t)[i].base, true))
    && (forall i :: FIRST_SHARED <= i < PT_ENTRIES ==> Tab(m', g.pcb)[i] == Tab(m, t)[i])
  }

  lemma ForkTables(m: Mem, t: int, g: Grant)
    requires Inv(m) && t in m.dir && Affords(m, g)
    ensures ForkedTables(m, Inherit(Birth(m, t, g), t, g.pcb, FIRST_SHARED), t, g)
  {
    BirthKeeps(m, t, g);
    assert g.pcb !in m.dir by {
      if g.pcb in m.dir { TaskFrames(m, g.pcb); InGrant(g, g.pcb); assert false; }
    }
    InheritKeeps(Birth(m, t, g), t, g.pcb, FIRST_SHARED);
  }

  /** What every live task reads, and what the child's data pages hold, after a fork. */
  lemma ForkLoads(m: Mem, t: int, g: Grant, s: int, i: int)
    requires Inv(m) && t in m.dir && s in m.dir && Affords(m, g) && 0 <= i < PT_ENTRIES && Tab(m, s)[i].present
    ensures var m' := Inherit(Birth(m, t, g), t, g.pcb, FIRST_SHARED);
      && PageAt(m', Tab(m, s)[i].base) == PageAt(m, Tab(m, s)[i].base)
      && (i < NUM_PAG_DATA ==> PageAt(m', g.data[i]) == PageAt(m, Tab(m, t)[i].base))
  {
    var b := Tab(m, s)[i].base;
    var m1 := Birth(m, t, g);
    BirthKeeps(m, t, g);
    BirthWrites(m, t, g);
    UserFrame(m, s, i);
    assert b !in Granted(g);
    InGrant(g, g.table);
    InheritPages(m1, t, g.pcb, FIRST_SHARED, b);
    if i < NUM_PAG_DATA {
      BirthData(m, t, g, i);
      InheritPages(m1, t, g.pcb, FIRST_SHARED, g.data[i]);
    }
  }

  /**
   * After a fork the child maps what its parent maps and reads the same bytes there; its data frames were free,
   * its code and shared frames are the parent's.
   */
  lemma ForkPreservesView(m: Mem, t: int, i: int)
    requires Inv(m) && t in m.dir && 0 <= i < PT_ENTRIES && Fork(m, t).1.Child?
    ensures var m', c := Fork(m, t).0, Fork(m, t).1.pcb;
      && c !in m.dir && c in m'.dir
      && (Tab(m', c)[i].present <==> Tab(m, t)[i].present)
      && (Tab(m, t)[i].present ==> Load(m', c, i) == Load(m, t, i))
      && (i < NUM_PAG_DATA ==> Tab(m', c)[i].base !in m.own)
      && (NUM_PAG_DATA <= i ==> Tab(m', c)[i].base == Tab(m, t)[i].base)
  {
    var g := LowestGrant(FreeFrames(m));
    FreeAffords(m);
    ForkTables(m, t, g);
    assert TableOk(m, Tab(m, t));
    if Tab(m, t)[i].present { ForkLoads(m, t, g, t, i); }
    if i < NUM_PAG_DATA { InGrant(g, g.data[i]); }
    ForkedView(m, Fork(m, t).0, t, g, i);
  }

  lemma ForkedView(m: Mem, m': Mem, t: int, g: Grant, i: int)
    requires Sized(m) && t in m.dir && 0 <= i < PT_ENTRIES && TableOk(m, Tab(m, t)) && Affords(m, g)
    requires ForkedTables(m, m', t, g)
    requires i < NUM_PAG_DATA ==> g.data[i] !in m.own && 0 <= g.data[i] < TOTAL_PAGES
    requires var b := Tab(m, t)[i].base;
      Tab(m, t)[i].present ==>
        PageAt(m', b) == PageAt(m, b) && (i < NUM_PAG_DATA ==> PageAt(m', g.data[i]) == PageAt(m, b))
    ensures var c := g.pcb;
      && c !in m.dir && c in m'.dir
      && (Tab(m', c)[i].present <==> Tab(m, t)[i].present)
      && (Tab(m, t)[i].present ==> Load(m', c, i) == Load(m, t, i))
      && (i < NUM_PAG_DATA ==> Tab(m', c)[i].base !in m.own)
      && (NUM_PAG_DATA <= i ==> Tab(m', c)[i].base == Tab(m, t)[i].base)
  {
  }

  /** A fork, whether it succeeds or fails, changes nothing that a task alive before it can see. */
  lemma ForkDisturbsNobody(m: Mem, t: int, s: int, i: int)
    requires Inv(m) && t in m.dir && s in m.dir && 0 <= i < PT_ENTRIES
    ensures s in Fork(m, t).0.dir && Tab(Fork(m, t).0, s) == Tab(m, s)
    ensures Tab(m, s)[i].present ==> Load(Fork(m, t).0, s, i) == Load(m, s, i)
  {
    var fs := FreeFrames(m);
    if Tab(m, s)[i].present { UserFrame(m, s, i); }
    if |fs| >= FRAMES_PER_TASK {
      var g := LowestGrant(fs);
      FreeAffords(m);
      ForkTables(m, t, g);
      if Tab(m, s)[i].present { ForkLoads(m, t, g, s, i); }
    } else if |fs| >= 1 {
      RollbackKeeps(m, t);
      RollbackPages(m, t);
    }
  }

  /** A forked child may write the code pages, and then every task reads the new code. */
  lemma ForkedCodeIsWritable(m: Mem, t: int, i: int, offset: int, w: Word, s: int)
    requires Inv(m) && t in m.dir && s in m.dir && Fork(m, t).1.Child?
    requires NUM_PAG_DATA <= i < FIRST_SHARED && 0 <= offset < PT_ENTRIES
    ensures var m', c := Fork(m, t).0, Fork(m, t).1.pcb;
      c in m'.dir && s in m'.dir && Load(Store(m', c, i, offset, w), s, i) == Load(m, s, i)[offset := w]
  {
    var g := LowestGrant(FreeFrames(m));
    FreeAffords(m);
    ForkTables(m, t, g);
    ForkKeeps(m, t);
    ForkDisturbsNobody(m, t, s, i);
    assert TableOk(m, Tab(m, t)) && TableOk(m, Tab(m, s));
    StoreIsSeen(Fork(m, t).0, g.pcb, i, offset, w, s, i);
  }

  // ---------- attach and detach ----------

  /** A marked page accepts no new attach. */
  lemma MarkedRejectsAttach(m: Mem, t: int, id: int, addr: Uint32)
    requires Inv(m) && t in m.dir && 0 <= id < NUM_SHARED_PAGES && m.shMark[id] == 1
    ensures Shmat(m, t, id, addr) == (m, -EINVAL)
  {
  }

  /** A successful attach returns a page address above code and data: the one asked for, or else the least free one. */
  lemma AttachAddress(m: Mem, t: int, id: int, addr: Uint32)
    requires Inv(m) && t in m.dir && Shmat(m, t, id, addr).1 >= 0
    ensures var r := Shmat(m, t, id, addr).1;
      && r % 4096 == 0 && r < 0x8000_0000 && FIRST_SHARED <= TableIndex(r) < PT_ENTRIES
      && (addr != 0 ==> r == addr)
      && (addr == 0 ==> !Tab(m, t)[TableIndex(r)].present)
      && (addr == 0 ==> forall j :: FIRST_SHARED <= j < TableIndex(r) ==> Tab(m, t)[j].present)
  {
    ProvideKeeps(m, id);
    AddressOfIndex(FirstAbsent(Tab(m, t), FIRST_SHARED));
    if addr != 0 { AddressBound(addr); }
  }

  lemma AddressOfIndex(i: int)
    requires 0 <= i <= PT_ENTRIES
    ensures UserAddress(i) % 4096 == 0 && 0 < UserAddress(i) < 0x8000_0000 && TableIndex(UserAddress(i)) == i
  {
  }

  lemma AddressBound(addr: Uint32)
    requires addr % 4096 == 0 && TableIndex(addr) < PT_ENTRIES
    ensures addr == UserAddress(TableIndex(addr))
  {
  }

  lemma FreshAttachMaps(m: Mem, t: int, id: int, addr: Uint32)
    requires Inv(m) && t in m.dir && Shmat(m, t, id, addr).1 >= 0
    requires !Tab(m, t)[TableIndex(Shmat(m, t, id, addr).1)].present
    ensures var i := TableIndex(Shmat(m, t, id, addr).1);
      && Shmat(m, t, id, addr).0 == Map(Provide(m, id), t, i, id)
      && Tab(Provide(m, id), t)[i] == ZERO_WORD
      && m.shMark[id] == 0 && Provide(m, id).shFrame[id] >= 0
  {
    AttachAddress(m, t, id, addr);
    ProvideKeeps(m, id);
    var m1, i := Provide(m, id), TableIndex(Shmat(m, t, id, addr).1);
    assert SharedOk(m, id);
    assert TableOk(m1, Tab(m1, t));
    assert SharedEntry(m1.shFrame, Tab(m1, t)[i]);
  }

  /** After a successful attach its entry maps the page; attaching at an entry that maps it already adds nothing. */
  lemma AttachMaps(m: Mem, t: int, id: int, addr: Uint32)
    requires Inv(m) && t in m.dir && Shmat(m, t, id, addr).1 >= 0
    ensures 0 <= id < NUM_SHARED_PAGES && m.shMark[id] == 0
    ensures var m', i := Shmat(m, t, id, addr).0, TableIndex(Shmat(m, t, id, addr).1);
      && FIRST_SHARED <= i < PT_ENTRIES && t in m'.dir && Sized(m') && MapsFrame(m', t, i, m'.shFrame[id])
      && m'.shRefs[id] == m.shRefs[id] + (if Tab(m, t)[i].present then 0 else 1)
      && (Tab(m, t)[i].present ==> m' == Provide(m, id))
  {
    AttachAddress(m, t, id, addr);
    ProvideKeeps(m, id);
    assert SharedOk(m, id);
    var m1, i := Provide(m, id), TableIndex(Shmat(m, t, id, addr).1);
    if !Tab(m, t)[i].present {
      FreshAttachMaps(m, t, id, addr);
      MapKeeps(m1, t, i, id);
      SharedFrames(m1, id);
    }
  }

  /** Detaching what was just attached gives back exactly the state in which the page has a frame but no new mapping. */
  lemma AttachThenDetach(m: Mem, t: int, id: int, addr: Uint32)
    requires Inv(m) && t in m.dir && Shmat(m, t, id, addr).1 >= 0
    requires !Tab(m, t)[TableIndex(Shmat(m, t, id, addr).1)].present
    ensures t in Shmat(m, t, id, addr).0.dir && Sized(Shmat(m, t, id, addr).0)
    ensures Shmdt(Shmat(m, t, id, addr).0, t, Shmat(m, t, id, addr).1) == (Provide(m, id), 0)
    ensures m.shFrame[id] >= 0 ==> Provide(m, id) == m
  {
    var r := Shmat(m, t, id, addr).1;
    AttachAddress(m, t, id, addr);
    FreshAttachMaps(m, t, id, addr);
    ProvideKeeps(m, id);
    DetachFresh(Provide(m, id), t, r, id);
  }

  lemma DetachFresh(m: Mem, t: int, r: Uint32, id: int)
    requires Inv(m) && t in m.dir && 0 <= id < NUM_SHARED_PAGES && m.shFrame[id] >= 0 && m.shMark[id] == 0
    requires r % 4096 == 0 && FIRST_SHARED <= TableIndex(r) < PT_ENTRIES && Tab(m, t)[TableIndex(r)] == ZERO_WORD
    ensures Shmdt(Map(m, t, TableIndex(r), id), t, r) == (m, 0)
  {
    var i := TableIndex(r);
    MapKeeps(m, t, i, id);
    SharedFrames(m, id);
    SharedFrames(Map(m, t, i, id), id);
    MapThenUnmap(m, t, i, id);
  }

  lemma MapThenUnmap(m: Mem, t: int, i: int, id: int)
    requires Inv(m) && t in m.dir && FIRST_SHARED <= i < PT_ENTRIES && 0 <= id < NUM_SHARED_PAGES
    requires Tab(m, t)[i] == ZERO_WORD && m.shMark[id] == 0
    ensures Unmap(Map(m, t, i, id), t, i, id) == m
  {
    TaskFrames(m, t);
    TablesAfter(m, t, i, Pte(ToBase(m.shFrame[id]), true));
    var f, p := TableFrame(m, t), Tab(m, t);
    var w := Pte(ToBase(m.shFrame[id]), true);
    assert p[i := w][i := ZERO_WORD] == p;
    assert m.ram[f := p[i := w]][f := p] == m.ram;
    assert m.shRefs[id := m.shRefs[id] + 1][id := m.shRefs[id]] == m.shRefs;
  }

  // ---------- which tasks there are ----------

  lemma ForkedTask(m: Mem, t: int, g: Grant)
    requires Inv(m) && t in m.dir && Affords(m, g)
    ensures var m' := Inherit(Birth(m, t, g), t, g.pcb, FIRST_SHARED);
      m'.boot == m.boot && m'.dir == m.dir[g.pcb := g.dir] && g.pcb !in m.dir
  {
    ForkTables(m, t, g);
    BirthKeeps(m, t, g);
    InheritKeeps(Birth(m, t, g), t, g.pcb, FIRST_SHARED);
  }

  lemma ForkTasks(m: Mem, t: int)
    requires Inv(m) && t in m.dir
    ensures var m' := Fork(m, t).0;
      && m'.boot == m.boot
      && m'.dir.Keys == m.dir.Keys + if Fork(m, t).1.Child? then {Fork(m, t).1.pcb} else {}
    ensures Fork(m, t).1.Child? ==> Fork(m, t).1.pcb !in m.dir && Fork(m, t).1.pcb == NextFree(m)
  {
    var fs := FreeFrames(m);
    if |fs| >= FRAMES_PER_TASK {
      FreeAffords(m);
      ForkedTask(m, t, LowestGrant(fs));
    } else if |fs| >= 1 {
      RollbackPages(m, t);
    }
  }

  lemma ExitTasks(m: Mem, t: int)
    requires Inv(m) && t in m.dir
    ensures Exit(m, t).boot == m.boot && Exit(m, t).dir.Keys == m.dir.Keys - {t}
  {
    DetachKeeps(m, t, FIRST_SHARED);
  }

  lemma MapTasks(m: Mem, t: int, i: int, id: int)
    requires Sized(m) && t in m.dir && 0 <= i < PT_ENTRIES && 0 <= id < NUM_SHARED_PAGES
    ensures Map(m, t, i, id).boot == m.boot && Unmap(m, t, i, id).boot == m.boot
    ensures Cleanup(m, id).boot == m.boot && Provide(m, id).boot == m.boot
    ensures Cleanup(m, id).dir == m.dir && Provide(m, id).dir == m.dir
  {
  }

  lemma OtherTasks(m: Mem, op: MR.MemOp)
    requires Inv(m) && !op.OpFork? && !op.OpExit?
    ensures MR.Step(m, op).boot == m.boot && MR.Step(m, op).dir == m.dir
  {
    if op.task in m.dir {
      match op
      case OpShmat(t, id, addr) => if 0 <= id < NUM_SHARED_PAGES { ShmatTasks(m, t, id, addr); }
      case OpShmdt(t, addr) => ShmdtTasks(m, t, addr);
      case OpShmrm(_, id) => if 0 <= id < NUM_SHARED_PAGES { ShmrmTasks(m, id); }
      case OpStore(t, i, offset, w) =>
      case OpCopyOut(t, i, offset, w) =>
    }
  }

  lemma ShmatTasks(m: Mem, t: int, id: int, addr: Uint32)
    requires Inv(m) && t in m.dir && 0 <= id < NUM_SHARED_PAGES
    ensures Shmat(m, t, id, addr).0.boot == m.boot && Shmat(m, t, id, addr).0.dir == m.dir
  {
    ProvideKeeps(m, id);
    MapTasks(m, t, 0, id);
  }

  lemma ShmdtTasks(m: Mem, t: int, addr: Uint32)
    requires Inv(m) && t in m.dir
    ensures Shmdt(m, t, addr).0.boot == m.boot && Shmdt(m, t, addr).0.dir == m.dir
  {
    var i := TableIndex(addr);
    if addr % 4096 == 0 && FIRST_SHARED <= i < PT_ENTRIES && Tab(m, t)[i].present {
      var id := FindShared(m.shFrame, Tab(m, t)[i].base);
      if id != -1 { MapTasks(m, t, i, id); }
    }
  }

  lemma ShmrmTasks(m: Mem, id: int)
    requires Inv(m) && 0 <= id < NUM_SHARED_PAGES
    ensures Shmrm(m, id).0.boot == m.boot && Shmrm(m, id).0.dir == m.dir
  {
  }
}
