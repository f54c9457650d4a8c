/** A task's table and data pages are changed by that task only, whatever the others do. */
module Isolation {
  import opened Machine
  import opened Memory
  import opened MemoryInvariant
  import opened TaskLife
  import opened MemoryRuns
  import opened MemoryTheorems

  /** Task s lives in both states, with the same table and the same bytes in its data pages. */
  ghost predicate Untouched(m: Mem, m': Mem, s: int) {
    && s in m.dir && s in m'.dir && Tab(m', s) == Tab(m, s)
    && (forall i :: 0 <= i < NUM_PAG_DATA ==> PageAt(m', Tab(m, s)[i].base) == PageAt(m, Tab(m, s)[i].base))
  }

  lemma CleanupSpares(m: Mem, id: int, s: int)
    requires Core(m) && s in m.dir && 0 <= id < NUM_SHARED_PAGES && m.shFrame[id] != -1
    ensures Untouched(m, Cleanup(m, id), s)
  {
    SharedFrames(m, id);
    CleanupTables(m, id);
    TaskFrames(m, s);
  }

  /** Writing an entry of another task's table. */
  lemma EntrySpares(m: Mem, m': Mem, t: int, i: int, w: Word, s: int)
    requires Core(m) && t in m.dir && s in m.dir && s != t && 0 <= i < PT_ENTRIES
    requires m'.ram == SetEntry(m, TableFrame(m, t), i, w).ram && m'.dir == m.dir
    ensures Untouched(m, m', s)
  {
    TablesAfter(m, t, i, w);
    TaskFrames(m, t);
    TaskFrames(m, s);
  }

  lemma UnmapSpares(m: Mem, t: int, i: int, id: int, s: int)
    requires Inv(m) && s in m.dir && s != t && 0 <= id < NUM_SHARED_PAGES && MapsFrame(m, t, i, m.shFrame[id])
    ensures Untouched(m, Unmap(m, t, i, id), s)
  {
    var m1 := SetEntry(m, TableFrame(m, t), i, ZERO_WORD).(shRefs := m.shRefs[id := m.shRefs[id] - 1]);
    UnmapFacts(m, t, i, id);
    EntrySpares(m, m1, t, i, ZERO_WORD, s);
    assert SharedOk(m, id);
    if m1.shRefs[id] == 0 && m1.shMark[id] == 1 { CleanupSpares(m1, id, s); }
  }

  lemma {:induction false} DetachSpares(m: Mem, t: int, i: int, s: int)
    requires Inv(m) && t in m.dir && s in m.dir && s != t && FIRST_SHARED <= i <= PT_ENTRIES
    ensures Untouched(m, DetachFrom(m, t, i), s)
    decreases PT_ENTRIES - i
  {
    if i < PT_ENTRIES {
      DetachOne(m, t, i);
      var id := FindShared(m.shFrame, Tab(m, t)[i].base);
      var m1 := if Tab(m, t)[i].present && id != -1 then Unmap(m, t, i, id) else m;
      if Tab(m, t)[i].present && id != -1 { UnmapSpares(m, t, i, id, s); }
      DetachSpares(m1, t, i + 1, s);
    }
  }

  lemma TearDownSpares(m: Mem, t: int, s: int)
    requires Core(m) && t in m.dir && s in m.dir && s != t
    ensures Untouched(m, TearDown(m, t), s)
  {
    TearDownTables(m, t);
    TaskFrames(m, t);
    TaskFrames(m, s);
  }

  lemma ExitSpares(m: Mem, t: int, s: int)
    requires Inv(m) && t in m.dir && s in m.dir && s != t
    ensures Untouched(m, Exit(m, t), s)
  {
    DetachKeeps(m, t, FIRST_SHARED);
    DetachSpares(m, t, FIRST_SHARED, s);
    TearDownSpares(DetachFrom(m, t, FIRST_SHARED), t, s);
  }

  lemma ForkSpares(m: Mem, t: int, s: int)
    requires Inv(m) && t in m.dir && s in m.dir
    ensures Untouched(m, Fork(m, t).0, s)
  {
    ForkDisturbsNobody(m, t, s, 0);
    assert TableOk(m, Tab(m, s));
    forall i | 0 <= i < NUM_PAG_DATA ensures PageAt(Fork(m, t).0, Tab(m, s)[i].base) == PageAt(m, Tab(m, s)[i].base) {
      ForkDisturbsNobody(m, t, s, i);
    }
  }

  lemma MapSpares(m: Mem, t: int, i: int, id: int, s: int)
    requires Core(m) && t in m.dir && s in m.dir && s != t && 0 <= i < PT_ENTRIES && 0 <= id < NUM_SHARED_PAGES
    ensures Untouched(m, Map(m, t, i, id), s)
  {
    EntrySpares(m, Map(m, t, i, id), t, i, Pte(ToBase(m.shFrame[id]), true), s);
  }

  lemma ShmatSpares(m: Mem, t: int, id: int, addr: Uint32, s: int)
    requires Inv(m) && t in m.dir && s in m.dir && s != t
    ensures Untouched(m, Shmat(m, t, id, addr).0, s)
  {
    if 0 <= id < NUM_SHARED_PAGES && m.shMark[id] != 1 {
      ProvideKeeps(m, id);
      var m1 := Provide(m, id);
      var i := if addr != 0 then TableIndex(addr) else FirstAbsent(Tab(m1, t), FIRST_SHARED);
      if m1.shFrame[id] >= 0 && FIRST_SHARED <= i < PT_ENTRIES && !Tab(m1, t)[i].present {
        MapSpares(m1, t, i, id, s);
      }
    }
  }

  lemma ShmdtSpares(m: Mem, t: int, addr: Uint32, s: int)
    requires Inv(m) && t in m.dir && s in m.dir && s != t
    ensures Untouched(m, Shmdt(m, t, addr).0, s)
  {
    var i := TableIndex(addr);
    if addr % 4096 == 0 && FIRST_SHARED <= i < PT_ENTRIES && Tab(m, t)[i].present {
      var id := FindShared(m.shFrame, Tab(m, t)[i].base);
      if id != -1 { UnmapSpares(m, t, i, id, s); }
    }
  }

  lemma ShmrmSpares(m: Mem, id: int, s: int)
    requires Inv(m) && s in m.dir
    ensures Untouched(m, Shmrm(m, id).0, s)
  {
    if 0 <= id < NUM_SHARED_PAGES && m.shFrame[id] >= 0 {
      MarkedCore(m, id);
      var m1 := m.(shMark := m.shMark[id := 1]);
      if m1.shRefs[id] == 0 { CleanupSpares(m1, id, s); }
    }
  }

  lemma CopyOutSpares(m: Mem, t: int, i: int, offset: int, w: Word, s: int)
    requires Inv(m) && t in m.dir && s in m.dir && s != t && 0 <= i < PT_ENTRIES && 0 <= offset < PT_ENTRIES
    ensures Untouched(m, CopyOut(m, t, i, offset, w), s)
  {
    CopyOutTables(m, t, i, offset, w);
    assert TableOk(m, Tab(m, s));
    TaskFrames(m, s);
    if Tab(m, t)[i].present { UserFrame(m, t, i); }
  }

  /** No step of another task, not even its exit, reaches a task's table or data pages. */
  lemma OthersAreSpared(m: Mem, op: MemOp, s: int)
    requires Inv(m) && s in m.dir && op.task != s
    ensures Untouched(m, Step(m, op), s)
  {
    if op.task in m.dir {
      match op
      case OpFork(t) => ForkSpares(m, t, s);
      case OpExit(t) => ExitSpares(m, t, s);
      case OpShmat(t, id, addr) => ShmatSpares(m, t, id, addr, s);
      case OpShmdt(t, addr) => ShmdtSpares(m, t, addr, s);
      case OpShmrm(_, id) => ShmrmSpares(m, id, s);
      case OpStore(t, i, offset, w) =>
        if 0 <= i < PT_ENTRIES && 0 <= offset < PT_ENTRIES {
          StoreKeeps(m, t, i, offset, w);
          CopyOutSpares(m, t, i, offset, w, s);
        }
      case OpCopyOut(t, i, offset, w) =>
        if 0 <= i <= LAST_WRITABLE && 0 <= offset < PT_ENTRIES { CopyOutSpares(m, t, i, offset, w, s); }
    }
  }
}
