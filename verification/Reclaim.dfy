/** A shared page marked for removal is reclaimed at the very step that removes its last mapping, and at no other. */
module Reclaim {
  import opened Machine
  import opened Memory
  import opened MemoryInvariant
  import opened TaskLife
  import opened MemoryRuns

  /** The page `id` was reclaimed between m and m': zeroed, freed and forgotten. */
  ghost predicate Reclaimed(m: Mem, m': Mem, id: int)
    requires Sized(m) && Sized(m') && 0 <= id < NUM_SHARED_PAGES
  {
    && m.shFrame[id] >= 0 && m'.shFrame[id] == -1 && m'.shMark[id] == 0
    && m.shFrame[id] !in m'.own
    && PageAt(m', m.shFrame[id]) == ZeroPage()
  }

  ghost predicate Kept(m: Mem, m': Mem, id: int, mark: int)
    requires Sized(m) && Sized(m') && 0 <= id < NUM_SHARED_PAGES
  {
    m'.shFrame[id] == m.shFrame[id] && m'.shMark[id] == mark
  }

  /** From m to m' the page is kept with its mark, or it was marked and has been reclaimed. */
  ghost predicate Evolves(m: Mem, m': Mem, id: int)
    requires Sized(m) && Sized(m') && 0 <= id < NUM_SHARED_PAGES
  {
    Kept(m, m', id, m.shMark[id]) || (m.shMark[id] == 1 && Reclaimed(m, m', id))
  }

  lemma CleanupReclaims(m: Mem, id: int, k: int)
    requires Core(m) && 0 <= id < NUM_SHARED_PAGES && 0 <= k < NUM_SHARED_PAGES && m.shFrame[id] != -1
    ensures Sized(Cleanup(m, id))
    ensures if k == id then Reclaimed(m, Cleanup(m, id), id) else Kept(m, Cleanup(m, id), k, m.shMark[k])
    ensures forall f :: f != m.shFrame[id] ==> PageAt(Cleanup(m, id), f) == PageAt(m, f)
    ensures Cleanup(m, id).own == m.own - {m.shFrame[id]}
  {
    SharedFrames(m, id);
  }

  lemma UnmapEvolves(m: Mem, t: int, i: int, id: int, k: int)
    requires Inv(m) && 0 <= id < NUM_SHARED_PAGES && 0 <= k < NUM_SHARED_PAGES && MapsFrame(m, t, i, m.shFrame[id])
    ensures Evolves(m, Unmap(m, t, i, id), k)
    ensures forall f :: f !in m.own ==> f !in Unmap(m, t, i, id).own && PageAt(Unmap(m, t, i, id), f) == PageAt(m, f)
  {
    var m1 := SetEntry(m, TableFrame(m, t), i, ZERO_WORD).(shRefs := m.shRefs[id := m.shRefs[id] - 1]);
    UnmapFacts(m, t, i, id);
    TaskFrames(m, t);
    assert SharedOk(m, id);
    SharedFrames(m, id);
    if m1.shRefs[id] == 0 && m1.shMark[id] == 1 { CleanupReclaims(m1, id, k); }
  }

  lemma {:induction false} DetachEvolves(m: Mem, t: int, i: int, k: int)
    requires Inv(m) && t in m.dir && FIRST_SHARED <= i <= PT_ENTRIES && 0 <= k < NUM_SHARED_PAGES
    ensures Evolves(m, DetachFrom(m, t, i), k)
    ensures forall f :: f !in m.own ==> f !in DetachFrom(m, t, i).own && PageAt(DetachFrom(m, t, i), f) == PageAt(m, f)
    decreases PT_ENTRIES - i
  {
    if i < PT_ENTRIES {
      var id := FindShared(m.shFrame, Tab(m, t)[i].base);
      var m1 := if Tab(m, t)[i].present && id != -1 then Unmap(m, t, i, id) else m;
      DetachOne(m, t, i);
      if Tab(m, t)[i].present && id != -1 { UnmapEvolves(m, t, i, id, k); }
      DetachEvolves(m1, t, i + 1, k);
      if m1.shFrame[k] == -1 { assert SharedOk(m1, k); }
    }
  }

  lemma TearDownEvolves(m: Mem, t: int, k: int)
    requires Inv(m) && t in m.dir && 0 <= k < NUM_SHARED_PAGES
    ensures Sized(TearDown(m, t)) && Kept(m, TearDown(m, t), k, m.shMark[k])
    ensures forall f :: f !in m.own ==> f !in TearDown(m, t).own && PageAt(TearDown(m, t), f) == PageAt(m, f)
  {
    TaskFrames(m, t);
  }

  lemma ExitEvolves(m: Mem, t: int, k: int)
    requires Inv(m) && t in m.dir && 0 <= k < NUM_SHARED_PAGES
    ensures Sized(Exit(m, t)) && Evolves(m, Exit(m, t), k)
  {
    DetachEvolves(m, t, FIRST_SHARED, k);
    DetachKeeps(m, t, FIRST_SHARED);
    TearDownEvolves(DetachFrom(m, t, FIRST_SHARED), t, k);
  }

  lemma ForkEvolves(m: Mem, t: int, k: int)
    requires Inv(m) && t in m.dir && 0 <= k < NUM_SHARED_PAGES
    ensures Sized(Fork(m, t).0) && Kept(m, Fork(m, t).0, k, m.shMark[k])
  {
    var fs := FreeFrames(m);
    if |fs| >= FRAMES_PER_TASK {
      var g := LowestGrant(fs);
      FreeAffords(m);
      BirthKeeps(m, t, g);
      InheritKeeps(Birth(m, t, g), t, g.pcb, FIRST_SHARED);
    } else if |fs| >= 1 {
      RollbackEvolves(m, t, k);
    }
  }

  lemma RollbackEvolves(m: Mem, t: int, k: int)
    requires Inv(m) && t in m.dir && 1 <= |FreeFrames(m)| < FRAMES_PER_TASK && 0 <= k < NUM_SHARED_PAGES
    ensures Sized(Rollback(m, t, FreeFrames(m))) && Kept(m, Rollback(m, t, FreeFrames(m)), k, m.shMark[k])
  {
    RollbackKeeps(m, t);
  }

  lemma ShmatEvolves(m: Mem, t: int, id: int, addr: Uint32, k: int)
    requires Inv(m) && t in m.dir && 0 <= k < NUM_SHARED_PAGES && m.shFrame[k] >= 0
    ensures Sized(Shmat(m, t, id, addr).0) && Kept(m, Shmat(m, t, id, addr).0, k, m.shMark[k])
  {
    ShmatKeeps(m, t, id, addr);
    if 0 <= id < NUM_SHARED_PAGES { ProvideKeeps(m, id); }
  }

  lemma ShmdtEvolves(m: Mem, t: int, addr: Uint32, k: int)
    requires Inv(m) && t in m.dir && 0 <= k < NUM_SHARED_PAGES
    ensures Sized(Shmdt(m, t, addr).0) && Evolves(m, Shmdt(m, t, addr).0, k)
  {
    var i := TableIndex(addr);
    if addr % 4096 == 0 && FIRST_SHARED <= i < PT_ENTRIES && Tab(m, t)[i].present {
      var id := FindShared(m.shFrame, Tab(m, t)[i].base);
      if id != -1 { UnmapEvolves(m, t, i, id, k); }
    }
  }

  lemma ShmrmEvolves(m: Mem, id: int, k: int)
    requires Inv(m) && 0 <= k < NUM_SHARED_PAGES && m.shFrame[k] >= 0
    ensures Sized(Shmrm(m, id).0)
    ensures var m' := Shmrm(m, id).0;
      if k == id then Kept(m, m', k, 1) || Reclaimed(m, m', k) else Kept(m, m', k, m.shMark[k])
  {
    if 0 <= id < NUM_SHARED_PAGES && m.shFrame[id] >= 0 {
      SharedFrames(m, id);
    }
  }

  /** Whether this step asks for the removal of the page. */
  predicate AsksRemoval(m: Mem, op: MemOp, id: int) {
    op.task in m.dir && op.OpShmrm? && op.id == id
  }

  /** In any one step an allocated page is kept, marked if it was or if this step asks for it, or it is reclaimed. */
  lemma StepEvolves(m: Mem, op: MemOp, id: int)
    requires Inv(m) && 0 <= id < NUM_SHARED_PAGES && m.shFrame[id] >= 0
    ensures Inv(Step(m, op))
    ensures var due := AsksRemoval(m, op, id) || m.shMark[id] == 1;
      Kept(m, Step(m, op), id, if due then 1 else 0) || (due && Reclaimed(m, Step(m, op), id))
  {
    StepKeeps(m, op);
    assert SharedOk(m, id);
    if op.task in m.dir {
      match op
      case OpFork(t) => ForkEvolves(m, t, id);
      case OpExit(t) => ExitEvolves(m, t, id);
      case OpShmat(t, n, addr) => ShmatEvolves(m, t, n, addr, id);
      case OpShmdt(t, addr) => ShmdtEvolves(m, t, addr, id);
      case OpShmrm(_, n) => ShmrmEvolves(m, n, id);
      case OpStore(t, i, offset, w) =>
      case OpCopyOut(t, i, offset, w) =>
    }
  }

  /**
   * Deferred removal is exact. A step reclaims an allocated page if and only if the removal has been asked for,
   * by this step or before, and the step leaves no mapping of its frame; the frame is then zeroed and free.
   */
  lemma RemovalIsExact(m: Mem, op: MemOp, id: int)
    requires Inv(m) && 0 <= id < NUM_SHARED_PAGES && m.shFrame[id] >= 0
    ensures Inv(Step(m, op))
    ensures var m', f := Step(m, op), m.shFrame[id];
      && (m'.shFrame[id] != f <==> (AsksRemoval(m, op, id) || m.shMark[id] == 1) && Mappings(m', f) == {})
      && (m'.shFrame[id] != f ==>
        m'.shFrame[id] == -1 && f < TOTAL_PAGES && m'.phys[f] == FREE_FRAME && PageAt(m', f) == ZeroPage())
  {
    var m', f := Step(m, op), m.shFrame[id];
    StepEvolves(m, op, id);
    SharedFrames(m, id);
    if m'.shFrame[id] == f {
      assert SharedOk(m', id) && MarkedInUse(m', id);
    } else {
      UnownedIsUnmapped(m', f);
    }
  }
}
