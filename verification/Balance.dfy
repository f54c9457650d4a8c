/** Frame accounting: no step of the kernel creates or loses a frame unnoticed. */
module Balance {
  import opened Machine
  import opened Sequences
  import opened Frames
  import opened Memory
  import opened MemoryInvariant
  import opened TaskLife
  import opened MemoryRuns

  function Available(m: Mem): nat
    requires Sized(m)
  {
    |FreeFrames(m)|
  }

  ghost function Allocated(m: Mem): set<int> {
    set id | 0 <= id < |m.shFrame| && m.shFrame[id] != -1
  }

  ghost function LeakedFrames(m: Mem): set<int> {
    set f | f in m.own && m.own[f] == Leaked
  }

  /**
   * Free frames, FRAMES_PER_TASK = 23 for each task, one for each shared page that has a frame, and the leaked ones.
   */
  ghost function Total(m: Mem): int
    requires Sized(m)
  {
    Available(m) + 23 * |m.dir| + |Allocated(m)| + |LeakedFrames(m)|
  }

  lemma TakeOne(m: Mem, phys': seq<Byte>, f: int)
    requires Sized(m) && m.boot.lastKernel <= f < TOTAL_PAGES && m.phys[f] == FREE_FRAME
    requires phys' == m.phys[f := USED_FRAME]
    ensures |FreeFrom(phys', m.boot.lastKernel)| == Available(m) - 1
  {
    GiveBack(phys', m.boot.lastKernel, {f}, m.phys);
  }

  lemma ProvideBalance(m: Mem, id: int)
    requires Inv(m) && 0 <= id < NUM_SHARED_PAGES
    ensures Sized(Provide(m, id)) && Total(Provide(m, id)) == Total(m)
    ensures LeakedFrames(Provide(m, id)) == LeakedFrames(m)
  {
    assert SharedOk(m, id);
    if m.shFrame[id] == -1 && NextFree(m) != -1 {
      NextFreeIsFree(m);
      assert NextFree(m) in FreeFrames(m);
      GrantShared(m, Provide(m, id), id, NextFree(m));
    } else {
      assert Provide(m, id) == m;
    }
  }

  lemma GrantShared(m: Mem, m': Mem, id: int, f: int)
    requires Sized(m) && 0 <= id < NUM_SHARED_PAGES && m.shFrame[id] == -1
    requires m.boot.lastKernel <= f < TOTAL_PAGES && m.phys[f] == FREE_FRAME && f !in m.own
    requires m' == m.(phys := m.phys[f := USED_FRAME], own := m.own[f := Shared(id)], shFrame := m.shFrame[id := f])
    ensures Total(m') == Total(m) && LeakedFrames(m') == LeakedFrames(m)
  {
    TakeOne(m, m'.phys, f);
    assert Allocated(m') == Allocated(m) + {id};
    assert LeakedFrames(m') == LeakedFrames(m);
  }

  lemma CleanupBalance(m: Mem, id: int)
    requires Core(m) && 0 <= id < NUM_SHARED_PAGES && m.shFrame[id] != -1
    ensures Sized(Cleanup(m, id)) && Total(Cleanup(m, id)) == Total(m)
    ensures LeakedFrames(Cleanup(m, id)) == LeakedFrames(m)
  {
    var m', f := Cleanup(m, id), m.shFrame[id];
    SharedFrames(m, id);
    GiveBack(m.phys, m.boot.lastKernel, {f}, m'.phys);
    assert Allocated(m') == Allocated(m) - {id};
    assert LeakedFrames(m') == LeakedFrames(m);
  }

  lemma UnmapBalance(m: Mem, t: int, i: int, id: int)
    requires Inv(m) && 0 <= id < NUM_SHARED_PAGES && MapsFrame(m, t, i, m.shFrame[id])
    ensures Total(Unmap(m, t, i, id)) == Total(m) && LeakedFrames(Unmap(m, t, i, id)) == LeakedFrames(m)
  {
    var m1 := SetEntry(m, TableFrame(m, t), i, ZERO_WORD).(shRefs := m.shRefs[id := m.shRefs[id] - 1]);
    UnmapFacts(m, t, i, id);
    assert SharedOk(m, id);
    if m1.shRefs[id] == 0 && m1.shMark[id] == 1 { CleanupBalance(m1, id); }
  }

  lemma {:induction false} DetachBalance(m: Mem, t: int, i: int)
    requires Inv(m) && t in m.dir && FIRST_SHARED <= i <= PT_ENTRIES
    ensures Total(DetachFrom(m, t, i)) == Total(m) && LeakedFrames(DetachFrom(m, t, i)) == LeakedFrames(m)
    decreases PT_ENTRIES - i
  {
    if i < PT_ENTRIES {
      var id := FindShared(m.shFrame, Tab(m, t)[i].base);
      var m1 := if Tab(m, t)[i].present && id != -1 then Unmap(m, t, i, id) else m;
      DetachOne(m, t, i);
      if Tab(m, t)[i].present && id != -1 { UnmapBalance(m, t, i, id); }
      DetachBalance(m1, t, i + 1);
    }
  }

  lemma {:induction false} DistinctSize(fs: seq<int>)
    requires Distinct(fs)
    ensures |set f | f in fs| == |fs|
  {
    if fs != [] {
      var n := |fs| - 1;
      DistinctSize(fs[..n]);
      assert fs == fs[..n] + [fs[n]];
      assert (set f | f in fs) == (set f | f in fs[..n]) + {fs[n]};
    }
  }

  lemma TaskFramesDistinct(m: Mem, t: int)
    requires Core(m) && t in m.dir
    ensures Distinct(TaskFrameList(m, t)) && |TaskFrameList(m, t)| == FRAMES_PER_TASK
  {
    TaskFrames(m, t);
    var fs, data := TaskFrameList(m, t), DataFrames(Tab(m, t));
    assert fs[0] == t && fs[1] == m.dir[t] && fs[2] == TableFrame(m, t);
    forall i | 3 <= i < FRAMES_PER_TASK ensures fs[i] in m.own && m.own[fs[i]] == Data(t, i - 3) {
      assert fs[i] == data[i - 3];
    }
  }

  lemma TearDownBalance(m: Mem, t: int)
    requires Core(m) && t in m.dir
    ensures Sized(TearDown(m, t)) && Total(TearDown(m, t)) == Total(m)
    ensures Available(TearDown(m, t)) == Available(m) + FRAMES_PER_TASK
    ensures LeakedFrames(TearDown(m, t)) == LeakedFrames(m)
  {
    var m', fs := TearDown(m, t), TaskFrameList(m, t);
    TaskFramesDistinct(m, t);
    DistinctSize(fs);
    FreedFrames(m, t, set f | f in fs);
    TearDownAvailable(m, m'.phys, set f | f in fs);
    assert m'.dir.Keys == m.dir.Keys - {t};
  }

  lemma FreedFrames(m: Mem, t: int, freed: set<int>)
    requires Core(m) && t in m.dir && freed == set f | f in TaskFrameList(m, t)
    ensures forall f :: f in freed ==> f in m.own && m.own[f] != Pinned
    ensures (set f | f in m.own - freed && (m.own - freed)[f] == Leaked) == LeakedFrames(m)
  {
    forall f ensures f in freed ==> f in m.own && m.own[f] != Leaked && m.own[f] != Pinned { InTaskFrames(m, t, f); }
  }

  lemma TearDownAvailable(m: Mem, phys': seq<Byte>, freed: set<int>)
    requires Core(m) && |phys'| == TOTAL_PAGES
    requires forall f :: f in freed ==> f in m.own && m.own[f] != Pinned
    requires forall f :: 0 <= f < TOTAL_PAGES ==> phys'[f] == if f in freed then FREE_FRAME else m.phys[f]
    ensures |FreeFrom(phys', m.boot.lastKernel)| == Available(m) + |freed|
  {
    GiveBack(m.phys, m.boot.lastKernel, freed, phys');
  }

  lemma ExitBalance(m: Mem, t: int)
    requires Inv(m) && t in m.dir
    ensures Sized(Exit(m, t)) && Total(Exit(m, t)) == Total(m) && LeakedFrames(Exit(m, t)) == LeakedFrames(m)
    ensures Available(Exit(m, t)) == Available(m) + FRAMES_PER_TASK + |Allocated(m)| - |Allocated(Exit(m, t))|
  {
    DetachKeeps(m, t, FIRST_SHARED);
    DetachBalance(m, t, FIRST_SHARED);
    TearDownBalance(DetachFrom(m, t, FIRST_SHARED), t);
  }

  lemma BirthBalance(m: Mem, t: int)
    requires Inv(m) && t in m.dir && Available(m) >= FRAMES_PER_TASK
    ensures var m' := Birth(m, t, LowestGrant(FreeFrames(m)));
      && Sized(m') && Available(m') == Available(m) - FRAMES_PER_TASK
      && |m'.dir| == |m.dir| + 1 && Allocated(m') == Allocated(m) && LeakedFrames(m') == LeakedFrames(m)
  {
    var fs := FreeFrames(m);
    var g := LowestGrant(fs);
    FreeAffords(m);
    BirthKeeps(m, t, g);
    GrantIsLowest(fs);
    UseLowest(m.phys, m.boot.lastKernel, FRAMES_PER_TASK);
    BirthCounts(m, t, g, Birth(m, t, g));
  }

  lemma BirthCounts(m: Mem, t: int, g: Grant, m': Mem)
    requires Inv(m) && t in m.dir && Affords(m, g) && m' == Birth(m, t, g)
    ensures |m'.dir| == |m.dir| + 1 && Allocated(m') == Allocated(m) && LeakedFrames(m') == LeakedFrames(m)
  {
    BirthWrites(m, t, g);
    NewTask(m, g);
    GrantLeaksNothing(m, m', g);
  }

  lemma NewTask(m: Mem, g: Grant)
    requires Core(m) && Affords(m, g)
    ensures |m.dir[g.pcb := g.dir]| == |m.dir| + 1
  {
    InGrant(g, g.pcb);
    if g.pcb in m.dir { TaskFrames(m, g.pcb); }
    assert m.dir[g.pcb := g.dir].Keys == m.dir.Keys + {g.pcb};
  }

  lemma GrantLeaksNothing(m: Mem, m': Mem, g: Grant)
    requires Affords(m, g) && m'.own == m.own + ChildOwners(g)
    ensures LeakedFrames(m') == LeakedFrames(m)
  {
    ChildOwnersAre(g);
    forall f | f in ChildOwners(g) ensures ChildOwners(g)[f] != Leaked && f !in m.own {
      InGrant(g, f);
      if f in g.data { var i := Position(g.data, f); assert ChildOwners(g)[g.data[i]] == Data(g.pcb, i); }
    }
  }

  lemma ForkSuccess(m: Mem, t: int)
    requires Inv(m) && t in m.dir && Available(m) >= FRAMES_PER_TASK
    ensures var m' := Fork(m, t).0;
      && Sized(m') && Available(m') == Available(m) - FRAMES_PER_TASK
      && Total(m') == Total(m) && LeakedFrames(m') == LeakedFrames(m)
  {
    var g := LowestGrant(FreeFrames(m));
    FreeAffords(m);
    BirthBalance(m, t);
    BirthKeeps(m, t, g);
    InheritKeeps(Birth(m, t, g), t, g.pcb, FIRST_SHARED);
    SameTotals(Birth(m, t, g), Fork(m, t).0);
  }

  lemma SameTotals(m: Mem, m': Mem)
    requires Sized(m) && Sized(m') && m'.phys == m.phys && m'.own == m.own && m'.boot == m.boot
    requires m'.shFrame == m.shFrame
    ensures Available(m') == Available(m) && LeakedFrames(m') == LeakedFrames(m) && Allocated(m') == Allocated(m)
  {
  }

  /** The parent's directory is never written, not even while the child still shares it. */
  lemma ForkKeepsParentDirectory(m: Mem, t: int)
    requires Inv(m) && t in m.dir
    ensures PageAt(Fork(m, t).0, m.dir[t]) == PageAt(m, m.dir[t])
  {
    TaskFrames(m, t);
    var fs := FreeFrames(m);
    if |fs| >= FRAMES_PER_TASK {
      var g := LowestGrant(fs);
      FreeAffords(m);
      BirthKeeps(m, t, g);
      BirthWrites(m, t, g);
      InGrant(g, g.table);
      InheritPages(Birth(m, t, g), t, g.pcb, FIRST_SHARED, m.dir[t]);
    } else if |fs| >= 1 {
      RollbackPages(m, t);
    }
  }

  /**
   * A fork needs 23 frames and takes exactly 23. With 2 to 22 it fails and one frame, the directory, is lost;
   * with fewer it fails and loses none.
   */
  lemma ForkAccounting(m: Mem, t: int)
    requires Inv(m) && t in m.dir
    ensures Sized(Fork(m, t).0)
    ensures var n, n' := Available(m), Available(Fork(m, t).0);
      && (n >= FRAMES_PER_TASK ==> Fork(m, t).1.Child? && n' == n - FRAMES_PER_TASK)
      && (2 <= n < FRAMES_PER_TASK ==> Fork(m, t).1 == Failed(EAGAIN) && n' == n - 1)
      && (n == 1 ==> Fork(m, t).1 == Failed(EAGAIN) && n' == n)
      && (n == 0 ==> Fork(m, t).1 == Failed(ENOMEM) && n' == n)
    ensures Total(Fork(m, t).0) == Total(m)
    ensures |LeakedFrames(Fork(m, t).0)| == |LeakedFrames(m)| + if 2 <= Available(m) < FRAMES_PER_TASK then 1 else 0
  {
    if Available(m) >= FRAMES_PER_TASK {
      ForkSuccess(m, t);
    } else if Available(m) >= 1 {
      RollbackBalance(m, t);
    }
  }

  lemma RollbackBalance(m: Mem, t: int)
    requires Inv(m) && t in m.dir && 1 <= Available(m) < FRAMES_PER_TASK
    ensures var m' := Rollback(m, t, FreeFrames(m));
      && Sized(m') && Total(m') == Total(m)
      && Available(m') == Available(m) - (if Available(m) >= 2 then 1 else 0)
      && |LeakedFrames(m')| == |LeakedFrames(m)| + if Available(m) >= 2 then 1 else 0
  {
    var fs := FreeFrames(m);
    var m' := Rollback(m, t, fs);
    RollbackPages(m, t);
    if |fs| >= 2 {
      assert fs[1] in fs;
      TakeOne(m, m'.phys, fs[1]);
      OneLeaked(m, m', fs[1]);
    }
  }

  lemma OneLeaked(m: Mem, m': Mem, f: int)
    requires f !in m.own && m'.own == m.own[f := Leaked]
    ensures LeakedFrames(m') == LeakedFrames(m) + {f} && |LeakedFrames(m')| == |LeakedFrames(m)| + 1
  {
    assert LeakedFrames(m') == LeakedFrames(m) + {f};
  }

  /** An attach leaves the accounts as providing a frame does: mapping costs nothing. */
  lemma ShmatBalance(m: Mem, t: int, id: int, addr: Uint32)
    requires Inv(m) && t in m.dir
    ensures Sized(Shmat(m, t, id, addr).0) && Total(Shmat(m, t, id, addr).0) == Total(m)
    ensures LeakedFrames(Shmat(m, t, id, addr).0) == LeakedFrames(m)
  {
    ShmatKeeps(m, t, id, addr);
    if 0 <= id < NUM_SHARED_PAGES { ProvideBalance(m, id); }
  }

  lemma ShmdtBalance(m: Mem, t: int, addr: Uint32)
    requires Inv(m) && t in m.dir
    ensures Sized(Shmdt(m, t, addr).0) && Total(Shmdt(m, t, addr).0) == Total(m)
    ensures LeakedFrames(Shmdt(m, t, addr).0) == LeakedFrames(m)
  {
    var i := TableIndex(addr);
    if addr % 4096 == 0 && FIRST_SHARED <= i < PT_ENTRIES && Tab(m, t)[i].present {
      var id := FindShared(m.shFrame, Tab(m, t)[i].base);
      if id != -1 { UnmapBalance(m, t, i, id); }
    }
  }

  lemma ShmrmBalance(m: Mem, id: int)
    requires Inv(m)
    ensures Sized(Shmrm(m, id).0) && Total(Shmrm(m, id).0) == Total(m)
    ensures LeakedFrames(Shmrm(m, id).0) == LeakedFrames(m)
  {
    if 0 <= id < NUM_SHARED_PAGES && m.shFrame[id] >= 0 {
      MarkedCore(m, id);
      var m1 := m.(shMark := m.shMark[id := 1]);
      if m1.shRefs[id] == 0 { CleanupBalance(m1, id); }
    }
  }

  /** Whether a step is a fork that fails half-way: the one way to lose a frame. */
  predicate Leaks(m: Mem, op: MemOp)
    requires Sized(m)
  {
    op.OpFork? && op.task in m.dir && 2 <= Available(m) < FRAMES_PER_TASK
  }

  /** Conservation: every step keeps the total, and only a fork that fails half-way leaks, one frame. */
  lemma StepConserves(m: Mem, op: MemOp)
    requires Inv(m)
    ensures Sized(Step(m, op)) && Total(Step(m, op)) == Total(m)
    ensures |LeakedFrames(Step(m, op))| == |LeakedFrames(m)| + if Leaks(m, op) then 1 else 0
  {
    if op.task in m.dir {
      match op
      case OpFork(t) => ForkAccounting(m, t);
      case OpExit(t) => ExitBalance(m, t);
      case OpShmat(t, id, addr) => ShmatBalance(m, t, id, addr);
      case OpShmdt(t, addr) => ShmdtBalance(m, t, addr);
      case OpShmrm(_, id) => ShmrmBalance(m, id);
      case OpStore(t, i, offset, w) =>
      case OpCopyOut(t, i, offset, w) =>
    }
  }

  /** The number of steps of a run that leak. */
  ghost function LeakCount(m: Mem, ops: seq<MemOp>): nat
    requires Inv(m)
    decreases |ops|
  {
    if ops == [] then 0
    else
      StepKeeps(m, ops[0]);
      (if Leaks(m, ops[0]) then 1 else 0) + LeakCount(Step(m, ops[0]), ops[1..])
  }

  /** Over any run the frames lost are exactly the forks that failed half-way; all others are accounted for. */
  lemma {:induction false} RunConserves(m: Mem, ops: seq<MemOp>, m': Mem)
    requires Inv(m) && Reaches(m, ops, m')
    ensures Sized(m') && Total(m') == Total(m)
    ensures |LeakedFrames(m')| == |LeakedFrames(m)| + LeakCount(m, ops)
    decreases |ops|
  {
    if ops != [] {
      StepKeeps(m, ops[0]);
      StepConserves(m, ops[0]);
      RunConserves(Step(m, ops[0]), ops[1..], m');
    }
  }

  // ---------- statistics ----------

  /** What sys_get_stats counts: the frames of the whole byte map that are not in use. */
  function Unused(m: Mem): nat {
    |FreeFrom(m.phys, 0)|
  }

  lemma {:induction false} SkipUsed(phys: seq<Byte>, lo: nat, hi: nat)
    requires lo <= hi <= |phys| && forall f :: lo <= f < hi ==> phys[f] != FREE_FRAME
    ensures FreeFrom(phys, lo) == FreeFrom(phys, hi)
    decreases hi - lo
  {
    if lo < hi { SkipUsed(phys, lo + 1, hi); }
  }

  lemma CountOne(phys: seq<Byte>, lo: nat)
    requires lo < |phys| && phys[lo] == FREE_FRAME
    ensures |FreeFrom(phys, lo)| == 1 + |FreeFrom(phys, lo + 1)|
  {
  }

  lemma {:induction false} CountFree(phys: seq<Byte>, lo: nat, hi: nat)
    requires lo <= hi <= |phys| && forall f :: lo <= f < hi ==> phys[f] == FREE_FRAME
    ensures |FreeFrom(phys, lo)| == hi - lo + |FreeFrom(phys, hi)|
    decreases hi - lo
  {
    if lo < hi {
      CountOne(phys, lo);
      CountFree(phys, lo + 1, hi);
    }
  }

  /** The count includes the frames below the kernel image, which are never allocated. */
  lemma StatsCount(m: Mem)
    requires Inv(m)
    ensures Unused(m) == 0x10 + Available(m)
  {
    forall f ensures 0 <= f < 0x10 ==> m.phys[f] == FREE_FRAME {
      assert !Claim(m, Pinned, f) || 0x10 <= f;
    }
    forall f ensures 0x10 <= f < m.boot.lastKernel ==> m.phys[f] != FREE_FRAME {
      assert Claim(m, Pinned, f) <==> f in m.boot.pinned;
    }
    CountFree(m.phys, 0, 0x10);
    SkipUsed(m.phys, 0x10, m.boot.lastKernel);
  }
}
