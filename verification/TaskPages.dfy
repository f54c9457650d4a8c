/** What fork, exit and the kernel's copies leave in pages: the directories of tasks, and what stays in freed frames. */
module TaskPages {
  import opened Machine
  import opened Frames
  import opened Memory
  import opened MemoryInvariant
  import opened TaskLife
  import opened MemoryTheorems
  import opened Balance
  import opened LinkedMemory
  import opened LinkedRuns
  import opened LinkedBoot
  import opened SharedCalls
  import MR = MemoryRuns

  // ---------- the directory of a child ----------

  /** A directory with the kernel's two tables of `from`, a user table in frame u, and nothing else. */
  ghost predicate DirectoryFrom(d: Page, from: Page, u: int) {
    && d[0] == from[0] && d[1] == from[1]
    && d[2].present && d[2].rw && d[2].user && d[2].base == u
    && forall i :: 3 <= i < 1024 ==> d[i] == ZERO_WORD
  }

  lemma ForkFills(m: Mem, t: int)
    requires Sized(m) && t in m.dir && FRAMES_PER_TASK <= |FreeFrames(m)| && Affords(m, LowestGrant(FreeFrames(m)))
    ensures var g := LowestGrant(FreeFrames(m)); Fork(m, t).0 == Inherit(Birth(m, t, g), t, g.pcb, FIRST_SHARED)
  {
  }

  lemma ChildDirStays(m: Mem, t: int, g: Grant)
    requires Inv(m) && t in m.dir && Affords(m, g)
    ensures PageAt(Inherit(Birth(m, t, g), t, g.pcb, FIRST_SHARED), g.dir) == ChildDir(PageAt(m, m.dir[t]), g.table)
  {
    BirthKeeps(m, t, g);
    BirthWrites(m, t, g);
    InGrant(g, g.table);
    assert g.dir != g.table;
    InheritPages(Birth(m, t, g), t, g.pcb, FIRST_SHARED, g.dir);
  }

  lemma ChildDirIs(parent: Page, u: int)
    requires 0 <= u < TOTAL_PAGES
    ensures DirectoryFrom(ChildDir(parent, u), parent, u)
  {
  }

  /**
   * The child of a fork that succeeds has the kernel's tables of its parent, each at its place, and its own user table.
   */
  lemma ForkDirectory(m: Mem, t: int)
    requires Inv(m) && t in m.dir && Fork(m, t).1.Child?
    ensures var m', c := Fork(m, t).0, Fork(m, t).1.pcb;
      && c in m'.dir && m'.dir[c] !in m.own
      && DirectoryFrom(PageAt(m', m'.dir[c]), PageAt(m, m.dir[t]), TableFrame(m', c))
      && TableFrame(m', c) !in m.own
  {
    var g := LowestGrant(FreeFrames(m));
    FreeAffords(m);
    ForkFills(m, t);
    ChildDirStays(m, t, g);
    ForkTables(m, t, g);
    InGrant(g, g.dir);
    InGrant(g, g.table);
    ChildDirIs(PageAt(m, m.dir[t]), g.table);
  }

  /** The same with the list operations of fork, when they write only where it is harmless. */
  lemma LinkedForkDirectory(m: Mem, v: Vars, t: int)
    requires Inv(m) && VarsOk(m, v) && t in m.dir && ForkGuard(m, v, t) && LinkedFork(m, v, t).1.Child?
    ensures var m', c := LinkedFork(m, v, t).0, LinkedFork(m, v, t).1.pcb;
      && c in m'.dir && DirectoryFrom(PageAt(m', m'.dir[c]), PageAt(m, m.dir[t]), TableFrame(m', c))
  {
    var m1 := Enlisted(m, v);
    LinkedForkIsFork(m, v, t);
    ForkDirectory(m1, t);
    ForkKeeps(m1, t);
    AlikeDirectory(m, m1, t);
    AlikeDirectory(Fork(m1, t).0, LinkedFork(m, v, t).0, Fork(m1, t).1.pcb);
  }

  lemma AlikeDirectory(m: Mem, m': Mem, s: int)
    requires Core(m) && Alike(m, m') && s in m.dir
    ensures m'.dir == m.dir && PageAt(m', m.dir[s]) == PageAt(m, m.dir[s]) && TableFrame(m', s) == TableFrame(m, s)
  {
    TaskFrames(m, s);
    assert HoldsMemory(m, m.dir[s]);
    AlikeTables(m, m');
  }

  /** What fork answers, by the number of free frames. */
  lemma ForkAnswers(m: Mem, t: int)
    requires Inv(m) && t in m.dir
    ensures Fork(m, t).1 ==
      if Available(m) >= 23 then Child(NextFree(m)) else if Available(m) >= 1 then Failed(11) else Failed(12)
  {
    ForkAccounting(m, t);
    ForkTasks(m, t);
  }

  // ---------- what exit leaves in memory ----------

  /** The contents of frame f from m to m': kept, or zero if its page was reclaimed. */
  ghost predicate KeptOrZero(m: Mem, m': Mem, f: int) {
    && (f !in m.own ==> f !in m'.own)
    && PageAt(m', f) == if f in m.own && f !in m'.own then ZeroPage() else PageAt(m, f)
  }

  lemma UnmappedPage(m: Mem, t: int, i: int, f: int)
    requires Inv(m) && t in m.dir && 28 <= i < 1024 && f != TableFrame(m, t)
    ensures var id := FindShared(m.shFrame, Tab(m, t)[i].base);
      var m1 := if Tab(m, t)[i].present && id != -1 then Unmap(m, t, i, id) else m;
      Inv(m1) && t in m1.dir && TableFrame(m1, t) == TableFrame(m, t) && KeptOrZero(m, m1, f)
  {
    DetachOne(m, t, i);
    if Tab(m, t)[i].present {
      var id := PageOf(m, t, i);
      UnmapIsEntry(m, t, i, id);
      SharedFrames(m, id);
    }
  }

  /** While a task lets go of its shared pages, all other pages keep their contents; those reclaimed are zero. */
  lemma {:induction false} DetachedPage(m: Mem, t: int, i: int, f: int)
    requires Inv(m) && t in m.dir && 28 <= i <= 1024 && f != TableFrame(m, t)
    ensures KeptOrZero(m, DetachFrom(m, t, i), f)
    decreases 1024 - i
  {
    if i < 1024 {
      var id := FindShared(m.shFrame, Tab(m, t)[i].base);
      var m1 := if Tab(m, t)[i].present && id != -1 then Unmap(m, t, i, id) else m;
      UnmappedPage(m, t, i, f);
      DetachedPage(m1, t, i + 1, f);
    }
  }

  /**
   * All that exit changes in the pages of memory. The private data of the task stays in the frames that are free then.
   */
  lemma ExitPages(m: Mem, t: int, f: int)
    requires Inv(m) && t in m.dir && 0 <= f < TOTAL_PAGES
    ensures var m', tab := Exit(m, t), Tab(m, t);
      && |m'.ram| == |m.ram|
      && (f == m.dir[t] ==> PageAt(m', f) == PageAt(m, f)[2 := ZERO_WORD])
      && (f == TableFrame(m, t) ==>
            forall i :: 0 <= i < 1024 ==> PageAt(m', f)[i] == if 20 <= i < 28 then tab[i] else ZERO_WORD)
      && (f != m.dir[t] && f != TableFrame(m, t) ==>
            PageAt(m', f) == if GoesWith(m, t, f) then ZeroPage() else PageAt(m, f))
  {
    var m1 := DetachFrom(m, t, FIRST_SHARED);
    TaskFrames(m, t);
    DetachKeeps(m, t, FIRST_SHARED);
    DetachKeepsFrames(m, t);
    TornPage(m1, t, f);
    if f != TableFrame(m, t) {
      DetachedPage(m, t, FIRST_SHARED, f);
      DetachedOwner(m, t, f);
    }
  }

  lemma DetachKeepsFrames(m: Mem, t: int)
    requires Inv(m) && t in m.dir
    ensures var m1 := DetachFrom(m, t, FIRST_SHARED);
      && Inv(m1) && m1.dir == m.dir && |m1.ram| == |m.ram| && TableFrame(m1, t) == TableFrame(m, t)
      && (forall i :: 0 <= i < 28 ==> Tab(m1, t)[i] == Tab(m, t)[i])
      && (forall i :: 28 <= i < 1024 ==> Tab(m1, t)[i] == ZERO_WORD)
  {
    DetachKeeps(m, t, FIRST_SHARED);
  }

  lemma TornPage(m: Mem, t: int, f: int)
    requires Core(m) && t in m.dir && 0 <= f < TOTAL_PAGES
    ensures var m' := TearDown(m, t);
      && |m'.ram| == |m.ram|
      && (f == m.dir[t] ==> PageAt(m', f) == PageAt(m, f)[2 := ZERO_WORD])
      && (f == TableFrame(m, t) ==>
            forall i :: 0 <= i < 1024 ==> PageAt(m', f)[i] == if i < 20 then ZERO_WORD else Tab(m, t)[i])
      && (f != m.dir[t] && f != TableFrame(m, t) ==> PageAt(m', f) == PageAt(m, f))
  {
    TaskFrames(m, t);
  }

  /** Letting go of shared pages frees exactly those that go with the task. */
  lemma DetachedOwner(m: Mem, t: int, f: int)
    requires Inv(m) && t in m.dir
    ensures f in m.own && f !in DetachFrom(m, t, FIRST_SHARED).own <==> GoesWith(m, t, f)
  {
    var m1 := DetachFrom(m, t, FIRST_SHARED);
    ExitOwner(m, t, f);
    DetachKeepsFrames(m, t);
    assert Exit(m, t).own == m1.own - (set g | g in TaskFrameList(m1, t));
    ExitTables(m, t);
    InTaskFrames(m, t, f);
    if GoesWith(m, t, f) {
      var id :| 0 <= id < NUM_SHARED_PAGES && m.shFrame[id] == f && m.shMark[id] == 1;
      assert SharedOk(m, id);
      SharedFrames(m, id);
    }
    if f in TaskFrameList(m, t) { StillOwned(m1, t, f); }
  }

  lemma StillOwned(m: Mem, t: int, f: int)
    requires Core(m) && t in m.dir && f in TaskFrameList(m, t)
    ensures f in m.own && !m.own[f].Shared?
  {
    InTaskFrames(m, t, f);
    TaskFrames(m, t);
  }

  // ---------- every task runs with the kernel's tables ----------

  lemma MemoryStepDirectory(m: Mem, op: MR.MemOp, s: int)
    requires Inv(m) && !op.OpFork? && !op.OpExit? && s in m.dir
    ensures PageAt(MR.Step(m, op), m.dir[s]) == PageAt(m, m.dir[s])
  {
    if op.task in m.dir {
      match op
      case OpShmat(t, id, addr) => ShmatDirectory(m, t, id, addr, s);
      case OpShmdt(t, addr) =>
        ShmdtAnswers(m, t, addr);
        if i :| DetachesAt(m, t, addr, i) { DetachDirectory(m, t, addr, i, s); }
      case OpShmrm(_, id) => ShmrmDirectory(m, id, s);
      case OpStore(t, i, offset, w) => WriteDirectory(m, t, i, s);
      case OpCopyOut(t, i, offset, w) => WriteDirectory(m, t, i, s);
    }
  }

  lemma ShmatDirectory(m: Mem, t: int, id: int, addr: Uint32, s: int)
    requires Inv(m) && t in m.dir && s in m.dir
    ensures PageAt(Shmat(m, t, id, addr).0, m.dir[s]) == PageAt(m, m.dir[s])
  {
    TaskFrames(m, s);
    TaskFrames(m, t);
    ShmatAnswers(m, t, id, addr);
    if Shmat(m, t, id, addr).1 >= 0 {
      var i :| PlaceFor(m, t, id, addr, i);
      ShmatEffect(m, t, id, addr, i);
    } else if 0 <= id < NUM_SHARED_PAGES {
      ProvideKeeps(m, id);
    }
  }

  lemma ShmrmDirectory(m: Mem, id: int, s: int)
    requires Inv(m) && s in m.dir
    ensures PageAt(Shmrm(m, id).0, m.dir[s]) == PageAt(m, m.dir[s])
  {
    ShmrmAnswers(m, id);
    if Shmrm(m, id).1 == 0 {
      TaskFrames(m, s);
      SharedFrames(m, id);
      ShmrmEffect(m, id);
    }
  }

  lemma DetachDirectory(m: Mem, t: int, addr: Uint32, i: int, s: int)
    requires DetachesAt(m, t, addr, i) && s in m.dir
    ensures PageAt(Shmdt(m, t, addr).0, m.dir[s]) == PageAt(m, m.dir[s])
  {
    var id := PageOf(m, t, i);
    ShmdtEffect(m, t, addr, i, id);
    SharedFrames(m, id);
    TaskFrames(m, s);
    TaskFrames(m, t);
  }

  lemma WriteDirectory(m: Mem, t: int, i: int, s: int)
    requires Inv(m) && t in m.dir && s in m.dir
    ensures 0 <= i < PT_ENTRIES && Tab(m, t)[i].present ==> Tab(m, t)[i].base != m.dir[s]
  {
    TaskFrames(m, s);
    if 0 <= i < PT_ENTRIES && Tab(m, t)[i].present { UserFrame(m, t, i); }
  }

  /** k0 and k1 are entries 0 and 1 of every task's directory. */
  ghost predicate AllRunKernel(m: Mem, k0: Word, k1: Word) {
    forall s :: s in m.dir ==> PageAt(m, m.dir[s])[0] == k0 && PageAt(m, m.dir[s])[1] == k1
  }

  lemma AlikeRunKernel(m: Mem, m': Mem, k0: Word, k1: Word)
    requires Core(m) && Alike(m, m') && AllRunKernel(m, k0, k1)
    ensures AllRunKernel(m', k0, k1)
  {
    forall s | s in m.dir ensures PageAt(m', m'.dir[s]) == PageAt(m, m.dir[s]) { AlikeDirectory(m, m', s); }
  }

  lemma ForkRunsKernel(m: Mem, t: int, k0: Word, k1: Word)
    requires Inv(m) && t in m.dir && AllRunKernel(m, k0, k1)
    ensures AllRunKernel(Fork(m, t).0, k0, k1)
  {
    var m' := Fork(m, t).0;
    if Fork(m, t).1.Child? { ForkDirectory(m, t); }
    ForkTasks(m, t);
    forall s | s in m.dir ensures s in m'.dir && m'.dir[s] == m.dir[s] && PageAt(m', m.dir[s]) == PageAt(m, m.dir[s]) {
      ForkLeavesDirectory(m, t, s);
    }
  }

  lemma ForkLeavesDirectory(m: Mem, t: int, s: int)
    requires Inv(m) && t in m.dir && s in m.dir
    ensures var m' := Fork(m, t).0;
      s in m'.dir && m'.dir[s] == m.dir[s] && PageAt(m', m.dir[s]) == PageAt(m, m.dir[s])
  {
    TaskFrames(m, s);
    var fs := FreeFrames(m);
    if |fs| >= FRAMES_PER_TASK {
      FreeAffords(m);
      ForkTables(m, t, LowestGrant(fs));
      ForkPages(m, t, m.dir[s]);
      TaskFrames(m, t);
    } else if |fs| >= 1 {
      RollbackPages(m, t);
    }
  }

  lemma ExitRunsKernel(m: Mem, t: int, k0: Word, k1: Word)
    requires Inv(m) && t in m.dir && AllRunKernel(m, k0, k1)
    ensures AllRunKernel(Exit(m, t), k0, k1)
  {
    ExitTables(m, t);
    forall s | s in m.dir && s != t ensures PageAt(Exit(m, t), m.dir[s]) == PageAt(m, m.dir[s]) {
      TaskFrames(m, s);
      TaskFrames(m, t);
      ExitPages(m, t, m.dir[s]);
      if GoesWith(m, t, m.dir[s]) {
        var id :| 0 <= id < NUM_SHARED_PAGES && m.shFrame[id] == m.dir[s];
        SharedFrames(m, id);
      }
    }
  }

  /** No step changes the kernel's tables of a task, and fork hands them on. */
  lemma StepRunsKernel(m: Mem, v: Vars, op: LinkedOp, k0: Word, k1: Word)
    requires Inv(m) && VarsOk(m, v) && Guard(m, v, op) && AllRunKernel(m, k0, k1)
    ensures AllRunKernel(LinkedStep(m, v, op), k0, k1)
  {
    match op
    case ForkStep(t) => if t in m.dir { LinkedForkRunsKernel(m, v, t, k0, k1); }
    case ExitStep(t) =>
      if t in m.dir {
        LinkedExitIsExit(m, v, t);
        ExitRunsKernel(m, t, k0, k1);
        AlikeRunKernel(Exit(m, t), LinkedExit(m, t), k0, k1);
      }
    case MemoryStep(o) =>
      if !o.OpFork? && !o.OpExit? {
        OtherTasks(m, o);
        forall s | s in m.dir ensures PageAt(MR.Step(m, o), m.dir[s]) == PageAt(m, m.dir[s]) {
          MemoryStepDirectory(m, o, s);
        }
      }
    case _ =>
      ListStepIsAlike(m, v, op);
      AlikeRunKernel(m, LinkedStep(m, v, op), k0, k1);
  }

  lemma LinkedForkRunsKernel(m: Mem, v: Vars, t: int, k0: Word, k1: Word)
    requires Inv(m) && VarsOk(m, v) && t in m.dir && ForkGuard(m, v, t) && AllRunKernel(m, k0, k1)
    ensures AllRunKernel(LinkedFork(m, v, t).0, k0, k1)
  {
    if FreeFrames(m) != [] {
      LinkedForkIsFork(m, v, t);
      AlikeRunKernel(m, Enlisted(m, v), k0, k1);
      ForkRunsKernel(Enlisted(m, v), t, k0, k1);
      ForkKeeps(Enlisted(m, v), t);
      AlikeRunKernel(Fork(Enlisted(m, v), t).0, LinkedFork(m, v, t).0, k0, k1);
    }
  }

  lemma {:induction false} RunRunsKernel(m: Mem, v: Vars, ops: seq<LinkedOp>, m': Mem, k0: Word, k1: Word)
    requires Inv(m) && VarsOk(m, v) && LinkedReaches(m, v, ops, m') && AllRunKernel(m, k0, k1)
    ensures AllRunKernel(m', k0, k1)
    decreases |ops|
  {
    if ops != [] {
      StepRunsKernel(m, v, ops[0], k0, k1);
      LinkedStepKeeps(m, v, ops[0]);
      RunRunsKernel(LinkedStep(m, v, ops[0]), v, ops[1..], m', k0, k1);
    }
  }

  /** After booting: the kernel's first table at entry 0 and its second at entry 1, neither for user mode. */
  function KernelEntry(lastKernel: nat, second: bool): Word
    requires 0x10 < lastKernel <= TOTAL_PAGES - MR.BOOT_FRAMES
  {
    MR.BootHasRoom(lastKernel);
    var fs := FreeFrom(MR.InitFrames(lastKernel), lastKernel);
    Word(true, true, false, 0, ToBase(if second then fs[5] else fs[4]))
  }

  lemma FirstTaskPages(m: Mem, g: Grant, dir: Page, tab: Page)
    requires Affords(m, g)
    ensures var m' := MR.FirstTask(m, g, dir, tab);
      m'.dir == map[g.pcb := g.dir] && PageAt(m', g.dir) == dir && PageAt(m', g.table) == tab
  {
    InGrant(g, g.dir);
    InGrant(g, g.table);
  }

  lemma FirstTaskIs(lastKernel: nat, ram: seq<Page>) returns (fs: seq<int>)
    requires 0x10 < lastKernel <= TOTAL_PAGES - MR.BOOT_FRAMES && |ram| == TOTAL_PAGES
    ensures fs == FreeFrom(MR.InitFrames(lastKernel), lastKernel) && |fs| >= MR.BOOT_FRAMES
    ensures var m, g := MR.BootMem(lastKernel, ram), MR.BootGrant(fs);
      && m.dir == map[g.pcb := g.dir] && PageAt(m, g.dir) == MR.BootDir(fs[4], fs[5], g.table)
      && PageAt(m, g.table) == MR.InitTable(fs[7..15], g.data) && 0 <= g.table < TOTAL_PAGES
  {
    MR.BootAffords(lastKernel, ram);
    fs := FreeFrom(MR.InitFrames(lastKernel), lastKernel);
    var g := MR.BootGrant(fs);
    FirstTaskPages(MR.KernelOnly(lastKernel, ram), g, MR.BootDir(fs[4], fs[5], g.table),
      MR.InitTable(fs[7..15], g.data));
    InGrant(g, g.table);
  }

  lemma FirstTaskRunsKernel(lastKernel: nat, ram: seq<Page>)
    requires 0x10 < lastKernel <= TOTAL_PAGES - MR.BOOT_FRAMES && |ram| == TOTAL_PAGES
    ensures AllRunKernel(MR.BootMem(lastKernel, ram), KernelEntry(lastKernel, false), KernelEntry(lastKernel, true))
  {
    var fs := FirstTaskIs(lastKernel, ram);
    BootDirIs(fs[4], fs[5], MR.BootGrant(fs).table);
  }

  lemma BootDirIs(first: int, second: int, user: int)
    ensures var d := MR.BootDir(first, second, user);
      && d[0] == Word(true, true, false, 0, ToBase(first)) && d[1] == Word(true, true, false, 0, ToBase(second))
      && d[2].base == ToBase(user)
  {
  }

  /** Every task that any such run from booting makes runs with the kernel's two tables, each at its place. */
  lemma KernelTablesEverywhere(lastKernel: nat, ram: seq<Page>, v: Vars, ops: seq<LinkedOp>, m: Mem, s: int)
    requires 0x10 < lastKernel <= TOTAL_PAGES - MR.BOOT_FRAMES && |ram| == TOTAL_PAGES && BootVars(lastKernel, v)
    requires LinkedReaches(BootState(lastKernel, ram, v.tasks), v, ops, m) && s in m.dir
    ensures PageAt(m, m.dir[s])[0] == KernelEntry(lastKernel, false)
    ensures PageAt(m, m.dir[s])[1] == KernelEntry(lastKernel, true)
  {
    var b, k0, k1 := BootState(lastKernel, ram, v.tasks), KernelEntry(lastKernel, false), KernelEntry(lastKernel, true);
    MR.BootInv(lastKernel, ram);
    BootStateInv(lastKernel, ram, v);
    FirstTaskRunsKernel(lastKernel, ram);
    AlikeRunKernel(MR.BootMem(lastKernel, ram), b, k0, k1);
    RunRunsKernel(b, v, ops, m, k0, k1);
  }

  // ---------- words that the kernel copies to a task ----------

  /** They are seen through exactly the mappings of the same frame, whether the task may write the page or not. */
  lemma CopyOutIsSeen(m: Mem, t: int, i: int, offset: int, w: Word, s: int, j: int)
    requires Inv(m) && t in m.dir && s in m.dir && 0 <= i < PT_ENTRIES && 0 <= j < PT_ENTRIES
    requires 0 <= offset < PT_ENTRIES && Tab(m, s)[j].present
    ensures var m' := CopyOut(m, t, i, offset, w);
      && m' == m.(ram := m'.ram) && |m'.ram| == |m.ram|
      && (forall f :: f != Tab(m, t)[i].base ==> PageAt(m', f) == PageAt(m, f))
      && Load(m', s, j) == if Tab(m, t)[i].present && Tab(m, s)[j].base == Tab(m, t)[i].base then
        Load(m, s, j)[offset := w] else Load(m, s, j)
  {
    CopyOutTables(m, t, i, offset, w);
    UserFrame(m, s, j);
    if Tab(m, t)[i].present { UserFrame(m, t, i); }
  }

  /** The first task cannot write its code: such a store faults and changes nothing. */
  lemma FirstCodeIsReadOnly(lastKernel: nat, ram: seq<Page>, t: int, i: int, offset: int, w: Word)
    requires 0x10 < lastKernel <= TOTAL_PAGES - MR.BOOT_FRAMES && |ram| == TOTAL_PAGES
    requires t in MR.BootMem(lastKernel, ram).dir && 20 <= i < 28 && 0 <= offset < PT_ENTRIES
    ensures var m := MR.BootMem(lastKernel, ram); Store(m, t, i, offset, w) == m
  {
    var fs := FirstTaskIs(lastKernel, ram);
    BootDirIs(fs[4], fs[5], MR.BootGrant(fs).table);
  }
}
