/** The state in which the first task starts, with the list words of the two PCBs that booting makes. */
module LinkedBoot {
  import opened Machine
  import opened Frames
  import opened Memory
  import opened MemoryInvariant
  import opened PcbLists
  import opened LinkedMemory
  import opened LinkedRuns
  import MR = MemoryRuns

  /** A task with no parent, no children and nothing pending. */
  function NoFamily(ram: seq<Page>, f: int): (ram': seq<Page>)
    ensures |ram'| == |ram|
  {
    var ram1 := Put(Put(ram, Member(f, PARENT), ZERO_WORD), Member(f, PENDING_UNBLOCKS), ZERO_WORD);
    InitHead(InitHead(ram1, Member(f, CHILDREN_BLOCKED)), Member(f, CHILDREN_UNBLOCKED))
  }

  /** A first PCB: the list part of alloc_pcb, and no family. */
  function Alone(ram: seq<Page>, f: int, tasks: Place): (ram': seq<Page>)
    ensures |ram'| == |ram|
  {
    NoFamily(Enlist(ram, f, tasks), f)
  }

  /**
   * The list words that booting leaves: idle and the first task are in list_tasks, and have no children and no parent.
   */
  function BootLists(ram: seq<Page>, idle: int, init: int, tasks: Place): (ram': seq<Page>)
    ensures |ram'| == |ram|
  {
    InitHead(Alone(Alone(InitHead(ram, tasks), idle, tasks), init, tasks), Member(init, SIBILING))
  }

  /** The kernel's variables lie in the kernel image, and idle has the first frame. */
  ghost predicate BootVars(lastKernel: nat, v: Vars)
    requires 0x10 < lastKernel <= TOTAL_PAGES - MR.BOOT_FRAMES
  {
    && v.tasks in v.heads && Plus(v.tasks, 1) in v.heads && (forall p :: p in v.heads ==> 0x10 <= p.frame < lastKernel)
    && v.idlePcb == IdleFrame(lastKernel)
  }

  /** The frames of the two PCBs that booting makes: idle's, and the first task's. */
  function IdleFrame(lastKernel: nat): int
    requires 0x10 < lastKernel <= TOTAL_PAGES - MR.BOOT_FRAMES
  {
    MR.BootHasRoom(lastKernel);
    FreeFrom(MR.InitFrames(lastKernel), lastKernel)[0]
  }

  function InitFrame(lastKernel: nat): int
    requires 0x10 < lastKernel <= TOTAL_PAGES - MR.BOOT_FRAMES
  {
    MR.BootHasRoom(lastKernel);
    FreeFrom(MR.InitFrames(lastKernel), lastKernel)[2]
  }

  function BootState(lastKernel: nat, ram: seq<Page>, tasks: Place): Mem
    requires 0x10 < lastKernel <= TOTAL_PAGES - MR.BOOT_FRAMES && |ram| == TOTAL_PAGES
  {
    var m := MR.BootMem(lastKernel, ram);
    m.(ram := BootLists(m.ram, IdleFrame(lastKernel), InitFrame(lastKernel), tasks))
  }

  lemma NoFamilyReads(ram: seq<Page>, f: int, q: Place)
    requires 0 <= f < |ram| <= TOTAL_PAGES
    ensures WordAt(NoFamily(ram, f), q) ==
      if q == Member(f, CHILDREN_UNBLOCKED) || q == Member(f, CHILDREN_UNBLOCKED + 1) then
        Pointer(Member(f, CHILDREN_UNBLOCKED))
      else if q == Member(f, CHILDREN_BLOCKED) || q == Member(f, CHILDREN_BLOCKED + 1) then
        Pointer(Member(f, CHILDREN_BLOCKED))
      else if q == Member(f, PARENT) || q == Member(f, PENDING_UNBLOCKS) then ZERO_WORD
      else WordAt(ram, q)
  {
    var ram1 := Put(Put(ram, Member(f, PARENT), ZERO_WORD), Member(f, PENDING_UNBLOCKS), ZERO_WORD);
    InitReads(ram1, Member(f, CHILDREN_BLOCKED), q);
    InitReads(InitHead(ram1, Member(f, CHILDREN_BLOCKED)), Member(f, CHILDREN_UNBLOCKED), q);
  }

  /** What alloc_pcb's list operation leaves to be read, when the last node of list_tasks is in another frame. */
  lemma EnlistReads(ram: seq<Page>, c: int, tasks: Place, q: Place)
    requires |ram| == TOTAL_PAGES && 0 <= c < TOTAL_PAGES && Plus(tasks, 1).frame < TOTAL_PAGES
    requires Plus(tasks, 1).frame != c
    requires Prev(ram, tasks).frame < TOTAL_PAGES && Prev(ram, tasks).frame != c
    ensures WordAt(Enlist(ram, c, tasks), q) ==
      if q == Prev(ram, tasks) then Pointer(Member(c, TASK_LIST))
      else if q == Member(c, TASK_LIST + 1) then Pointer(Prev(ram, tasks))
      else if q == Member(c, TASK_LIST) then Pointer(tasks)
      else if q == Plus(tasks, 1) then Pointer(Member(c, TASK_LIST))
      else WordAt(ram, q)
  {
    var n := Member(c, TASK_LIST);
    InitReads(ram, n, Plus(tasks, 1));
    InitReads(ram, n, q);
    AddTailReads(InitHead(ram, n), n, tasks, q);
  }

  /** The word at q after Alone, where w was before and `last` was the last node of list_tasks. */
  function AloneWord(w: Word, f: int, tasks: Place, last: Place, q: Place): Word {
    if q == Member(f, CHILDREN_UNBLOCKED) || q == Member(f, CHILDREN_UNBLOCKED + 1) then
      Pointer(Member(f, CHILDREN_UNBLOCKED))
    else if q == Member(f, CHILDREN_BLOCKED) || q == Member(f, CHILDREN_BLOCKED + 1) then
      Pointer(Member(f, CHILDREN_BLOCKED))
    else if q == Member(f, PARENT) || q == Member(f, PENDING_UNBLOCKS) then ZERO_WORD
    else if q == last then Pointer(Member(f, TASK_LIST))
    else if q == Member(f, TASK_LIST + 1) then Pointer(last)
    else if q == Member(f, TASK_LIST) then Pointer(tasks)
    else if q == Plus(tasks, 1) then Pointer(Member(f, TASK_LIST))
    else w
  }

  lemma AloneReads(ram: seq<Page>, f: int, tasks: Place, q: Place)
    requires |ram| == TOTAL_PAGES && 0 <= f < TOTAL_PAGES && Plus(tasks, 1).frame < TOTAL_PAGES
    requires Plus(tasks, 1).frame != f
    requires Prev(ram, tasks).frame < TOTAL_PAGES && Prev(ram, tasks).frame != f
    ensures WordAt(Alone(ram, f, tasks), q) == AloneWord(WordAt(ram, q), f, tasks, Prev(ram, tasks), q)
  {
    EnlistReads(ram, f, tasks, q);
    NoFamilyReads(Enlist(ram, f, tasks), f, q);
  }

  /** The word that booting leaves at q. */
  function BootWord(w: Word, idle: int, init: int, tasks: Place, q: Place): Word {
    if q == Member(init, SIBILING) || q == Member(init, SIBILING + 1) then Pointer(Member(init, SIBILING))
    else
      var w1 := if q == tasks || q == Plus(tasks, 1) then Pointer(tasks) else w;
      AloneWord(AloneWord(w1, idle, tasks, tasks, q), init, tasks, Member(idle, TASK_LIST), q)
  }

  ghost predicate FramesApart(idle: int, init: int, tasks: Place) {
    && 0 <= idle < TOTAL_PAGES && 0 <= init < TOTAL_PAGES && idle != init
    && tasks.frame < TOTAL_PAGES && Plus(tasks, 1).frame < TOTAL_PAGES && tasks.frame != idle && tasks.frame != init
    && Plus(tasks, 1).frame != idle && Plus(tasks, 1).frame != init
  }

  /** The words of the first task that booting leaves, and the last node of list_tasks. */
  lemma BootWordsOf(w: Word, idle: int, init: int, tasks: Place)
    requires FramesApart(idle, init, tasks)
    ensures BootWord(w, idle, init, tasks, Plus(tasks, 1)) == Pointer(Member(init, TASK_LIST))
    ensures BootWord(w, idle, init, tasks, Member(init, TASK_LIST + 1)) == Pointer(Member(idle, TASK_LIST))
    ensures BootWord(w, idle, init, tasks,
      Member(init, CHILDREN_UNBLOCKED + 1)) == Pointer(Member(init, CHILDREN_UNBLOCKED))
  {
    assert Member(init, 0).frame == init && Member(idle, 0).frame == idle;
  }

  /** The other words of list_tasks that booting leaves. */
  lemma BootTaskWordsOf(w: Word, idle: int, init: int, tasks: Place)
    requires FramesApart(idle, init, tasks)
    ensures BootWord(w, idle, init, tasks, tasks) == Pointer(Member(idle, TASK_LIST))
    ensures BootWord(w, idle, init, tasks, Member(idle, TASK_LIST)) == Pointer(Member(init, TASK_LIST))
    ensures BootWord(w, idle, init, tasks, Member(idle, TASK_LIST + 1)) == Pointer(tasks)
    ensures BootWord(w, idle, init, tasks, Member(init, TASK_LIST)) == Pointer(tasks)
  {
    assert Member(init, 0).frame == init && Member(idle, 0).frame == idle;
  }

  /** The family words that booting leaves. */
  lemma BootFamilyWordsOf(w: Word, idle: int, init: int, tasks: Place, f: int, i: Index)
    requires FramesApart(idle, init, tasks) && (f == idle || f == init)
    requires (i == CHILDREN_BLOCKED || i == CHILDREN_UNBLOCKED)
    ensures BootWord(w, idle, init, tasks, Member(f, i)) == Pointer(Member(f, i))
    ensures BootWord(w, idle, init, tasks, Plus(Member(f, i), 1)) == Pointer(Member(f, i))
    ensures BootWord(w, idle, init, tasks, Member(init, PARENT)) == ZERO_WORD
  {
    assert Member(init, 0).frame == init && Member(idle, 0).frame == idle;
  }

  /** The words once idle has its PCB. */
  lemma IdleReads(ram: seq<Page>, idle: int, tasks: Place, q: Place)
    requires |ram| == TOTAL_PAGES && 0 <= idle < TOTAL_PAGES
    requires tasks.frame < TOTAL_PAGES && Plus(tasks, 1).frame < TOTAL_PAGES && tasks.frame != idle
    requires Plus(tasks, 1).frame != idle
    ensures WordAt(Alone(InitHead(ram, tasks), idle, tasks), q) ==
      AloneWord(if q == tasks || q == Plus(tasks, 1) then Pointer(tasks) else WordAt(ram, q), idle, tasks, tasks, q)
  {
    InitReads(ram, tasks, Plus(tasks, 1));
    InitReads(ram, tasks, q);
    PointersAreAddresses(tasks);
    AloneReads(InitHead(ram, tasks), idle, tasks, q);
  }

  lemma IdleIsLast(ram: seq<Page>, idle: int, tasks: Place)
    requires |ram| == TOTAL_PAGES && 0 <= idle < TOTAL_PAGES
    requires tasks.frame < TOTAL_PAGES && Plus(tasks, 1).frame < TOTAL_PAGES && tasks.frame != idle
    requires Plus(tasks, 1).frame != idle
    ensures Prev(Alone(InitHead(ram, tasks), idle, tasks), tasks) == Member(idle, TASK_LIST)
  {
    IdleReads(ram, idle, tasks, Plus(tasks, 1));
    PointersAreAddresses(Member(idle, TASK_LIST));
  }

  lemma BootReads(ram: seq<Page>, idle: int, init: int, tasks: Place, q: Place)
    requires |ram| == TOTAL_PAGES && FramesApart(idle, init, tasks)
    ensures WordAt(BootLists(ram, idle, init, tasks), q) == BootWord(WordAt(ram, q), idle, init, tasks, q)
  {
    var ram1 := Alone(InitHead(ram, tasks), idle, tasks);
    IdleReads(ram, idle, tasks, q);
    IdleIsLast(ram, idle, tasks);
    AloneReads(ram1, init, tasks, q);
    InitReads(Alone(ram1, init, tasks), Member(init, SIBILING), q);
  }

  /** The frames whose words booting sets. */
  lemma BootStaysWithin(ram: seq<Page>, idle: int, init: int, tasks: Place, f: int)
    requires |ram| == TOTAL_PAGES && FramesApart(idle, init, tasks)
    requires 0 <= f < TOTAL_PAGES && f != idle && f != init && f != tasks.frame && f != Plus(tasks, 1).frame
    ensures BootLists(ram, idle, init, tasks)[f] == ram[f]
  {
    var r := BootLists(ram, idle, init, tasks);
    forall i | 0 <= i < PT_ENTRIES ensures r[f][i] == ram[f][i] {
      BootReads(ram, idle, init, tasks, Place(f, i));
      OtherWord(WordAt(ram, Place(f, i)), idle, init, tasks, Place(f, i));
      assert WordAt(r, Place(f, i)) == WordAt(ram, Place(f, i));
    }
  }

  lemma OtherWord(w: Word, idle: int, init: int, tasks: Place, q: Place)
    requires FramesApart(idle, init, tasks)
    requires q.frame != idle && q.frame != init && q.frame != tasks.frame && q.frame != Plus(tasks, 1).frame
    ensures BootWord(w, idle, init, tasks, q) == w
  {
  }

  lemma FirstIsApart(fs: seq<int>)
    requires Ascending(fs) && |fs| >= MR.BOOT_FRAMES
    ensures fs[0] != fs[2] && fs[0] !in fs[7..15]
  {
  }

  lemma SameBoot(lastKernel: nat, ram: seq<Page>)
    requires 0x10 < lastKernel <= TOTAL_PAGES - MR.BOOT_FRAMES && |ram| == TOTAL_PAGES
    ensures MR.BootMem(lastKernel, ram).boot == MR.KernelOnly(lastKernel, ram).boot
  {
  }

  lemma IdleIsPinned(lastKernel: nat, ram: seq<Page>)
    requires 0x10 < lastKernel <= TOTAL_PAGES - MR.BOOT_FRAMES && |ram| == TOTAL_PAGES
    ensures var fs := FreeFrom(MR.InitFrames(lastKernel), lastKernel);
      fs != [] && fs[0] in MR.KernelOnly(lastKernel, ram).boot.pinned
  {
    MR.BootHasRoom(lastKernel);
    var fs := FreeFrom(MR.InitFrames(lastKernel), lastKernel);
    assert fs[0] in MR.BootPinned(fs) && fs[0] in fs;
  }

  lemma BootFrames(lastKernel: nat, ram: seq<Page>)
    requires 0x10 < lastKernel <= TOTAL_PAGES - MR.BOOT_FRAMES && |ram| == TOTAL_PAGES
    ensures var fs, m := FreeFrom(MR.InitFrames(lastKernel), lastKernel), MR.BootMem(lastKernel, ram);
      && |fs| >= MR.BOOT_FRAMES && m.dir.Keys == {fs[2]} && fs[0] != fs[2] && lastKernel <= fs[0] < TOTAL_PAGES
      && fs[0] in m.boot.pinned && m.boot.code == fs[7..15] && fs[0] !in m.boot.code
      && m.boot.lastKernel == lastKernel
  {
    MR.BootHasRoom(lastKernel);
    var fs := FreeFrom(MR.InitFrames(lastKernel), lastKernel);
    FirstIsApart(fs);
    assert fs[0] in fs;
    SameBoot(lastKernel, ram);
    IdleIsPinned(lastKernel, ram);
  }

  lemma BootVarsOk(lastKernel: nat, ram: seq<Page>, v: Vars)
    requires 0x10 < lastKernel <= TOTAL_PAGES - MR.BOOT_FRAMES && |ram| == TOTAL_PAGES && BootVars(lastKernel, v)
    ensures Inv(MR.BootMem(lastKernel, ram)) && VarsOk(MR.BootMem(lastKernel, ram), v)
    ensures v.idlePcb != v.tasks.frame && v.idlePcb != Plus(v.tasks, 1).frame
  {
    MR.BootInv(lastKernel, ram);
    BootFrames(lastKernel, ram);
    var fs, m := FreeFrom(MR.InitFrames(lastKernel), lastKernel), MR.BootMem(lastKernel, ram);
    forall p | p in v.heads ensures p.frame in m.boot.pinned && p.frame !in m.boot.code && p.frame != v.idlePcb {
      assert p.frame !in fs;
    }
  }

  /** Booting, list words included, establishes the invariant. */
  lemma BootStateInv(lastKernel: nat, ram: seq<Page>, v: Vars)
    requires 0x10 < lastKernel <= TOTAL_PAGES - MR.BOOT_FRAMES && |ram| == TOTAL_PAGES && BootVars(lastKernel, v)
    ensures Inv(BootState(lastKernel, ram, v.tasks)) && VarsOk(BootState(lastKernel, ram, v.tasks), v)
    ensures Alike(MR.BootMem(lastKernel, ram), BootState(lastKernel, ram, v.tasks))
    ensures FramesApart(v.idlePcb, InitFrame(lastKernel), v.tasks)
    ensures BootState(lastKernel, ram, v.tasks).dir.Keys == {InitFrame(lastKernel)}
  {
    BootFrames(lastKernel, ram);
    BootVarsOk(lastKernel, ram, v);
    BootIsAlike(MR.BootMem(lastKernel, ram), v, InitFrame(lastKernel));
  }

  lemma BootIsAlike(m: Mem, v: Vars, t: int)
    requires Inv(m) && VarsOk(m, v) && t in m.dir && v.idlePcb != v.tasks.frame && v.idlePcb != Plus(v.tasks, 1).frame
    ensures FramesApart(v.idlePcb, t, v.tasks)
    ensures var m' := m.(ram := BootLists(m.ram, v.idlePcb, t, v.tasks)); Alike(m, m') && Inv(m')
  {
    TaskFrames(m, t);
    KernelWords(m, v);
    var m' := m.(ram := BootLists(m.ram, v.idlePcb, t, v.tasks));
    forall f | HoldsMemory(m, f) ensures PageAt(m', f) == PageAt(m, f) {
      BootStaysWithin(m.ram, v.idlePcb, t, v.tasks, f);
    }
    AlikeKeeps(m, m');
  }

  /** Every state that a guarded run reaches after booting satisfies the invariant. */
  lemma LinkedReachableInv(lastKernel: nat, ram: seq<Page>, v: Vars, ops: seq<LinkedOp>, m: Mem)
    requires 0x10 < lastKernel <= TOTAL_PAGES - MR.BOOT_FRAMES && |ram| == TOTAL_PAGES && BootVars(lastKernel, v)
    requires LinkedReaches(BootState(lastKernel, ram, v.tasks), v, ops, m)
    ensures Inv(m)
  {
    BootStateInv(lastKernel, ram, v);
    LinkedRunKeeps(BootState(lastKernel, ram, v.tasks), v, ops, m);
  }
}
