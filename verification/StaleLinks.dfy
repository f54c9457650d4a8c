/**
 * What goes wrong once the frame of a freed PCB is used for something else, on a run that starts right after booting.
 */
module StaleLinks {
  import opened Machine
  import opened Frames
  import opened Memory
  import opened MemoryInvariant
  import opened TaskLife
  import opened MemoryTheorems
  import opened Balance
  import opened Reclaim
  import opened PcbLists
  import opened LinkedMemory
  import opened LinkedRuns
  import opened LinkedBoot

  /** The words of the first task and of list_tasks, when nothing has been forked yet. */
  ghost predicate OnlyTask(m: Mem, v: Vars, t: int) {
    && Prev(m.ram, v.tasks) == Member(t, TASK_LIST)
    && Prev(m.ram, Member(t, TASK_LIST)) == Member(v.idlePcb, TASK_LIST)
    && Prev(m.ram, Member(t, CHILDREN_UNBLOCKED)) == Member(t, CHILDREN_UNBLOCKED)
  }

  /** Task t has forked nobody, and there are frames enough for a child. */
  ghost predicate Childless(m: Mem, v: Vars, t: int) {
    Inv(m) && VarsOk(m, v) && t in m.dir && OnlyTask(m, v, t) && FRAMES_PER_TASK <= Available(m)
  }

  /** And no shared page is in use. */
  ghost predicate FreshSystem(m: Mem, v: Vars, t: int) {
    && Childless(m, v, t)
    && (forall id :: 0 <= id < NUM_SHARED_PAGES ==> m.shFrame[id] == -1)
    && Tab(m, t)[FIRST_SHARED] == ZERO_WORD
    && FRAMES_PER_TASK < Available(m)
  }

  // ---------- the first fork ----------

  /** The words that matter after the fork: the child is the caller's last child, and the last of list_tasks. */
  ghost predicate OneChild(m: Mem, v: Vars, t: int, c: int) {
    && Prev(m.ram, v.tasks) == Member(c, TASK_LIST)
    && Prev(m.ram, Member(t, CHILDREN_UNBLOCKED)) == Member(c, SIBILING)
    && WordAt(m.ram, Member(c, SIBILING)) == Pointer(Member(t, CHILDREN_UNBLOCKED))
    && Next(m.ram, Member(c, TASK_LIST)) == Member(c, TASK_LIST)
    && Prev(m.ram, Member(c, TASK_LIST)) == Member(v.idlePcb, TASK_LIST)
  }

  lemma OutsideKernel(m: Mem, v: Vars, t: int)
    requires Core(m) && VarsOk(m, v) && t in m.dir
    ensures 0 <= t < TOTAL_PAGES && t in m.own && m.own[t] == Pcb(t) && t != v.idlePcb && t != v.tasks.frame
    ensures t != Plus(v.tasks, 1).frame
    ensures forall f :: f in FreeFrames(m) ==>
      f != v.idlePcb && f != v.tasks.frame && f != Plus(v.tasks, 1).frame && f != t
  {
    TaskFrames(m, t);
    KernelWords(m, v);
  }

  lemma FirstForkGuard(m: Mem, v: Vars, t: int)
    requires Childless(m, v, t)
    ensures ForkGuard(m, v, t)
    ensures Prev(Enlisted(m, v).ram, Member(t, CHILDREN_UNBLOCKED)) == Member(t, CHILDREN_UNBLOCKED)
    ensures Next(Enlisted(m, v).ram, Member(t, TASK_LIST)) == Member(FreeFrames(m)[0], TASK_LIST)
    ensures Prev(Enlisted(m, v).ram, Member(t, TASK_LIST)) == Member(v.idlePcb, TASK_LIST)
  {
    var fs := FreeFrames(m);
    var c := fs[0];
    assert c in fs;
    OutsideKernel(m, v, t);
    OwnWords(m, v, t, TASK_LIST);
    OwnWords(m, v, t, CHILDREN_UNBLOCKED);
    EnlistWords(m.ram, c, v.tasks, Plus(Member(t, CHILDREN_UNBLOCKED), 1));
    EnlistWords(m.ram, c, v.tasks, Member(t, TASK_LIST));
    EnlistWords(m.ram, c, v.tasks, Plus(Member(t, TASK_LIST), 1));
    PointersAreAddresses(Member(c, TASK_LIST));
    assert t !in fs[..FRAMES_PER_TASK];
  }

  lemma FirstFork(m: Mem, v: Vars, t: int)
    requires Childless(m, v, t)
    ensures var c, m1 := FreeFrames(m)[0], LinkedFork(m, v, t).0;
      && Inv(m1) && VarsOk(m1, v) && c !in m.own && OneChild(m1, v, t, c)
      && m1.dir.Keys == m.dir.Keys + {c} && m1.shFrame == m.shFrame && Tab(m1, t) == Tab(m, t)
      && m1.shMark == m.shMark && m1.boot == m.boot
      && Available(m1) == Available(m) - FRAMES_PER_TASK
      && (forall f :: f in m.own ==> f in m1.own && m1.own[f] == m.own[f])
  {
    var e := Enlisted(m, v);
    FirstForkGuard(m, v, t);
    LinkedForkIsFork(m, v, t);
    LinkedForkDisturbsNobody(m, v, t, t, 0);
    FirstForkOwns(m, e, t, Fork(e, t).0);
    FirstForkWords(m, v, t, e, Fork(e, t).0);
  }

  lemma FirstForkOwns(m: Mem, e: Mem, t: int, m2: Mem)
    requires Inv(e) && t in e.dir && Alike(m, e) && FRAMES_PER_TASK <= |FreeFrames(e)| && Sized(m) && m2 == Fork(e, t).0
    ensures Fork(e, t).1.Child? && FreeFrames(m) != [] && FreeFrames(m)[0] !in m.own
    ensures m2.boot == m.boot && m2.dir.Keys == m.dir.Keys + {FreeFrames(m)[0]}
    ensures m2.shFrame == m.shFrame && m2.shMark == m.shMark
    ensures Sized(m2) && Available(m2) == Available(m) - FRAMES_PER_TASK
    ensures forall f :: f in m.own ==> f in m2.own && m2.own[f] == m.own[f]
  {
    ForkTasks(e, t);
    ForkAccounting(e, t);
    ForkAdds(e, t, m2, 0);
    assert FreeFrames(e)[0] in FreeFrames(e);
    forall f | f in m.own ensures f in m2.own && m2.own[f] == m.own[f] { ForkAdds(e, t, m2, f); }
  }

  lemma FirstForkPages(m: Mem, v: Vars, t: int, e: Mem, m2: Mem)
    requires Inv(m) && VarsOk(m, v) && t in m.dir && FRAMES_PER_TASK <= |FreeFrames(m)|
    requires Inv(e) && Alike(m, e) && m2 == Fork(e, t).0
    ensures var c, q := FreeFrames(m)[0], Plus(v.tasks, 1);
      && |m2.ram| == |e.ram| == TOTAL_PAGES && 0 <= t < TOTAL_PAGES && 0 <= c < TOTAL_PAGES && q.frame < TOTAL_PAGES
      && c != t && q.frame != c && q.frame != t && m2.ram[c] == e.ram[t] && m2.ram[t] == e.ram[t]
      && m2.ram[q.frame] == e.ram[q.frame]
  {
    OutsideKernel(m, v, t);
    KernelWords(m, v);
    assert FreeFrames(m)[0] in FreeFrames(m);
    ForkPages(e, t, t);
    ForkPages(e, t, Plus(v.tasks, 1).frame);
  }

  lemma FirstForkWords(m: Mem, v: Vars, t: int, e: Mem, m2: Mem)
    requires Childless(m, v, t) && e == Enlisted(m, v) && Inv(e) && Alike(m, e) && m2 == Fork(e, t).0
    ensures OneChild(m2.(ram := JoinFamily(m2.ram, FreeFrames(m)[0], t)), v, t, FreeFrames(m)[0])
  {
    var c, q := FreeFrames(m)[0], Plus(v.tasks, 1);
    FirstForkPages(m, v, t, e, m2);
    FirstForkGuard(m, v, t);
    EnlistTail(m, v, c);
    AllJoined(e.ram, m2.ram, v, c, t);
  }

  lemma EnlistTail(m: Mem, v: Vars, c: int)
    requires Inv(m) && VarsOk(m, v) && FreeFrames(m) != [] && c == FreeFrames(m)[0]
    requires Harmless(m, v, Prev(m.ram, v.tasks))
    ensures WordAt(Enlist(m.ram, c, v.tasks), Plus(v.tasks, 1)) == Pointer(Member(c, TASK_LIST))
  {
    KernelWords(m, v);
    assert c in FreeFrames(m);
    EnlistWords(m.ram, c, v.tasks, Plus(v.tasks, 1));
  }

  lemma AllJoined(e: seq<Page>, ram: seq<Page>, v: Vars, c: int, t: int)
    requires |e| == |ram| == TOTAL_PAGES && 0 <= c < TOTAL_PAGES && 0 <= t < TOTAL_PAGES && c != t
    requires var q := Plus(v.tasks, 1);
      q.frame < TOTAL_PAGES && q.frame != c && q.frame != t && WordAt(e, q) == Pointer(Member(c, TASK_LIST))
        && ram[q.frame] == e[q.frame]
    requires ram[c] == e[t] && ram[t] == e[t] && Prev(e, Member(t, CHILDREN_UNBLOCKED)) == Member(t, CHILDREN_UNBLOCKED)
    requires Next(e, Member(t, TASK_LIST)) == Member(c, TASK_LIST)
    requires Prev(e, Member(t, TASK_LIST)) == Member(v.idlePcb, TASK_LIST)
    ensures var r := JoinFamily(ram, c, t);
      && Prev(r, v.tasks) == Member(c, TASK_LIST)
      && Prev(r, Member(t, CHILDREN_UNBLOCKED)) == Member(c, SIBILING)
      && WordAt(r, Member(c, SIBILING)) == Pointer(Member(t, CHILDREN_UNBLOCKED))
      && Next(r, Member(c, TASK_LIST)) == Member(c, TASK_LIST)
      && Prev(r, Member(c, TASK_LIST)) == Member(v.idlePcb, TASK_LIST)
  {
    var q := Plus(v.tasks, 1);
    assert Prev(ram, Member(t, CHILDREN_UNBLOCKED)) == Member(t, CHILDREN_UNBLOCKED);
    PointersAreAddresses(Member(c, TASK_LIST));
    PointersAreAddresses(Member(c, SIBILING));
    JoinReadsAt(ram, c, t, q);
    NewFamilyReads(ram, c, t, q);
    JoinReadsAt(ram, c, t, Member(t, CHILDREN_UNBLOCKED + 1));
    JoinReadsAt(ram, c, t, Member(c, SIBILING));
    JoinReadsAt(ram, c, t, Member(c, TASK_LIST));
    NewFamilyReads(ram, c, t, Member(c, TASK_LIST));
    JoinReadsAt(ram, c, t, Member(c, TASK_LIST + 1));
    NewFamilyReads(ram, c, t, Member(c, TASK_LIST + 1));
  }

  // ---------- the child exits ----------

  /** The words that lead to the frame of the child, which is free. */
  ghost predicate Stale(m: Mem, v: Vars, t: int, c: int) {
    && Prev(m.ram, v.tasks) == Member(c, TASK_LIST)
    && Prev(m.ram, Member(t, CHILDREN_UNBLOCKED)) == Member(c, SIBILING)
    && WordAt(m.ram, Member(c, SIBILING)) == Pointer(Member(t, CHILDREN_UNBLOCKED))
  }

  lemma ChildExitGuard(m: Mem, v: Vars, t: int, c: int)
    requires Inv(m) && VarsOk(m, v) && c in m.dir && OneChild(m, v, t, c)
    ensures ExitGuard(m, v, c)
  {
    TaskFrames(m, c);
    KernelWords(m, v);
    assert TaskFrameList(m, c)[0] == c;
    MemberOf(m, c, TASK_LIST);
  }

  /** No word that Stale reads is written when the child leaves list_tasks. */
  lemma ChildExitWords(m: Mem, v: Vars, t: int, c: int)
    requires Inv(m) && VarsOk(m, v) && c in m.dir && t in m.dir && t != c && OneChild(m, v, t, c)
    ensures Stale(LinkedExit(m, c), v, t, c)
  {
    var r, node := Exit(m, c).ram, Member(c, TASK_LIST);
    OutsideKernel(m, v, t);
    OutsideKernel(m, v, c);
    KernelWords(m, v);
    ExitKeepsPage(m, c, c);
    ExitKeepsPage(m, c, t);
    ExitKeepsPage(m, c, Plus(v.tasks, 1).frame);
    ExitKeeps(m, c);
    assert Next(r, node) == node && Prev(r, node) == Member(v.idlePcb, TASK_LIST);
    DelReads(r, node, Plus(v.tasks, 1));
    DelReads(r, node, Member(t, CHILDREN_UNBLOCKED + 1));
    DelReads(r, node, Member(c, SIBILING));
  }

  ghost predicate NothingShared(m: Mem) {
    Sized(m) && forall id :: 0 <= id < NUM_SHARED_PAGES ==> m.shFrame[id] == -1
  }

  lemma ChildExitOwns(m: Mem, c: int)
    requires Inv(m) && c in m.dir && NothingShared(m)
    ensures NothingShared(Exit(m, c)) && Available(Exit(m, c)) == Available(m) + FRAMES_PER_TASK
    ensures c !in Exit(m, c).own
    ensures forall f :: f in m.own && f !in TaskFrameList(m, c) ==> f in Exit(m, c).own
  {
    ExitBalance(m, c);
    forall id | 0 <= id < NUM_SHARED_PAGES ensures Exit(m, c).shFrame[id] == -1 { ExitEvolves(m, c, id); }
    assert Allocated(m) == {} && Allocated(Exit(m, c)) == {};
    assert TaskFrameList(m, c)[0] == c;
    ExitOwner(m, c, c);
    forall f | f in m.own && f !in TaskFrameList(m, c) ensures f in Exit(m, c).own {
      ExitOwner(m, c, f);
      assert !GoesWith(m, c, f);
    }
  }

  // ---------- its frame becomes a shared page ----------

  /** The frame c holds shared page 0, which t maps at its first index for such pages; stale words lead to it. */
  ghost predicate SharedOverStale(m: Mem, v: Vars, t: int, c: int) {
    && Inv(m) && VarsOk(m, v) && t in m.dir && Stale(m, v, t, c) && m.shFrame[0] == c && 0 <= c < TOTAL_PAGES
    && Tab(m, t)[FIRST_SHARED] == Pte(ToBase(c), true) && FRAMES_PER_TASK <= Available(m)
  }

  lemma LowestIsNext(m: Mem, c: int)
    requires Core(m) && m.boot.lastKernel <= c < TOTAL_PAGES && c !in m.own
    requires forall f :: m.boot.lastKernel <= f < c ==> f in m.own
    ensures NextFree(m) == c && 1 <= Available(m)
  {
    assert c in FreeFrames(m);
    assert FreeFrames(m)[0] in FreeFrames(m);
    var k :| 0 <= k < |FreeFrames(m)| && FreeFrames(m)[k] == c;
  }

  lemma AttachOverStale(m: Mem, v: Vars, t: int, c: int, m': Mem)
    requires Inv(m) && VarsOk(m, v) && t in m.dir && Stale(m, v, t, c) && NothingShared(m)
    requires Tab(m, t)[FIRST_SHARED] == ZERO_WORD
    requires NextFree(m) == c && m.boot.lastKernel <= c < TOTAL_PAGES && FRAMES_PER_TASK < Available(m)
    requires m' == Shmat(m, t, 0, 0).0
    ensures SharedOverStale(m', v, t, c)
  {
    AttachFirst(m, t, c, m');
    OutsideKernel(m, v, t);
    KernelWords(m, v);
    NextFreeIsFree(m);
    StaleStays(m, m', v, t, c);
  }

  /** A page without a frame is attached at the first index. */
  lemma AttachFirst(m: Mem, t: int, c: int, m': Mem)
    requires Inv(m) && t in m.dir && NothingShared(m) && Tab(m, t)[FIRST_SHARED] == ZERO_WORD
    requires NextFree(m) == c && m.boot.lastKernel <= c < TOTAL_PAGES && FRAMES_PER_TASK < Available(m)
    requires m' == Shmat(m, t, 0, 0).0
    ensures Inv(m') && m'.boot == m.boot && t in m'.dir && m'.shFrame[0] == c
    ensures Tab(m', t)[FIRST_SHARED] == Pte(ToBase(c), true) && FRAMES_PER_TASK <= Available(m')
    ensures |m'.ram| == |m.ram| && forall f :: f != TableFrame(m, t) ==> PageAt(m', f) == PageAt(m, f)
  {
    var m1 := Provide(m, 0);
    assert SharedOk(m, 0);
    ProvideKeeps(m, 0);
    ShmatKeeps(m, t, 0, 0);
    assert m' == Map(m1, t, FIRST_SHARED, 0);
    TablesAfter(m1, t, FIRST_SHARED, Pte(ToBase(c), true));
    TaskFrames(m, t);
    TakeOne(m, m1.phys, c);
  }

  /** The words of PCBs, free ones too, and of the kernel stay. */
  lemma StaleStays(m: Mem, m': Mem, v: Vars, t: int, c: int)
    requires Core(m) && VarsOk(m, v) && t in m.dir && Stale(m, v, t, c) && c !in m.own && 0 <= c < TOTAL_PAGES
    requires t in m.own && m.own[t] == Pcb(t) && |m'.ram| == |m.ram|
    requires forall f :: f != TableFrame(m, t) ==> PageAt(m', f) == PageAt(m, f)
    ensures Stale(m', v, t, c)
  {
    TaskFrames(m, t);
    KernelWords(m, v);
    assert PageAt(m', t) == PageAt(m, t) && PageAt(m', c) == PageAt(m, c);
    assert PageAt(m', Plus(v.tasks, 1).frame) == PageAt(m, Plus(v.tasks, 1).frame);
  }

  // ---------- the second fork ----------

  lemma StaleGuardFails(m: Mem, v: Vars, t: int, c: int)
    requires SharedOverStale(m, v, t, c)
    ensures !ForkGuard(m, v, t) && FreeFrames(m) != [] && c in m.own && m.own[c] == Shared(0)
    ensures Tab(m, t)[FIRST_SHARED].present
    ensures Load(m, t, FIRST_SHARED)[SIBILING] == Pointer(Member(t, CHILDREN_UNBLOCKED))
  {
    SharedFrames(m, 0);
    assert !Harmless(m, v, Member(c, TASK_LIST));
  }

  /** list_add_tail in alloc_pcb writes into the shared page, but no directory or table. */
  lemma StaleEnlist(m: Mem, v: Vars, t: int, c: int, e: Mem)
    requires SharedOverStale(m, v, t, c) && FreeFrames(m) != [] && e == Enlisted(m, v)
    ensures Inv(e) && (forall s :: s in m.dir ==> Tab(e, s) == Tab(m, s))
    ensures Prev(e.ram, Member(t, CHILDREN_UNBLOCKED)) == Member(c, SIBILING)
  {
    var b := FreeFrames(m)[0];
    assert b in FreeFrames(m);
    var n := Member(b, TASK_LIST);
    var hits := {n, Plus(n, 1)} + AddTailHits(InitHead(m.ram, n), n, v.tasks);
    OutsideKernel(m, v, t);
    KernelWords(m, v);
    SharedFrames(m, 0);
    MemberOf(m, b, TASK_LIST);
    InitStaysWithin(m.ram, n);
    AddTailStaysWithin(InitHead(m.ram, n), n, v.tasks);
    WithinChains(m.ram, InitHead(m.ram, n), e.ram, {n, Plus(n, 1)}, AddTailHits(InitHead(m.ram, n), n, v.tasks));
    assert WordAt(InitHead(m.ram, n), Plus(v.tasks, 1)) == WordAt(m.ram, Plus(v.tasks, 1));
    assert Prev(InitHead(m.ram, n), v.tasks) == Member(c, TASK_LIST);
    HitsSpareTables(m, e, hits);
    assert WordAt(e.ram, Member(t, CHILDREN_UNBLOCKED + 1)) == WordAt(m.ram, Member(t, CHILDREN_UNBLOCKED + 1));
  }

  lemma HitsSpareTables(m: Mem, e: Mem, hits: set<Place>)
    requires Inv(m) && e == m.(ram := e.ram) && Within(m.ram, e.ram, hits)
    requires forall p :: p in hits && p.frame in m.own ==> !m.own[p.frame].Dir? && !m.own[p.frame].Table?
    ensures Inv(e) && forall s :: s in m.dir ==> TableFrame(e, s) == TableFrame(m, s) && Tab(e, s) == Tab(m, s)
  {
    forall s | s in m.dir ensures TableFrame(e, s) == TableFrame(m, s) && Tab(e, s) == Tab(m, s) {
      TaskFrames(m, s);
      SamePage(m.ram, e.ram, hits, m.dir[s]);
      SamePage(m.ram, e.ram, hits, TableFrame(m, s));
    }
    TablesKeep(m, e);
  }

  lemma StaleJoin(m: Mem, t: int, b: int, c: int)
    requires Inv(m) && t in m.dir && b in m.dir && b != t && c in m.own && m.own[c].Shared?
    requires Prev(m.ram, Member(t, CHILDREN_UNBLOCKED)) == Member(c, SIBILING)
    ensures var m' := m.(ram := JoinFamily(m.ram, b, t));
      Tab(m', t) == Tab(m, t) && WordAt(m'.ram, Member(c, SIBILING)) == Pointer(Member(b, SIBILING))
  {
    TaskFrames(m, t);
    TaskFrames(m, b);
    JoinHitsThese(m.ram, b, t);
    HitsSpareTables(m, m.(ram := JoinFamily(m.ram, b, t)), JoinHitsAll(m.ram, b, t));
    JoinReadsAt(m.ram, b, t, Member(c, SIBILING));
  }

  /** All the words that the family part of fork writes. */
  function JoinHitsAll(ram: seq<Page>, c: int, t: int): set<Place> {
    var head, node := Member(t, CHILDREN_UNBLOCKED), Member(c, SIBILING);
    FamilyHits(c) + {Plus(head, 1), node, Plus(node, 1), Prev(ram, head)}
  }

  lemma JoinHitsThese(ram: seq<Page>, c: int, t: int)
    requires 0 <= c < |ram| <= TOTAL_PAGES && 0 <= t < |ram| && t != c
    ensures Within(ram, JoinFamily(ram, c, t), JoinHitsAll(ram, c, t))
  {
    var head, node := Member(t, CHILDREN_UNBLOCKED), Member(c, SIBILING);
    JoinStaysWithin(ram, c, t);
    NewFamilyReads(ram, c, t, Plus(head, 1));
    assert JoinHitsAll(ram, c, t) == FamilyHits(c) + AddTailHits(NewFamily(ram, c, t), node, head);
  }

  /** The second fork writes a pointer to the new child into the shared page that its caller maps. */
  lemma StaleFork(m: Mem, v: Vars, t: int, c: int, m': Mem)
    requires SharedOverStale(m, v, t, c) && FreeFrames(m) != [] && m' == LinkedFork(m, v, t).0
    ensures t in m'.dir && Tab(m', t) == Tab(m, t) && FreeFrames(m)[0] != t
    ensures Load(m', t, FIRST_SHARED)[SIBILING] == Pointer(Member(FreeFrames(m)[0], SIBILING))
  {
    var e, b := Enlisted(m, v), FreeFrames(m)[0];
    assert FreeFrames(e) == FreeFrames(m) && b in FreeFrames(m);
    StaleEnlist(m, v, t, c, e);
    OutsideKernel(m, v, t);
    SharedFrames(m, 0);
    StaleForked(e, t, b, c, Fork(e, t).0);
    StaleJoin(Fork(e, t).0, t, b, c);
  }

  lemma StaleForked(e: Mem, t: int, b: int, c: int, m2: Mem)
    requires Inv(e) && t in e.dir && FRAMES_PER_TASK <= |FreeFrames(e)| && b == FreeFrames(e)[0] && m2 == Fork(e, t).0
    requires c in e.own && e.own[c].Shared? && t !in FreeFrames(e) && 0 <= t < TOTAL_PAGES
    ensures Fork(e, t).1 == Child(b) && Inv(m2) && t in m2.dir && b in m2.dir && Tab(m2, t) == Tab(e, t)
    ensures c in m2.own && m2.own[c] == e.own[c] && |m2.ram| == |e.ram| && PageAt(m2, t) == PageAt(e, t)
    ensures Prev(m2.ram, Member(t, CHILDREN_UNBLOCKED)) == Prev(e.ram, Member(t, CHILDREN_UNBLOCKED))
  {
    ForkTasks(e, t);
    ForkAccounting(e, t);
    ForkKeeps(e, t);
    ForkAdds(e, t, m2, c);
    ForkPages(e, t, t);
    ForkDisturbsNobody(e, t, t, 0);
  }

  // ---------- the run ----------

  /** After the exit everything is free again, but for the stale words. */
  ghost predicate StaleAndFree(m: Mem, v: Vars, t: int, c: int) {
    && Inv(m) && VarsOk(m, v) && t in m.dir && Stale(m, v, t, c) && NothingShared(m)
    && Tab(m, t)[FIRST_SHARED] == ZERO_WORD
    && NextFree(m) == c && m.boot.lastKernel <= c < TOTAL_PAGES && FRAMES_PER_TASK < Available(m)
  }

  lemma AfterExit(m: Mem, v: Vars, t: int, c: int, m1: Mem, m2: Mem)
    requires FreshSystem(m, v, t) && c == FreeFrames(m)[0] && m1 == LinkedFork(m, v, t).0
    requires Inv(m1) && c in m1.dir && m2 == LinkedExit(m1, c)
    ensures ExitGuard(m1, v, c) && StaleAndFree(m2, v, t, c)
  {
    FirstFork(m, v, t);
    OutsideKernel(m, v, t);
    assert c in FreeFrames(m) && c != t;
    ExitOfChild(m1, v, t, c, m2);
    FirstForkGuard(m, v, t);
    LinkedForkKeeps(m, v, t);
    LowestStaysLowest(m, m1, m2, c);
  }

  lemma ExitOfChild(m: Mem, v: Vars, t: int, c: int, m': Mem)
    requires Inv(m) && VarsOk(m, v) && c in m.dir && t in m.dir && t != c && OneChild(m, v, t, c) && NothingShared(m)
    requires m' == LinkedExit(m, c)
    ensures ExitGuard(m, v, c) && Inv(m') && VarsOk(m', v) && t in m'.dir && Stale(m', v, t, c) && NothingShared(m')
    ensures m'.boot == m.boot && Tab(m', t) == Tab(m, t) && Available(m') == Available(m) + FRAMES_PER_TASK
    ensures c !in m'.own
    ensures forall f :: f in m.own && f !in TaskFrameList(m, c) ==> f in m'.own
  {
    ChildExitGuard(m, v, t, c);
    ChildExitWords(m, v, t, c);
    LinkedExitIsExit(m, v, c);
    ChildExitOwns(m, c);
    AlikeBalance(Exit(m, c), m');
    ExitTables(m, c);
    AlikeTables(Exit(m, c), m');
  }

  /** The frame of the child is the lowest free one again after its exit. */
  lemma LowestStaysLowest(m: Mem, m1: Mem, m2: Mem, c: int)
    requires Inv(m) && Inv(m1) && Inv(m2) && FreeFrames(m) != [] && c == FreeFrames(m)[0] && c in m1.dir && c !in m.own
    requires c !in m2.own
    requires m1.boot == m.boot && m2.boot == m.boot
    requires forall f :: f in m.own ==> f in m1.own && m1.own[f] == m.own[f]
    requires forall f :: f in m1.own && f !in TaskFrameList(m1, c) ==> f in m2.own
    ensures NextFree(m2) == c && m2.boot.lastKernel <= c < TOTAL_PAGES
  {
    assert c in FreeFrames(m);
    assert c !in m.dir by { if c in m.dir { TaskFrames(m, c); } }
    forall f | m.boot.lastKernel <= f < c ensures f in m2.own {
      assert f in m.own;
      InTaskFrames(m1, c, f);
      assert Claim(m, m.own[f], f);
    }
    LowestIsNext(m2, c);
  }

  /** A fork from m is not guarded, and changes a word that its caller sees. */
  ghost predicate ForkDisturbs(m: Mem, v: Vars, t: int) {
    && Sized(m) && t in m.dir && !Guard(m, v, ForkStep(t))
    && var m' := LinkedStep(m, v, ForkStep(t));
      && t in m'.dir && Tab(m', t) == Tab(m, t) && Tab(m, t)[FIRST_SHARED].present
      && Load(m', t, FIRST_SHARED)[SIBILING] != Load(m, t, FIRST_SHARED)[SIBILING]
  }

  lemma SecondFork(m: Mem, v: Vars, t: int, c: int)
    requires SharedOverStale(m, v, t, c)
    ensures ForkDisturbs(m, v, t)
  {
    StaleGuardFails(m, v, t, c);
    StaleFork(m, v, t, c, LinkedFork(m, v, t).0);
    assert FreeFrames(m)[0] in FreeFrames(m);
    OutsideKernel(m, v, t);
    PointersAreAddresses(Member(t, CHILDREN_UNBLOCKED));
    PointersAreAddresses(Member(FreeFrames(m)[0], SIBILING));
  }

  lemma FirstStep(m: Mem, v: Vars, t: int) returns (m1: Mem)
    requires FreshSystem(m, v, t)
    ensures Sized(m) && Guard(m, v, ForkStep(t)) && m1 == LinkedStep(m, v, ForkStep(t)) && m1 == LinkedFork(m, v, t).0
    ensures Inv(m1) && FreeFrames(m) != [] && FreeFrames(m)[0] in m1.dir
  {
    m1 := LinkedFork(m, v, t).0;
    FirstFork(m, v, t);
    FirstForkGuard(m, v, t);
  }

  lemma SecondStep(m: Mem, v: Vars, t: int, c: int, m1: Mem) returns (m2: Mem)
    requires FreshSystem(m, v, t) && c == FreeFrames(m)[0] && m1 == LinkedFork(m, v, t).0 && Inv(m1) && c in m1.dir
    ensures Guard(m1, v, ExitStep(c)) && m2 == LinkedStep(m1, v, ExitStep(c)) && StaleAndFree(m2, v, t, c)
  {
    m2 := LinkedExit(m1, c);
    AfterExit(m, v, t, c, m1, m2);
  }

  lemma ThirdStep(m2: Mem, v: Vars, t: int, c: int) returns (m3: Mem)
    requires StaleAndFree(m2, v, t, c)
    ensures Sized(m2) && m3 == LinkedStep(m2, v, MemoryStep(MR.OpShmat(t, 0, 0))) && SharedOverStale(m3, v, t, c)
  {
    m3 := Shmat(m2, t, 0, 0).0;
    AttachOverStale(m2, v, t, c, m3);
  }

  /**
   * Fork, exit of the child, shmat, and fork again: the first three steps are guarded, the last is not, and it changes
   * a word of the shared page that its caller sees.
   */
  lemma StaleRun(m: Mem, v: Vars, t: int)
    requires FreshSystem(m, v, t)
    ensures var ops := [ForkStep(t), ExitStep(FreeFrames(m)[0]), MemoryStep(MR.OpShmat(t, 0, 0))];
      exists m3 :: LinkedReaches(m, v, ops, m3) && ForkDisturbs(m3, v, t)
  {
    var c := FreeFrames(m)[0];
    var m1 := FirstStep(m, v, t);
    var m2 := SecondStep(m, v, t, c, m1);
    var m3 := ThirdStep(m2, v, t, c);
    SecondFork(m3, v, t, c);
    ThreeSteps(m, v, ForkStep(t), m1, ExitStep(c), m2, MemoryStep(MR.OpShmat(t, 0, 0)), m3);
  }

  lemma ThreeSteps(m: Mem, v: Vars, a: LinkedOp, m1: Mem, b: LinkedOp, m2: Mem, c: LinkedOp, m3: Mem)
    requires Sized(m) && Guard(m, v, a) && m1 == LinkedStep(m, v, a)
    requires Sized(m1) && Guard(m1, v, b) && m2 == LinkedStep(m1, v, b)
    requires Sized(m2) && Guard(m2, v, c) && m3 == LinkedStep(m2, v, c)
    ensures LinkedReaches(m, v, [a, b, c], m3)
  {
    assert [a, b, c][1..] == [b, c] && [b, c][1..] == [c] && [c][1..] == [];
    assert LinkedReaches(m3, v, [], m3);
    assert LinkedReaches(m2, v, [c], m3);
    assert LinkedReaches(m1, v, [b, c], m3);
  }

  // ---------- such a run right after booting ----------

  lemma {:induction false} SetSize(fs: seq<int>)
    ensures |set f | f in fs| <= |fs|
  {
    if fs != [] {
      SetSize(fs[1..]);
      assert (set f | f in fs) == {fs[0]} + set f | f in fs[1..];
    }
  }

  /** Booting takes 35 frames. */
  lemma BootAvailable(lastKernel: nat, ram: seq<Page>)
    requires 0x10 < lastKernel <= TOTAL_PAGES - MR.BOOT_FRAMES && |ram| == TOTAL_PAGES
    ensures Sized(MR.BootMem(lastKernel, ram))
    ensures Available(MR.BootMem(lastKernel, ram)) + MR.BOOT_FRAMES >= |FreeFrom(MR.InitFrames(lastKernel), lastKernel)|
  {
    MR.BootHasRoom(lastKernel);
    MR.BootInv(lastKernel, ram);
    var phys, m := MR.InitFrames(lastKernel), MR.BootMem(lastKernel, ram);
    var taken := BootTaken(FreeFrom(phys, lastKernel));
    GiveBack(m.phys, lastKernel, (set f | f in taken), phys);
    SetSize(taken);
  }

  lemma BootTaken(fs: seq<int>) returns (taken: seq<int>)
    requires |fs| >= MR.BOOT_FRAMES
    ensures taken == MR.BootPinned(fs) + Granted(MR.BootGrant(fs)) && |taken| == MR.BOOT_FRAMES
    ensures forall f :: f in taken ==> f in fs
  {
    taken := MR.BootPinned(fs) + Granted(MR.BootGrant(fs));
    forall f | f in taken ensures f in fs { MR.BootParts(fs, f); }
  }

  lemma RoomAfterBoot(lastKernel: nat)
    requires 0x10 < lastKernel <= TOTAL_PAGES - 60
    ensures |FreeFrom(MR.InitFrames(lastKernel), lastKernel)| >= 60
  {
    MR.TailIsFree(MR.InitFrames(lastKernel), lastKernel, if lastKernel < 0x100 then 0x100 else lastKernel);
  }

  lemma BootRoom(lastKernel: nat, ram: seq<Page>, m: Mem)
    requires 0x10 < lastKernel <= TOTAL_PAGES - 60 && |ram| == TOTAL_PAGES && Alike(MR.BootMem(lastKernel, ram), m)
    ensures NothingShared(m) && FRAMES_PER_TASK < Available(m)
  {
    BootAvailable(lastKernel, ram);
    RoomAfterBoot(lastKernel);
    AlikeBalance(MR.BootMem(lastKernel, ram), m);
  }

  lemma BootIsFresh(lastKernel: nat, ram: seq<Page>, v: Vars, m: Mem, t: int)
    requires 0x10 < lastKernel <= TOTAL_PAGES - 60 && |ram| == TOTAL_PAGES && BootVars(lastKernel, v)
    requires m == BootState(lastKernel, ram, v.tasks) && t == InitFrame(lastKernel)
    ensures FreshSystem(m, v, t)
  {
    BootStateInv(lastKernel, ram, v);
    BootRoom(lastKernel, ram, m);
    FreshWords(MR.BootMem(lastKernel, ram).ram, v, t, m);
    FreshTable(m, t);
  }

  lemma FreshWords(ram: seq<Page>, v: Vars, t: int, m: Mem)
    requires |ram| == TOTAL_PAGES && FramesApart(v.idlePcb, t, v.tasks)
    requires m.ram == BootLists(ram, v.idlePcb, t, v.tasks)
    ensures OnlyTask(m, v, t)
  {
    var q1, q2, q3 := Plus(v.tasks, 1), Member(t, TASK_LIST + 1), Member(t, CHILDREN_UNBLOCKED + 1);
    BootReads(ram, v.idlePcb, t, v.tasks, q1);
    BootReads(ram, v.idlePcb, t, v.tasks, q2);
    BootReads(ram, v.idlePcb, t, v.tasks, q3);
    BootWordsOf(WordAt(ram, q1), v.idlePcb, t, v.tasks);
    BootWordsOf(WordAt(ram, q2), v.idlePcb, t, v.tasks);
    BootWordsOf(WordAt(ram, q3), v.idlePcb, t, v.tasks);
    Targets(m.ram, v, t);
  }

  lemma Targets(ram: seq<Page>, v: Vars, t: int)
    requires WordAt(ram, Plus(v.tasks, 1)) == Pointer(Member(t, TASK_LIST))
    requires WordAt(ram, Member(t, TASK_LIST + 1)) == Pointer(Member(v.idlePcb, TASK_LIST))
    requires WordAt(ram, Member(t, CHILDREN_UNBLOCKED + 1)) == Pointer(Member(t, CHILDREN_UNBLOCKED))
    ensures Prev(ram, v.tasks) == Member(t, TASK_LIST)
    ensures Prev(ram, Member(t, TASK_LIST)) == Member(v.idlePcb, TASK_LIST)
    ensures Prev(ram, Member(t, CHILDREN_UNBLOCKED)) == Member(t, CHILDREN_UNBLOCKED)
  {
    PointersAreAddresses(Member(t, TASK_LIST));
    PointersAreAddresses(Member(v.idlePcb, TASK_LIST));
    PointersAreAddresses(Member(t, CHILDREN_UNBLOCKED));
  }

  lemma FreshTable(m: Mem, t: int)
    requires Inv(m) && t in m.dir && NothingShared(m)
    ensures Tab(m, t)[FIRST_SHARED] == ZERO_WORD
  {
    assert TableOk(m, Tab(m, t));
    assert SharedEntry(m.shFrame, Tab(m, t)[FIRST_SHARED]);
  }

  /** Right after booting, the run of StaleRun is possible: no theorem about what tasks see can do without the guard. */
  lemma StaleRunAfterBoot(lastKernel: nat, ram: seq<Page>, v: Vars, m: Mem, t: int)
    requires 0x10 < lastKernel <= TOTAL_PAGES - 60 && |ram| == TOTAL_PAGES && BootVars(lastKernel, v)
    requires m == BootState(lastKernel, ram, v.tasks) && t == InitFrame(lastKernel)
    ensures Sized(m) && FreeFrames(m) != [] &&
      var ops := [ForkStep(t), ExitStep(FreeFrames(m)[0]), MemoryStep(MR.OpShmat(t, 0, 0))];
      exists m3 :: LinkedReaches(m, v, ops, m3) && ForkDisturbs(m3, v, t)
  {
    BootIsFresh(lastKernel, ram, v, m, t);
    StaleRun(m, v, t);
  }
}
