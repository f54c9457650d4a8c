/**
 * Ownership itself is lost: on a run that starts right after booting, a fork writes the address of a list node into its
 * own child's user table.
 */
module LostTable {
  import opened Machine
  import opened Frames
  import opened Memory
  import opened MemoryInvariant
  import opened TaskLife
  import opened Balance
  import opened Reclaim
  import opened PcbLists
  import opened LinkedMemory
  import opened LinkedRuns
  import opened LinkedBoot
  import opened StaleLinks
  import opened TableSafety
  import opened TableRuns
  import MR = MemoryRuns

  // ---------- a shmat that fails takes a frame ----------

  /** No page is marked, and no entry maps one. */
  ghost predicate Unmapped(m: Mem) {
    && Sized(m) && (forall id :: 0 <= id < NUM_SHARED_PAGES ==> m.shMark[id] == 0)
    && forall s, i :: s in m.dir && FIRST_SHARED <= i < PT_ENTRIES ==> Tab(m, s)[i] == ZERO_WORD
  }

  /** With a misaligned address, shmat gives the page a frame and then fails. */
  lemma MisalignedTakes(m: Mem, v: Vars, t: int, id: int, m': Mem)
    requires Childless(m, v, t) && Unmapped(m) && 0 <= id < NUM_SHARED_PAGES && m.shFrame[id] == -1
    requires FRAMES_PER_TASK < Available(m) && m' == Shmat(m, t, id, 1).0
    ensures Shmat(m, t, id, 1).1 == -EINVAL && FreeFrames(m) != []
    ensures var f := FreeFrames(m)[0];
      && f !in m.own && m'.own == m.own[f := Shared(id)] && m'.shFrame == m.shFrame[id := f]
      && m'.ram == m.ram && m'.dir == m.dir && m'.boot == m.boot
    ensures Childless(m', v, t) && Unmapped(m') && Available(m') == Available(m) - 1
  {
    var f := FreeFrames(m)[0];
    assert f in FreeFrames(m);
    ProvideKeeps(m, id);
    ShmatKeeps(m, t, id, 1);
    TakeOne(m, m'.phys, f);
    SameVars(m, m', v);
  }

  // ---------- the child comes and goes ----------

  /** m' is m but for a task in frame c, which is the first task's only child. */
  ghost predicate WithChild(m: Mem, m': Mem, v: Vars, t: int, c: int) {
    && Inv(m) && t in m.dir && c !in m.own && t != c
    && Inv(m') && VarsOk(m', v) && OneChild(m', v, t, c) && m'.dir.Keys == m.dir.Keys + {c} && m'.boot == m.boot
    && m'.shFrame == m.shFrame && m'.shMark == m.shMark
    && (forall f :: f in m.own ==> f in m'.own && m'.own[f] == m.own[f])
    && (forall s :: s in m.dir ==> s in m'.dir && Tab(m', s) == Tab(m, s))
    && Available(m') + FRAMES_PER_TASK == Available(m)
  }

  lemma ChildComes(m: Mem, v: Vars, t: int, c: int, m1: Mem)
    requires Childless(m, v, t) && c == FreeFrames(m)[0] && m1 == LinkedFork(m, v, t).0
    ensures Guard(m, v, ForkStep(t)) && WithChild(m, m1, v, t, c)
  {
    FirstFork(m, v, t);
    FirstForkGuard(m, v, t);
    OutsideKernel(m, v, t);
    assert c in FreeFrames(m);
    forall s | s in m.dir ensures s in m1.dir && Tab(m1, s) == Tab(m, s) { LinkedForkDisturbsNobody(m, v, t, s, 0); }
  }

  /** m' is m again but for the words that lead to the free frame c. */
  ghost predicate WithStale(m: Mem, m': Mem, v: Vars, t: int, c: int) {
    && Inv(m') && VarsOk(m', v) && Stale(m', v, t, c) && m'.dir.Keys == m.dir.Keys && m'.boot == m.boot
    && m'.shFrame == m.shFrame && m'.shMark == m.shMark
    && c !in m'.own && (forall f :: f in m.own ==> f in m'.own && m'.own[f] == m.own[f])
    && (forall s :: s in m.dir ==> s in m'.dir && Tab(m', s) == Tab(m, s))
    && Sized(m) && Available(m') == Available(m)
  }

  lemma ChildGoes(m: Mem, v: Vars, t: int, c: int, m1: Mem, m2: Mem)
    requires Unmapped(m) && WithChild(m, m1, v, t, c) && m2 == LinkedExit(m1, c)
    ensures Guard(m1, v, ExitStep(c)) && WithStale(m, m2, v, t, c)
  {
    ChildExitGuard(m1, v, t, c);
    LinkedExitIsExit(m1, v, c);
    ChildExitWords(m1, v, t, c);
    ExitKeepsUnmarked(m1, c, Exit(m1, c));
    ChildOwnsItsFrames(m, m1, c);
    ExitTables(m1, c);
    AlikeTables(Exit(m1, c), m2);
    ExitBalance(m1, c);
    assert Allocated(Exit(m1, c)) == Allocated(m1);
    AlikeBalance(Exit(m1, c), m2);
    BackAgain(m, m1, Exit(m1, c), m2, v, t, c);
  }

  lemma BackAgain(m: Mem, m1: Mem, x: Mem, m2: Mem, v: Vars, t: int, c: int)
    requires WithChild(m, m1, v, t, c) && c !in m.dir && Inv(m2) && VarsOk(m2, v) && Stale(m2, v, t, c)
    requires m2 == x.(ram := m2.ram) && x.dir == m1.dir - {c} && x.boot == m1.boot
    requires x.shFrame == m1.shFrame && x.shMark == m1.shMark
    requires c !in x.own && forall f :: f in m.own ==> f in x.own && x.own[f] == m.own[f]
    requires forall s :: s in x.dir ==> Tab(x, s) == Tab(m1, s)
    requires forall s :: s in x.dir ==> Tab(m2, s) == Tab(x, s)
    requires Available(m2) == Available(m1) + FRAMES_PER_TASK
    ensures WithStale(m, m2, v, t, c)
  {
  }

  lemma ExitKeepsUnmarked(m: Mem, c: int, m': Mem)
    requires Inv(m) && c in m.dir && m' == Exit(m, c)
    requires forall id :: 0 <= id < NUM_SHARED_PAGES ==> m.shMark[id] == 0
    ensures m'.shFrame == m.shFrame && m'.shMark == m.shMark
  {
    ExitKeeps(m, c);
    forall id | 0 <= id < NUM_SHARED_PAGES ensures m'.shFrame[id] == m.shFrame[id] && m'.shMark[id] == m.shMark[id] {
      ExitEvolves(m, c, id);
    }
  }

  lemma ChildOwnsItsFrames(m: Mem, m1: Mem, c: int)
    requires Inv(m) && Inv(m1) && c !in m.own && c in m1.dir
    requires forall f :: f in m.own ==> f in m1.own && m1.own[f] == m.own[f]
    requires forall id :: 0 <= id < NUM_SHARED_PAGES ==> m1.shMark[id] == 0
    ensures c !in m.dir && c !in Exit(m1, c).own
    ensures forall f :: f in m.own ==> f in Exit(m1, c).own && Exit(m1, c).own[f] == m.own[f]
  {
    if c in m.dir { TaskFrames(m, c); }
    assert TaskFrameList(m1, c)[0] == c;
    ExitOwner(m1, c, c);
    forall f | f in m.own ensures f in Exit(m1, c).own && Exit(m1, c).own[f] == m.own[f] {
      ExitOwner(m1, c, f);
      InTaskFrames(m1, c, f);
      assert Claim(m, m.own[f], f);
    }
  }

  // ---------- the pages are removed ----------

  /** m' is m without shared page id, which had frame f. */
  ghost predicate Removed(m: Mem, m': Mem, v: Vars, t: int, c: int, id: int, f: int)
    requires Sized(m) && 0 <= id < NUM_SHARED_PAGES
  {
    && Inv(m') && VarsOk(m', v) && t in m'.dir && Unmapped(m') && Stale(m', v, t, c) && m'.boot == m.boot
    && m'.own == m.own - {f} && m'.shFrame == m.shFrame[id := -1] && Available(m') >= Available(m)
  }

  lemma RemoveUnused(m: Mem, v: Vars, t: int, c: int, id: int, f: int, m': Mem)
    requires Inv(m) && VarsOk(m, v) && t in m.dir && Unmapped(m) && Stale(m, v, t, c) && c !in m.own
    requires 0 <= c < TOTAL_PAGES
    requires 0 <= id < NUM_SHARED_PAGES && m.shFrame[id] == f && 0 <= f && m' == Shmrm(m, id).0
    ensures Removed(m, m', v, t, c, id, f)
  {
    ShmrmKeeps(m, id);
    SharedFrames(m, id);
    NotMapped(m, f);
    assert SharedOk(m, id);
    OutsideKernel(m, v, t);
    KernelWords(m, v);
    RemovedPages(m, id, f, m');
    PageGone(m, m', v, t, c, f);
    ShmrmBalance(m, id);
    FewerAllocated(m, m', id);
  }

  lemma RemovedPages(m: Mem, id: int, f: int, m': Mem)
    requires Inv(m) && Unmapped(m) && 0 <= id < NUM_SHARED_PAGES && m.shFrame[id] == f && 0 <= f && m.shRefs[id] == 0
    requires f in m.own && m.own[f] == Shared(id) && m' == Shmrm(m, id).0
    ensures |m'.ram| == |m.ram| && (forall g :: g != f ==> PageAt(m', g) == PageAt(m, g)) && m'.boot == m.boot
    ensures m'.dir == m.dir && Unmapped(m') && m'.own == m.own - {f} && m'.shFrame == m.shFrame[id := -1]
  {
    forall s | s in m.dir ensures Tab(m', s) == Tab(m, s) { TaskFrames(m, s); }
  }

  lemma FewerAllocated(m: Mem, m': Mem, id: int)
    requires 0 <= id < |m.shFrame| && m'.shFrame == m.shFrame[id := -1]
    ensures |Allocated(m')| <= |Allocated(m)|
  {
    assert Allocated(m') <= Allocated(m);
    SubsetSize(Allocated(m'), Allocated(m));
  }

  lemma NotMapped(m: Mem, f: int)
    requires Unmapped(m)
    ensures Mappings(m, f) == {}
  {
  }

  /** The words that Stale speaks of are not in the page that was zeroed. */
  lemma PageGone(m: Mem, m': Mem, v: Vars, t: int, c: int, f: int)
    requires Stale(m, v, t, c) && |m'.ram| == |m.ram| == TOTAL_PAGES
    requires 0 <= c < TOTAL_PAGES && 0 <= t < TOTAL_PAGES && Plus(v.tasks, 1).frame < TOTAL_PAGES
    requires f != t && f != c && f != Plus(v.tasks, 1).frame
    requires forall g :: g != f ==> PageAt(m', g) == PageAt(m, g)
    ensures Stale(m', v, t, c)
  {
    assert PageAt(m', t) == PageAt(m, t) && PageAt(m', c) == PageAt(m, c);
    assert PageAt(m', Plus(v.tasks, 1).frame) == PageAt(m, Plus(v.tasks, 1).frame);
  }

  // ---------- the last fork ----------

  /** The three lowest free frames, the third of which stale words lead to. */
  ghost predicate AboutToLose(m: Mem, v: Vars, t: int, c: int) {
    && Inv(m) && VarsOk(m, v) && t in m.dir && Stale(m, v, t, c) && FRAMES_PER_TASK <= Available(m)
    && FreeFrames(m)[2] == c
  }

  lemma LastLeadsThere(m: Mem, v: Vars, t: int, c: int, e: Mem)
    requires AboutToLose(m, v, t, c) && e == Enlisted(m, v)
    ensures Inv(e) && FreeFrames(e) == FreeFrames(m)
    ensures Prev(e.ram, Member(t, CHILDREN_UNBLOCKED)) == Member(c, SIBILING)
  {
    var fs := FreeFrames(m);
    assert fs[0] in fs && fs[2] in fs && fs[0] != c;
    OutsideKernel(m, v, t);
    KernelWords(m, v);
    NoTablePlace(m, Member(c, TASK_LIST));
    EnlistKeepsTables(m, v);
    OwnWords(m, v, t, CHILDREN_UNBLOCKED);
    EnlistWords(m.ram, fs[0], v.tasks, Member(t, CHILDREN_UNBLOCKED + 1));
  }

  /** m is the memory after a fork but for an entry of the child's table, which is lost. */
  ghost predicate LosesEntry(m: Mem, c: int) {
    c in m.dir && !Inv(m) && !Tab(m, c)[SIBILING].present
  }

  /** The child's table is in the frame that the last child's node was in: one of its data pages is unmapped. */
  lemma ForkLosesEntry(m: Mem, v: Vars, t: int, c: int)
    requires AboutToLose(m, v, t, c)
    ensures LinkedFork(m, v, t).1 == Child(FreeFrames(m)[0]) && LosesEntry(LinkedFork(m, v, t).0, FreeFrames(m)[0])
  {
    var e, b := Enlisted(m, v), FreeFrames(m)[0];
    LastLeadsThere(m, v, t, c, e);
    LaterTableGuardIsExact(m, v, t, e);
    LinkedForkCases(m, v, t, e);
    var m2 := Fork(e, t).0;
    ForkedOwners(e, t, m2);
    LastStays(e, t);
    assert FreeFrames(e)[1] in FreeFrames(e);
    OwnedTable(m2, b, FreeFrames(e)[1], c);
    EntryLost(m2, b, t, c);
  }

  lemma EntryLost(m: Mem, b: int, t: int, c: int)
    requires Inv(m) && b in m.dir && t in m.dir && b != t && TableFrame(m, b) == c
    requires Prev(m.ram, Member(t, CHILDREN_UNBLOCKED)) == Member(c, SIBILING)
    ensures !Tab(m.(ram := JoinFamily(m.ram, b, t)), b)[SIBILING].present
  {
    var last, ram', d := Member(c, SIBILING), JoinFamily(m.ram, b, t), m.dir[b];
    TaskFrames(m, b);
    TaskFrames(m, t);
    assert last.frame == c;
    assert TablePlace(m, last);
    JoinedLast(m, b, t);
    JoinHitsArePcbs(m, b, t, last);
    JoinStaysWithin(m.ram, b, t);
    assert TablePlace(m, Place(d, 2)) && Place(d, 2) != last;
    assert WordAt(ram', Place(d, 2)) == WordAt(m.ram, Place(d, 2));
    assert TableFrame(m.(ram := ram'), b) == c;
  }

  // ---------- which frames are free ----------

  lemma ThirdLowest(m: Mem, a: int, b: int, c: int)
    requires Core(m) && m.boot.lastKernel <= a < b < c < TOTAL_PAGES && a !in m.own && b !in m.own && c !in m.own
    requires forall f :: m.boot.lastKernel <= f < c && f != a && f != b ==> f in m.own
    ensures 3 <= |FreeFrames(m)| && FreeFrames(m)[2] == c
  {
    var fs := FreeFrames(m);
    assert a in fs && b in fs && c in fs;
    var i :| 0 <= i < |fs| && fs[i] == a;
    var j :| 0 <= j < |fs| && fs[j] == b;
    var k :| 0 <= k < |fs| && fs[k] == c;
    forall n | 0 <= n < k ensures fs[n] == a || fs[n] == b { assert fs[n] in fs && fs[n] < c; }
    SecondOfTwo(fs, a, b, i, j, k);
  }

  lemma SecondOfTwo(fs: seq<int>, a: int, b: int, i: int, j: int, k: int)
    requires Ascending(fs) && 0 <= i < |fs| && 0 <= j < |fs| && 0 <= k < |fs|
    requires fs[i] == a && fs[j] == b && a < b < fs[k]
    requires forall n :: 0 <= n < k ==> fs[n] == a || fs[n] == b
    ensures k == 2
  {
    assert fs[0] == a && i == 0;
    assert fs[1] == b && j == 1;
    if k > 2 {
      ThirdIsHigher(fs);
      assert false;
    }
  }

  lemma ThirdIsHigher(fs: seq<int>)
    requires Ascending(fs) && 3 <= |fs|
    ensures fs[0] < fs[1] < fs[2]
  {
  }

  // ---------- the run ----------

  /** Two attaches that fail, a child that comes and goes, and the removal of the two pages. */
  function LosingRun(t: int, c: int): seq<LinkedOp> {
    [MemoryStep(MR.OpShmat(t, 0, 1)), MemoryStep(MR.OpShmat(t, 1, 1)), ForkStep(t), ExitStep(c),
     MemoryStep(MR.OpShmrm(t, 0)), MemoryStep(MR.OpShmrm(t, 1))]
  }

  lemma TwoMoreSteps(m: Mem, v: Vars, a: LinkedOp, m1: Mem, b: LinkedOp, m2: Mem, ops: seq<LinkedOp>, m3: Mem)
    requires Sized(m) && Guard(m, v, a) && m1 == LinkedStep(m, v, a)
    requires Sized(m1) && Guard(m1, v, b) && m2 == LinkedStep(m1, v, b) && LinkedReaches(m2, v, ops, m3)
    ensures LinkedReaches(m, v, [a, b] + ops, m3)
  {
    assert ([a, b] + ops)[1..] == [b] + ops && ([b] + ops)[1..] == ops;
    assert LinkedReaches(m1, v, [b] + ops, m3);
  }

  /** The two frames that failing attaches take. */
  lemma TwoTaken(m: Mem, v: Vars, t: int) returns (m1: Mem, m2: Mem, a: int, b: int)
    requires FreshSystem(m, v, t) && Unmapped(m) && FRAMES_PER_TASK + 2 <= Available(m)
    ensures m1 == Shmat(m, t, 0, 1).0 && Sized(m1) && t in m1.dir && m2 == Shmat(m1, t, 1, 1).0
    ensures Childless(m2, v, t) && Unmapped(m2) && m2.boot == m.boot && FreeFrames(m2) != []
    ensures m2.own == m.own[a := Shared(0)][b := Shared(1)] && m2.shFrame[0] == a && m2.shFrame[1] == b
    ensures m.boot.lastKernel <= a < b < FreeFrames(m2)[0] && a !in m.own && b !in m.own
    ensures forall f :: m.boot.lastKernel <= f < FreeFrames(m2)[0] && f != a && f != b ==> f in m.own
  {
    var fs := FreeFrames(m);
    m1 := Shmat(m, t, 0, 1).0;
    MisalignedTakes(m, v, t, 0, m1);
    a := fs[0];
    assert a in fs;
    m2 := Shmat(m1, t, 1, 1).0;
    MisalignedTakes(m1, v, t, 1, m2);
    b := FreeFrames(m1)[0];
    LowestTwice(m, m1, m2, a, b);
  }

  lemma LowestTwice(m: Mem, m1: Mem, m2: Mem, a: int, b: int)
    requires Core(m) && Core(m1) && Core(m2) && m1.boot == m.boot && m2.boot == m.boot
    requires FreeFrames(m) != [] && FreeFrames(m1) != [] && FreeFrames(m2) != []
    requires a == FreeFrames(m)[0] && b == FreeFrames(m1)[0]
    requires m1.own == m.own[a := Shared(0)] && m2.own == m1.own[b := Shared(1)]
    ensures m.boot.lastKernel <= a < b < FreeFrames(m2)[0] && a !in m.own && b !in m.own
    ensures forall f :: m.boot.lastKernel <= f < FreeFrames(m2)[0] && f != a && f != b ==> f in m.own
  {
    var c := FreeFrames(m2)[0];
    NextIsLowest(m);
    NextIsLowest(m1);
    NextIsLowest(m2);
    assert a < b by { assert b !in m1.own; }
    assert b < c by { assert c !in m2.own; }
    forall f | m.boot.lastKernel <= f < c && f != a && f != b ensures f in m.own { assert f in m2.own; }
  }

  lemma NextIsLowest(m: Mem)
    requires Core(m) && FreeFrames(m) != []
    ensures var c := FreeFrames(m)[0];
      m.boot.lastKernel <= c < TOTAL_PAGES && c !in m.own && forall f :: m.boot.lastKernel <= f < c ==> f in m.own
  {
    var fs := FreeFrames(m);
    assert fs[0] in fs;
    assert forall k :: 0 <= k < |fs| ==> fs[0] <= fs[k];
    forall f | m.boot.lastKernel <= f < fs[0] ensures f in m.own { assert f !in fs; }
  }

  /** After the child's exit both pages are removed, and the three lowest frames are those taken since the start. */
  lemma BothRemoved(m: Mem, m2: Mem, m4: Mem, v: Vars, t: int, a: int, b: int, c: int) returns (m5: Mem, m6: Mem)
    requires Inv(m) && t in m.dir && m2.own == m.own[a := Shared(0)][b := Shared(1)] && m2.boot == m.boot
    requires Unmapped(m2) && Inv(m2) && m2.shFrame[0] == a && m2.shFrame[1] == b && t in m2.dir
    requires WithStale(m2, m4, v, t, c)
    requires m.boot.lastKernel <= a < b < c < TOTAL_PAGES && a !in m.own && b !in m.own && c !in m2.own
    requires forall f :: m.boot.lastKernel <= f < c && f != a && f != b ==> f in m.own
    requires FRAMES_PER_TASK <= Available(m2)
    ensures Sized(m4) && m5 == LinkedStep(m4, v, MemoryStep(MR.OpShmrm(t, 0)))
    ensures Sized(m5) && m6 == LinkedStep(m5, v, MemoryStep(MR.OpShmrm(t, 1))) && AboutToLose(m6, v, t, c)
  {
    m5 := Shmrm(m4, 0).0;
    m6 := Shmrm(m5, 1).0;
    StillUnmapped(m2, m4, v, t, c);
    ShmrmStep(m4, v, t, 0);
    RemoveUnused(m4, v, t, c, 0, a, m5);
    ShmrmStep(m5, v, t, 1);
    RemoveUnused(m5, v, t, c, 1, b, m6);
    ReadyToLose(m, m6, v, t, a, b, c);
  }

  lemma ShmrmStep(m: Mem, v: Vars, t: int, id: int)
    requires Sized(m) && t in m.dir
    ensures LinkedStep(m, v, MemoryStep(MR.OpShmrm(t, id))) == Shmrm(m, id).0
    ensures Guard(m, v, MemoryStep(MR.OpShmrm(t, id)))
  {
  }

  lemma ShmatStep(m: Mem, v: Vars, t: int, id: int, addr: Uint32)
    requires Sized(m) && t in m.dir
    ensures LinkedStep(m, v, MemoryStep(MR.OpShmat(t, id, addr))) == Shmat(m, t, id, addr).0
    ensures Guard(m, v, MemoryStep(MR.OpShmat(t, id, addr)))
  {
  }

  lemma ReadyToLose(m: Mem, m6: Mem, v: Vars, t: int, a: int, b: int, c: int)
    requires Inv(m6) && VarsOk(m6, v) && t in m6.dir && Stale(m6, v, t, c) && m6.boot == m.boot
    requires m.boot.lastKernel <= a < b < c < TOTAL_PAGES && FRAMES_PER_TASK <= Available(m6)
    requires a !in m6.own && b !in m6.own && c !in m6.own && (forall f :: f in m.own ==> f in m6.own)
    requires forall f :: m.boot.lastKernel <= f < c && f != a && f != b ==> f in m.own
    ensures AboutToLose(m6, v, t, c)
  {
    ThirdLowest(m6, a, b, c);
  }

  lemma StillUnmapped(m: Mem, m': Mem, v: Vars, t: int, c: int)
    requires Unmapped(m) && WithStale(m, m', v, t, c)
    ensures Unmapped(m')
  {
  }

  /** Each step of the run is harmless, and yet the fork after it loses the invariant. */
  lemma RunLosesTable(m: Mem, v: Vars, t: int)
    requires FreshSystem(m, v, t) && Unmapped(m) && FRAMES_PER_TASK + 2 <= Available(m)
    ensures exists c, m6 ::
      && LinkedReaches(m, v, LosingRun(t, c), m6) && Inv(m6) && t in m6.dir && FreeFrames(m6) != []
      && LinkedFork(m6, v, t).1 == Child(FreeFrames(m6)[0]) && LosesEntry(LinkedFork(m6, v, t).0, FreeFrames(m6)[0])
  {
    var m1, m2, a, b := TwoTaken(m, v, t);
    var c := FreeFrames(m2)[0];
    var m3 := LinkedFork(m2, v, t).0;
    assert c in FreeFrames(m2);
    ChildComes(m2, v, t, c, m3);
    var m4 := LinkedExit(m3, c);
    ChildGoes(m2, v, t, c, m3, m4);
    var m5, m6 := BothRemoved(m, m2, m4, v, t, a, b, c);
    ForkLosesEntry(m6, v, t, c);
    assert LinkedReaches(m6, v, [], m6);
    TwoMoreSteps(m4, v, MemoryStep(MR.OpShmrm(t, 0)), m5, MemoryStep(MR.OpShmrm(t, 1)), m6, [], m6);
    FirstFour(m, v, t, c, m1, m2, m3, m4, [MemoryStep(MR.OpShmrm(t, 0)), MemoryStep(MR.OpShmrm(t, 1))] + [], m6);
    RunInParts(t, c);
  }

  lemma RunInParts(t: int, c: int)
    ensures LosingRun(t, c) == [MemoryStep(MR.OpShmat(t, 0, 1)), MemoryStep(MR.OpShmat(t, 1, 1))] +
      ([ForkStep(t), ExitStep(c)] + ([MemoryStep(MR.OpShmrm(t, 0)), MemoryStep(MR.OpShmrm(t, 1))] + []))
  {
  }

  lemma FirstFour(m: Mem, v: Vars, t: int, c: int, m1: Mem, m2: Mem, m3: Mem, m4: Mem, rest: seq<LinkedOp>, m6: Mem)
    requires Sized(m) && t in m.dir && m1 == Shmat(m, t, 0, 1).0 && Sized(m1) && t in m1.dir
    requires m2 == Shmat(m1, t, 1, 1).0 && Sized(m2) && t in m2.dir && Guard(m2, v, ForkStep(t))
    requires m3 == LinkedFork(m2, v, t).0 && Sized(m3) && c in m3.dir && Guard(m3, v, ExitStep(c))
    requires m4 == LinkedExit(m3, c) && LinkedReaches(m4, v, rest, m6)
    ensures LinkedReaches(m, v,
      [MemoryStep(MR.OpShmat(t, 0, 1)), MemoryStep(MR.OpShmat(t, 1, 1))] + ([ForkStep(t), ExitStep(c)] + rest), m6)
  {
    TwoMoreSteps(m2, v, ForkStep(t), m3, ExitStep(c), m4, rest, m6);
    ShmatStep(m, v, t, 0, 1);
    ShmatStep(m1, v, t, 1, 1);
    TwoMoreSteps(m, v, MemoryStep(MR.OpShmat(t, 0, 1)), m1, MemoryStep(MR.OpShmat(t, 1, 1)), m2,
      [ForkStep(t), ExitStep(c)] + rest, m6);
  }

  /** And that run is possible right after booting. */
  lemma TableLostAfterBoot(lastKernel: nat, ram: seq<Page>, v: Vars, m: Mem, t: int)
    requires 0x10 < lastKernel <= TOTAL_PAGES - 60 && |ram| == TOTAL_PAGES && BootVars(lastKernel, v)
    requires m == BootState(lastKernel, ram, v.tasks) && t == InitFrame(lastKernel)
    ensures exists c, m6 ::
      && LinkedReaches(m, v, LosingRun(t, c), m6) && Inv(m6) && t in m6.dir && FreeFrames(m6) != []
      && LinkedFork(m6, v, t).1 == Child(FreeFrames(m6)[0]) && LosesEntry(LinkedFork(m6, v, t).0, FreeFrames(m6)[0])
  {
    BootIsFresh(lastKernel, ram, v, m, t);
    BootHasMore(lastKernel, ram, v, m, t);
    RunLosesTable(m, v, t);
  }

  lemma BootHasMore(lastKernel: nat, ram: seq<Page>, v: Vars, m: Mem, t: int)
    requires 0x10 < lastKernel <= TOTAL_PAGES - 60 && |ram| == TOTAL_PAGES && BootVars(lastKernel, v)
    requires m == BootState(lastKernel, ram, v.tasks) && FreshSystem(m, v, t)
    ensures Unmapped(m) && FRAMES_PER_TASK + 2 <= Available(m)
  {
    BootStateInv(lastKernel, ram, v);
    BootAvailable(lastKernel, ram);
    RoomAfterBoot(lastKernel);
    AlikeBalance(MR.BootMem(lastKernel, ram), m);
    NothingIsMapped(m);
  }

  lemma NothingIsMapped(m: Mem)
    requires Inv(m) && NothingShared(m)
    ensures Unmapped(m)
  {
    forall s, i | s in m.dir && FIRST_SHARED <= i < PT_ENTRIES ensures Tab(m, s)[i] == ZERO_WORD {
      assert TableOk(m, Tab(m, s)) && SharedEntry(m.shFrame, Tab(m, s)[i]);
    }
    forall id | 0 <= id < NUM_SHARED_PAGES ensures m.shMark[id] == 0 { assert SharedOk(m, id); }
  }

  // ---------- what the weaker condition allows ----------

  lemma JoinHitsShared(m: Mem, v: Vars, t: int, c: int, e: Mem)
    requires SharedOverStale(m, v, t, c) && FreeFrames(m) != [] && e == Enlisted(m, v)
    ensures FreeFrames(e) == FreeFrames(m) && Prev(e.ram, Member(t, CHILDREN_UNBLOCKED)) == Member(c, SIBILING)
    ensures Inv(e) && c in e.own && e.own[c] == Shared(0) && c !in FreeFrames(e)
    ensures !TablePlace(e, Member(c, SIBILING)) && !TablePlace(m, Member(c, TASK_LIST))
  {
    StaleEnlist(m, v, t, c, e);
    SharedFrames(m, 0);
    NoTablePlace(m, Member(c, TASK_LIST));
    NoTablePlace(e, Member(c, SIBILING));
  }

  /**
   * Where a stale word leads into a shared page, fork changes a word that its caller sees, and is not harmless; but it
   * changes no table, and ownership and reference counts stay consistent.
   */
  lemma OnlyBytesAreLost(m: Mem, v: Vars, t: int, c: int)
    requires SharedOverStale(m, v, t, c)
    ensures TableGuard(m, v, ForkStep(t)) && Inv(LinkedStep(m, v, ForkStep(t)))
    ensures !Guard(m, v, ForkStep(t)) && ForkDisturbs(m, v, t)
  {
    SecondFork(m, v, t, c);
    StaleForkKeepsTables(m, v, t, c);
    TableStepKeeps(m, v, ForkStep(t));
  }

  lemma StaleForkKeepsTables(m: Mem, v: Vars, t: int, c: int)
    requires SharedOverStale(m, v, t, c)
    ensures TableGuard(m, v, ForkStep(t))
  {
    var e, fs := Enlisted(m, v), FreeFrames(m);
    JoinHitsShared(m, v, t, c, e);
    SharedFrames(m, 0);
    assert fs[1] in fs && fs[2] in fs && fs[0] in fs;
    StaleForkIsSound(m, v, t, c, e);
    assert LaterTableGuard(e, v, t);
  }

  lemma StaleForkIsSound(m: Mem, v: Vars, t: int, c: int, e: Mem)
    requires SharedOverStale(m, v, t, c) && FreeFrames(m) != [] && e == Enlisted(m, v) && Inv(e)
    requires c in m.own && m.own[c] == Shared(0) && c !in FreeFrames(e) && FreeFrames(e) == FreeFrames(m)
    requires Prev(e.ram, Member(t, CHILDREN_UNBLOCKED)) == Member(c, SIBILING)
    ensures ForkSound(m, v, t)
  {
    assert FreeFrames(m)[0] in FreeFrames(m);
  }
}
