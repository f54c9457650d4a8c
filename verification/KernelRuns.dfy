/** Every run keeps the invariant of the whole kernel, from booting on. */
module KernelRuns {
  import opened Machine
  import opened Memory
  import opened PcbLists
  import opened LinkedMemory
  import opened LinkedBoot
  import opened LinkKinds
  import opened FamilyWords
  import opened KernelState
  import opened KernelSteps
  import opened KernelSafety
  import opened ForkSafety
  import opened Rings
  import opened Scheduler
  import MR = MemoryRuns
  import S = Scheduling
  import SI = SchedulingInvariant

  // ---------- every step ----------

  /** Every step that satisfies its condition keeps memory, scheduling, their link and the kind of all list links. */
  lemma KernelStepKeeps(k: Kernel, op: KernelOp)
    requires KernelInv(k) && Allowed(k, op)
    ensures KernelInv(KernelStep(k, op))
  {
    match op
    case Scheduled(o) => ScheduledKeeps(k, o);
    case CallFork => if Calls(k) { ForkCallKeeps(k, KernelStep(k, op)); }
    case CallExit => if Calls(k) { ExitCallKeeps(k, KernelStep(k, op)); }
    case _ => MemoryCallKeeps(k, op);
  }

  lemma {:induction false} KernelRunKeeps(k: Kernel, ops: seq<KernelOp>, k': Kernel)
    requires KernelInv(k) && KernelReaches(k, ops, k')
    ensures KernelInv(k')
    decreases |ops|
  {
    if ops != [] {
      KernelStepKeeps(k, ops[0]);
      KernelRunKeeps(KernelStep(k, ops[0]), ops[1..], k');
    }
  }

  // ---------- booting ----------

  function BootKernel(lastKernel: nat, ram: seq<Page>, v: Vars): Kernel
    requires 0x10 < lastKernel <= TOTAL_PAGES - MR.BOOT_FRAMES && |ram| == TOTAL_PAGES
  {
    var pcbs := map[S.IDLE_PID := IdleFrame(lastKernel), S.INIT_PID := InitFrame(lastKernel)];
    Kernel(BootState(lastKernel, ram, v.tasks), S.BOOT_SCHED, pcbs, v)
  }

  lemma BootTied(k: Kernel, init: int)
    requires k.sched == S.BOOT_SCHED && k.pcbOf == map[S.IDLE_PID := k.vars.idlePcb, S.INIT_PID := init]
    requires FramesApart(k.vars.idlePcb, init, k.vars.tasks) && k.mem.dir.Keys == {init}
    requires k.mem.boot.lastKernel <= init && init !in k.mem.boot.pinned
    ensures Tied(k) && OwnFrames(k.pcbOf, TOTAL_PAGES)
  {
    var F := k.pcbOf;
    assert F[S.INIT_PID] == init;
    assert UserPcbs(F, k.sched.live, S.IDLE_PID) == {init};
  }

  /** Nobody has children yet. */
  lemma BootFamilies(ram: seq<Page>, F: PcbFrames, l: Links<Node>)
    requires F.Keys == {S.IDLE_PID, S.INIT_PID} && l == Links(BootPointers(), BootPointers())
    requires forall p, i: Index :: p in F && (i == CHILDREN_BLOCKED || i == CHILDREN_UNBLOCKED) ==>
      WordAt(ram, Member(F[p], i)) == Pointer(Member(F[p], i))
        && WordAt(ram, Plus(Member(F[p], i), 1)) == Pointer(Member(F[p], i))
    ensures InMemory(ram, F, FamilyRings(S.BOOT_SCHED, F.Keys))
  {
    var r := FamilyRings(S.BOOT_SCHED, F.Keys);
    forall h | h in r ensures r[h] == [] && h in l.next && l.next[h] == Some(h) && h in l.prev && l.prev[h] == Some(h) {
      BootHead(h);
      BootRing(h);
    }
    AllSelf(l, r);
    forall n | n in Nodes(r) ensures LinkedIn(ram, F, l, n) { }
    assert Carries(ram, F, l, r);
  }

  /** The links that booting leaves are of the right kind. */
  lemma BootWordFits(w: Word, v: Vars, init: int, q: Place)
    requires FramesApart(v.idlePcb, init, v.tasks) && Watched(v, {v.idlePcb, init}, q)
    ensures Fits(v, q, BootWord(w, v.idlePcb, init, v.tasks, q))
  {
    var idle := v.idlePcb;
    BootWordsOf(w, idle, init, v.tasks);
    BootTaskWordsOf(w, idle, init, v.tasks);
    BootFamilyWordsOf(w, idle, init, v.tasks, init, CHILDREN_BLOCKED);
    BootFamilyWordsOf(w, idle, init, v.tasks, init, CHILDREN_UNBLOCKED);
    PointerBack(v.tasks);
    PointerBack(Member(idle, TASK_LIST));
    PointerBack(Member(init, TASK_LIST));
    PointerBack(Member(init, SIBILING));
    PointerBack(Member(init, CHILDREN_BLOCKED));
    PointerBack(Member(init, CHILDREN_UNBLOCKED));
    if q != v.tasks && q != Plus(v.tasks, 1) { assert q == Member(q.frame, q.index); }
  }

  lemma BootLinked(ram0: seq<Page>, v: Vars, init: int)
    requires |ram0| == TOTAL_PAGES && FramesApart(v.idlePcb, init, v.tasks)
    ensures LinksFit(BootLists(ram0, v.idlePcb, init, v.tasks), v, {v.idlePcb, init}, {})
  {
    forall q | Watched(v, {v.idlePcb, init}, q)
      ensures Fits(v, q, WordAt(BootLists(ram0, v.idlePcb, init, v.tasks), q))
    {
      BootReads(ram0, v.idlePcb, init, v.tasks, q);
      BootWordFits(WordAt(ram0, q), v, init, q);
    }
  }

  /** The families that booting leaves. */
  lemma BootFamiliesHold(k: Kernel, init: int, ram0: seq<Page>)
    requires |ram0| == TOTAL_PAGES && FramesApart(k.vars.idlePcb, init, k.vars.tasks)
    requires k.mem.ram == BootLists(ram0, k.vars.idlePcb, init, k.vars.tasks) && k.sched == S.BOOT_SCHED
    requires k.pcbOf == map[S.IDLE_PID := k.vars.idlePcb, S.INIT_PID := init]
    ensures FamiliesHold(k)
  {
    var F, idle := k.pcbOf, k.vars.idlePcb;
    assert F[S.IDLE_PID] == idle && F[S.INIT_PID] == init;
    forall p, i: Index | p in F && (i == CHILDREN_BLOCKED || i == CHILDREN_UNBLOCKED)
      ensures WordAt(k.mem.ram, Member(F[p], i)) == Pointer(Member(F[p], i))
      ensures WordAt(k.mem.ram, Plus(Member(F[p], i), 1)) == Pointer(Member(F[p], i))
    {
      var q := Member(F[p], i);
      BootReads(ram0, idle, init, k.vars.tasks, q);
      BootReads(ram0, idle, init, k.vars.tasks, Plus(q, 1));
      BootFamilyWordsOf(WordAt(ram0, q), idle, init, k.vars.tasks, F[p], i);
      BootFamilyWordsOf(WordAt(ram0, Plus(q, 1)), idle, init, k.vars.tasks, F[p], i);
    }
    BootFamilies(k.mem.ram, F, Links(BootPointers(), BootPointers()));
    BootReads(ram0, idle, init, k.vars.tasks, Member(init, PARENT));
    BootFamilyWordsOf(WordAt(ram0, Member(init, PARENT)), idle, init, k.vars.tasks, init, CHILDREN_BLOCKED);
  }

  /** Booting establishes the invariant of the whole kernel, and memory holds the families. */
  lemma BootKernelInv(lastKernel: nat, ram: seq<Page>, v: Vars, k: Kernel)
    requires 0x10 < lastKernel <= TOTAL_PAGES - MR.BOOT_FRAMES && |ram| == TOTAL_PAGES && BootVars(lastKernel, v)
    requires k == BootKernel(lastKernel, ram, v)
    ensures KernelInv(k) && FamilyInv(k)
  {
    var init, ram0 := InitFrame(lastKernel), MR.BootMem(lastKernel, ram).ram;
    BootStateInv(lastKernel, ram, v);
    InitIsTask(k.mem, init);
    FirstKernelInv(k, init, ram0);
  }

  lemma FirstKernelInv(k: Kernel, init: int, ram0: seq<Page>)
    requires k.sched == S.BOOT_SCHED && k.pcbOf == map[S.IDLE_PID := k.vars.idlePcb, S.INIT_PID := init]
    requires FramesApart(k.vars.idlePcb, init, k.vars.tasks) && k.mem.dir.Keys == {init}
    requires k.mem.boot.lastKernel <= init && init !in k.mem.boot.pinned
    requires |ram0| == TOTAL_PAGES && k.mem.ram == BootLists(ram0, k.vars.idlePcb, init, k.vars.tasks)
    requires Inv(k.mem) && VarsOk(k.mem, k.vars)
    ensures KernelInv(k) && FamilyInv(k)
  {
    SI.BootKeeps();
    BootTied(k, init);
    BootLinked(ram0, k.vars, init);
    assert k.pcbOf[S.INIT_PID] == init;
    assert LiveFrames(k.pcbOf, k.sched.live) == {k.vars.idlePcb, init};
    BootFamiliesHold(k, init, ram0);
    Whole(k);
  }

  lemma InitIsTask(m: Mem, init: int)
    requires Inv(m) && init in m.dir
    ensures m.boot.lastKernel <= init && init !in m.boot.pinned
  {
    assert Claim(m, Owner.Pcb(init), init);
    assert init in m.boot.pinned ==> Claim(m, Pinned, init);
  }

  /** Every state that such a run reaches after booting satisfies the invariant of the whole kernel. */
  lemma ReachableKernelInv(lastKernel: nat, ram: seq<Page>, v: Vars, ops: seq<KernelOp>, k: Kernel)
    requires 0x10 < lastKernel <= TOTAL_PAGES - MR.BOOT_FRAMES && |ram| == TOTAL_PAGES && BootVars(lastKernel, v)
    requires KernelReaches(BootKernel(lastKernel, ram, v), ops, k)
    ensures KernelInv(k)
  {
    BootKernelInv(lastKernel, ram, v, BootKernel(lastKernel, ram, v));
    KernelRunKeeps(BootKernel(lastKernel, ram, v), ops, k);
  }
}
