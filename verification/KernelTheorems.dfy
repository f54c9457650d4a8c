/** What the kernel's invariant means, for states and for whole runs. */
module KernelTheorems {
  import opened Machine
  import opened Memory
  import opened MemoryInvariant
  import opened TaskLife
  import opened Isolation
  import opened Balance
  import opened MemoryTheorems
  import opened PcbLists
  import opened LinkedMemory
  import opened LinkedRuns
  import opened LinkedBoot
  import opened TableSafety
  import opened TableRuns
  import opened FamilyWords
  import opened MemoryRings
  import opened KernelState
  import opened KernelSteps
  import opened KernelSafety
  import opened ForkSafety
  import opened KernelRuns
  import opened KernelFamilies
  import opened FamilyRuns
  import opened Scheduler
  import MR = MemoryRuns
  import S = Scheduling
  import ST = SchedulingTheorems

  // ---------- each side alone ----------

  /** What a step asks of the scheduler, if anything. */
  function SchedPart(k: Kernel, op: KernelOp): seq<S.Op>
    requires Sized(k.mem)
  {
    match op
    case Scheduled(o) => if o.OpFork? || o.OpExit? then [] else [o]
    case CallFork => if Calls(k) && LinkedFork(k.mem, k.vars, k.pcbOf[k.sched.cur]).1.Child? then [S.OpFork] else []
    case CallExit => if Calls(k) then [S.OpExit] else []
    case _ => []
  }

  ghost function MemParts(k: Kernel, ops: seq<KernelOp>): seq<LinkedOp>
    decreases |ops|
  {
    if ops == [] || !Sized(k.mem) then [] else MemPart(k, ops[0]) + MemParts(KernelStep(k, ops[0]), ops[1..])
  }

  ghost function SchedParts(k: Kernel, ops: seq<KernelOp>): seq<S.Op>
    decreases |ops|
  {
    if ops == [] || !Sized(k.mem) then [] else SchedPart(k, ops[0]) + SchedParts(KernelStep(k, ops[0]), ops[1..])
  }

  lemma RunOfOne(s: S.Sched, o: S.Op)
    ensures S.Run(s, [o]) == S.Step(s, o) && S.Run(s, []) == s
  {
    assert S.Run(s, [o]) == S.Run(S.Step(s, o), [o][1..]);
  }

  lemma ForkSchedStep(k: Kernel, t: int, k': Kernel)
    requires Sized(k.mem) && Calls(k) && t == k.pcbOf[k.sched.cur] && k' == KernelStep(k, CallFork)
    ensures k'.sched == if LinkedFork(k.mem, k.vars, t).1.Child? then S.Fork(k.sched) else k.sched
  {
    ForkStepIs(k, t, k');
  }

  lemma CallsAreEnabled(s: S.Sched)
    requires S.Enabled(s, S.OpExit)
    ensures S.Run(s, [S.OpFork]) == S.Fork(s) && S.Run(s, [S.OpExit]) == S.Exit(s)
  {
    RunOfOne(s, S.OpFork);
    RunOfOne(s, S.OpExit);
  }

  lemma CallParts(k: Kernel, t: int, r: Forked)
    requires Sized(k.mem) && Calls(k) && t == k.pcbOf[k.sched.cur] && r == LinkedFork(k.mem, k.vars, t).1
    ensures SchedPart(k, CallFork) == (if r.Child? then [S.OpFork] else []) && SchedPart(k, CallExit) == [S.OpExit]
  {
  }

  lemma CallSched(k: Kernel, op: KernelOp)
    requires Sized(k.mem) && (op.CallFork? || op.CallExit?)
    ensures S.Run(k.sched, SchedPart(k, op)) == KernelStep(k, op).sched
  {
    if Calls(k) {
      var t := k.pcbOf[k.sched.cur];
      CallsAreEnabled(k.sched);
      CallParts(k, t, LinkedFork(k.mem, k.vars, t).1);
      if op.CallFork? { ForkSchedStep(k, t, KernelStep(k, op)); } else { ExitStepIs(k, t, KernelStep(k, op)); }
    }
  }

  lemma QueueSched(k: Kernel, o: S.Op)
    requires Sized(k.mem)
    ensures S.Run(k.sched, SchedPart(k, Scheduled(o))) == KernelStep(k, Scheduled(o)).sched
  {
    RunOfOne(k.sched, o);
    if !o.OpFork? && !o.OpExit? { ScheduledIs(k, o); }
  }

  lemma SchedStep(k: Kernel, op: KernelOp)
    requires Sized(k.mem)
    ensures S.Run(k.sched, SchedPart(k, op)) == KernelStep(k, op).sched
  {
    match op
    case Scheduled(o) => QueueSched(k, o);
    case CallFork => CallSched(k, op);
    case CallExit => CallSched(k, op);
    case _ => MemoryCallIs(k, op);
  }

  lemma StepMem(k: Kernel, op: KernelOp)
    requires Sized(k.mem)
    ensures MemPart(k, op) == [] ==> KernelStep(k, op).mem == k.mem
    ensures MemPart(k, op) != [] ==>
      |MemPart(k, op)| == 1 && KernelStep(k, op).mem == LinkedStep(k.mem, k.vars, MemPart(k, op)[0])
    ensures KernelStep(k, op).vars == k.vars
  {
  }

  lemma StepProjects(k: Kernel, op: KernelOp)
    requires Sized(k.mem) && Allowed(k, op)
    ensures TableReaches(k.mem, k.vars, MemPart(k, op), KernelStep(k, op).mem) && KernelStep(k, op).vars == k.vars
    ensures |MemPart(k, op)| <= 1
  {
    var mo := MemPart(k, op);
    StepMem(k, op);
    if mo != [] { OneStepReaches(k.mem, k.vars, mo, KernelStep(k, op).mem); }
  }

  lemma OneStepReaches(m: Mem, v: Vars, mo: seq<LinkedOp>, m': Mem)
    requires Sized(m) && |mo| == 1 && TableGuard(m, v, mo[0]) && m' == LinkedStep(m, v, mo[0])
    ensures TableReaches(m, v, mo, m')
  {
    assert TableReaches(m', v, mo[1..], m');
  }

  lemma {:induction false} SchedProjects(k: Kernel, ops: seq<KernelOp>, k': Kernel)
    requires KernelReaches(k, ops, k')
    ensures S.Run(k.sched, SchedParts(k, ops)) == k'.sched
    decreases |ops|
  {
    if ops != [] {
      var k1 := KernelStep(k, ops[0]);
      SchedStep(k, ops[0]);
      SchedProjects(k1, ops[1..], k');
      RunJoins(k.sched, SchedPart(k, ops[0]), SchedParts(k1, ops[1..]));
    }
  }

  lemma {:induction false} MemProjects(k: Kernel, ops: seq<KernelOp>, k': Kernel)
    requires KernelInv(k) && KernelReaches(k, ops, k')
    ensures TableReaches(k.mem, k.vars, MemParts(k, ops), k'.mem)
    decreases |ops|
  {
    if ops != [] {
      var k1 := KernelStep(k, ops[0]);
      StepProjects(k, ops[0]);
      KernelStepKeeps(k, ops[0]);
      MemProjects(k1, ops[1..], k');
      ReachesJoins(k.mem, k.vars, MemPart(k, ops[0]), k1.mem, MemParts(k1, ops[1..]), k'.mem);
    }
  }

  /** Seen from one side, every run of the kernel is a run of that side, and for memory one that keeps all tables. */
  lemma RunProjects(k: Kernel, ops: seq<KernelOp>, k': Kernel)
    requires KernelInv(k) && KernelReaches(k, ops, k')
    ensures S.Run(k.sched, SchedParts(k, ops)) == k'.sched && TableReaches(k.mem, k.vars, MemParts(k, ops), k'.mem)
  {
    SchedProjects(k, ops, k');
    MemProjects(k, ops, k');
  }

  lemma RunJoins(s: S.Sched, a: seq<S.Op>, b: seq<S.Op>)
    requires |a| <= 1
    ensures S.Run(s, a + b) == S.Run(S.Run(s, a), b)
  {
    if a != [] {
      assert S.Run(s, a) == S.Run(S.Step(s, a[0]), a[1..]) == S.Step(s, a[0]);
      assert (a + b)[1..] == b;
    } else {
      assert a + b == b;
    }
  }

  lemma ReachesJoins(m: Mem, v: Vars, a: seq<LinkedOp>, m1: Mem, b: seq<LinkedOp>, m2: Mem)
    requires |a| <= 1 && TableReaches(m, v, a, m1) && TableReaches(m1, v, b, m2)
    ensures TableReaches(m, v, a + b, m2)
  {
    if a != [] {
      assert TableReaches(LinkedStep(m, v, a[0]), v, a[1..], m1);
      assert (a + b)[1..] == b;
    } else {
      assert a + b == b;
    }
  }

  // ---------- what a step is ----------

  /** The calls on memory are those of the running task, on its own table, and leave the scheduler alone. */
  lemma CallOnMemory(k: Kernel, op: KernelOp, t: int)
    requires Sized(k.mem) && Calls(k) && t == k.pcbOf[k.sched.cur]
    ensures var k' := KernelStep(k, op);
      match op
      case CallShmat(id, addr) => k' == k.(mem := Shmat(k.mem, t, id, addr).0)
      case CallShmdt(addr) => k' == k.(mem := Shmdt(k.mem, t, addr).0)
      case CallShmrm(id) => k' == k.(mem := Shmrm(k.mem, id).0)
      case UserStore(i, j, w) => 0 <= i < 1024 && 0 <= j < 1024 ==> k' == k.(mem := Store(k.mem, t, i, j, w))
      case CopyOut(i, j, w) => 0 <= i <= 28 && 0 <= j < 1024 ==> k' == k.(mem := Memory.CopyOut(k.mem, t, i, j, w))
      case _ => true
  {
  }

  /** fork and exit are those of the running task on both sides, and ticks, keys and reads are the scheduler's alone. */
  lemma CallOnBoth(k: Kernel, op: KernelOp)
    requires Sized(k.mem)
    ensures var k' := KernelStep(k, op);
      && (!Calls(k) && !op.Scheduled? ==> k' == k)
      && (Calls(k) && op.CallExit? ==>
        k' == k.(mem := LinkedExit(k.mem, k.pcbOf[k.sched.cur]), sched := S.Step(k.sched, S.OpExit)))
      && (Calls(k) && op.CallFork? ==> k'.mem == LinkedFork(k.mem, k.vars, k.pcbOf[k.sched.cur]).0)
      && (op.Scheduled? && !op.op.OpFork? && !op.op.OpExit? ==> k'.sched == S.Step(k.sched, op.op))
      && (op.Scheduled? && !op.op.OpBlock? && !op.op.OpUnblock? ==> k'.mem == k.mem)
  {
    if op.CallFork? && Calls(k) {
      var t := k.pcbOf[k.sched.cur];
      ForkStepIs(k, t, KernelStep(k, op));
      ForkedState(k, LinkedFork(k.mem, k.vars, t).0, LinkedFork(k.mem, k.vars, t).1, KernelStep(k, op));
    } else if op.CallExit? && Calls(k) {
      ExitStepIs(k, k.pcbOf[k.sched.cur], KernelStep(k, op));
    } else if op.Scheduled? && !op.op.OpFork? && !op.op.OpExit? {
      ScheduledIs(k, op.op);
    }
  }

  // ---------- PCBs and queues ----------

  ghost predicate Present(s: S.Sched, t: int) {
    t == s.cur || t in s.ready || t in s.blocked || t in s.kbd
  }

  /** A task that runs or is queued has a PCB that is in use, is its own, and cannot be handed out by alloc_frame. */
  lemma QueuedPcbIsKept(k: Kernel, t: int)
    requires KernelInv(k) && Present(k.sched, t)
    ensures t in k.pcbOf
    ensures var f := k.pcbOf[t];
      && 0 <= f < TOTAL_PAGES && k.mem.phys[f] == USED_FRAME && f != NextFree(k.mem) && f !in FreeFrames(k.mem)
      && f in k.mem.own && k.mem.own[f] == (if t == k.sched.idle then Pinned else Owner.Pcb(f))
      && forall u :: u in k.sched.live && u in k.pcbOf && u != t ==> k.pcbOf[u] != f
  {
    ST.IdleAndDead(k.sched, t);
    UserPcb(k, t);
    NextFreeIsFree(k.mem);
  }

  /**
   * A frame is owned as a PCB exactly when it is the PCB of a live task other than idle, and that task is somewhere.
   */
  lemma PcbIsPlaced(k: Kernel, f: int)
    requires KernelInv(k)
    ensures f in k.mem.own && k.mem.own[f].Pcb? <==>
      exists p :: p in k.sched.live && p in k.pcbOf && p != k.sched.idle && k.pcbOf[p] == f && Present(k.sched, p)
  {
    if f in k.mem.own && k.mem.own[f].Pcb? {
      assert Claim(k.mem, k.mem.own[f], f);
      assert f in UserPcbs(k.pcbOf, k.sched.live, k.sched.idle);
      var p :| p in k.sched.live && p in k.pcbOf && p != k.sched.idle && k.pcbOf[p] == f;
      ST.OnePlaceEach(k.sched, p);
    }
    if p :| p in k.sched.live && p in k.pcbOf && p != k.sched.idle && k.pcbOf[p] == f { UserPcb(k, p); }
  }

  // ---------- frames and tasks ----------

  /** Memory has a task for each live task but idle. */
  lemma TaskCount(k: Kernel)
    requires KernelInv(k)
    ensures |k.mem.dir| == |k.sched.live| - 1
  {
    var keys := k.sched.live - {k.sched.idle};
    Images(k.pcbOf, keys);
    assert UserPcbs(k.pcbOf, k.sched.live, k.sched.idle) == set p | p in keys :: k.pcbOf[p];
    assert |k.mem.dir| == |k.mem.dir.Keys|;
  }

  lemma AnyOf(keys: set<int>) returns (p: int)
    requires keys != {}
    ensures p in keys
  {
    assert exists p :: p in keys by {
      if !exists p :: p in keys { assert false; }
    }
    p :| p in keys;
  }

  lemma {:induction false} Images(m: map<int, int>, keys: set<int>)
    requires keys <= m.Keys && forall p, q :: p in keys && q in keys && m[p] == m[q] ==> p == q
    ensures |set p | p in keys :: m[p]| == |keys|
    decreases |keys|
  {
    if keys != {} {
      var p := AnyOf(keys);
      Images(m, keys - {p});
      assert (set q | q in keys :: m[q]) == (set q | q in keys - {p} :: m[q]) + {m[p]};
      assert m[p] !in set q | q in keys - {p} :: m[q];
    }
  }

  /**
   * Over a whole run: free frames, 23 for each live task but idle, shared pages and leaked frames add up to the same.
   */
  lemma FramesPerLiveTask(k: Kernel, ops: seq<KernelOp>, k': Kernel)
    requires KernelInv(k) && KernelReaches(k, ops, k')
    ensures KernelInv(k')
    ensures Available(k'.mem) + 23 * |k'.sched.live| + |Allocated(k'.mem)| + |LeakedFrames(k'.mem)| ==
      Available(k.mem) + 23 * |k.sched.live| + |Allocated(k.mem)| + |LeakedFrames(k.mem)|
  {
    KernelRunKeeps(k, ops, k');
    RunProjects(k, ops, k');
    TableRunConserves(k.mem, k.vars, MemParts(k, ops), k'.mem);
    TaskCount(k);
    TaskCount(k');
  }

  /**
   * fork adds a task exactly when 23 frames are free: a new PID, last of the ready tasks and of its parent's children.
   */
  lemma ForkBothOrNone(k: Kernel, k': Kernel)
    requires KernelInv(k) && Calls(k) && Allowed(k, CallFork) && k' == KernelStep(k, CallFork)
    ensures Sized(k'.mem)
    ensures Available(k.mem) >= FRAMES_PER_TASK ==>
      && k'.sched == S.Fork(k.sched) && k'.pcbOf == k.pcbOf[k.sched.lastPid + 1 := NextFree(k.mem)]
      && k.sched.lastPid + 1 !in k.pcbOf && Available(k'.mem) == Available(k.mem) - FRAMES_PER_TASK
    ensures Available(k.mem) < FRAMES_PER_TASK ==>
      && k'.sched == k.sched && k'.pcbOf == k.pcbOf
      && Available(k'.mem) == Available(k.mem) - if Available(k.mem) >= 2 then 1 else 0
  {
    var t := k.pcbOf[k.sched.cur];
    ForkStepIs(k, t, k');
    TableForkAccounting(k.mem, k.vars, t);
    ForkedState(k, LinkedFork(k.mem, k.vars, t).0, LinkedFork(k.mem, k.vars, t).1, k');
    NewcomerPid(k);
  }

  lemma ForkedState(k: Kernel, m': Mem, r: Forked, k': Kernel)
    requires Sized(k.mem) && k' == AfterFork(k, m', r)
    ensures k'.mem == m'
    ensures r.Child? ==> k'.sched == S.Fork(k.sched) && k'.pcbOf == k.pcbOf[k.sched.lastPid + 1 := r.pcb]
    ensures r.Failed? ==> k'.sched == k.sched && k'.pcbOf == k.pcbOf
  {
  }

  // ---------- a task that does not run ----------

  /** s is not the running task before any of the steps. */
  ghost predicate NeverRuns(k: Kernel, ops: seq<KernelOp>, s: int)
    decreases |ops|
  {
    ops != [] ==> k.sched.cur != s && Sized(k.mem) && NeverRuns(KernelStep(k, ops[0]), ops[1..], s)
  }

  lemma PartsAreCallers(k: Kernel, op: KernelOp)
    requires KernelInv(k)
    ensures MemPart(k, op) != [] ==> forall f :: IsBy(MemPart(k, op)[0], f) ==> Calls(k) && f == k.pcbOf[k.sched.cur]
  {
    if op.Scheduled? { PartsAreMoves(k, op.op); } else if IsMemoryCall(op) { MemoryCallIs(k, op); }
  }

  lemma PartsAreMoves(k: Kernel, o: S.Op)
    requires KernelInv(k)
    ensures MemPart(k, Scheduled(o)) != [] ==> MemPart(k, Scheduled(o))[0].MoveStep?
  {
  }

  /** The stronger condition on a step: its list operations write nothing that a task sees. */
  ghost predicate Guarded(k: Kernel, op: KernelOp)
    requires Sized(k.mem)
  {
    && (MemPart(k, op) != [] ==> Guard(k.mem, k.vars, MemPart(k, op)[0]))
    && (op.Scheduled? ==> WalksOk(k, op.op))
  }

  ghost predicate GuardedReaches(k: Kernel, ops: seq<KernelOp>, k': Kernel)
    decreases |ops|
  {
    if ops == [] then k' == k
    else Sized(k.mem) && Guarded(k, ops[0]) && GuardedReaches(KernelStep(k, ops[0]), ops[1..], k')
  }

  lemma GuardedIsAllowed(k: Kernel, op: KernelOp)
    requires Inv(k.mem) && VarsOk(k.mem, k.vars) && Guarded(k, op)
    ensures Allowed(k, op)
  {
    if MemPart(k, op) != [] { GuardIsEnough(k.mem, k.vars, MemPart(k, op)[0]); }
  }

  lemma StepSparesOthers(k: Kernel, op: KernelOp, s: int)
    requires KernelInv(k) && Guarded(k, op) && s in k.sched.live && s != k.sched.idle && s != k.sched.cur
    ensures s in k.pcbOf && Untouched(k.mem, KernelStep(k, op).mem, k.pcbOf[s])
  {
    UserPcb(k, s);
    StepMem(k, op);
    PartsAreCallers(k, op);
    if MemPart(k, op) != [] { LinkedStepSparesOthers(k.mem, k.vars, MemPart(k, op)[0], k.pcbOf[s]); }
  }

  lemma ForkKeepsTask(k: Kernel, s: int, k': Kernel)
    requires Sized(k.mem) && Calls(k) && s in k.sched.live && s in k.pcbOf && s <= k.sched.lastPid
    requires k' == KernelStep(k, CallFork)
    ensures s in k'.pcbOf && k'.pcbOf[s] == k.pcbOf[s] && k'.sched.idle == k.sched.idle && s in k'.sched.live
  {
    var t := k.pcbOf[k.sched.cur];
    ForkFields(k.sched);
    ForkStepIs(k, t, k');
    ForkedState(k, LinkedFork(k.mem, k.vars, t).0, LinkedFork(k.mem, k.vars, t).1, k');
  }

  lemma StepKeepsTask(k: Kernel, op: KernelOp, s: int, k': Kernel)
    requires Sized(k.mem) && s in k.sched.live && s in k.pcbOf && s <= k.sched.lastPid && s != k.sched.cur
    requires k' == KernelStep(k, op)
    ensures s in k'.pcbOf && k'.pcbOf[s] == k.pcbOf[s] && k'.sched.idle == k.sched.idle && s in k'.sched.live
  {
    match op
    case Scheduled(o) => if !o.OpFork? && !o.OpExit? { SameNames(k.sched, o); }
    case CallFork => if Calls(k) { ForkKeepsTask(k, s, k'); }
    case CallExit => ForkFields(k.sched);
    case _ => MemoryCallIs(k, op);
  }

  /** However long a task waits, and whatever the others do, it finds its table and its data pages as it left them. */
  lemma {:induction false} WaitingTaskIsUntouched(k: Kernel, ops: seq<KernelOp>, k': Kernel, s: int)
    requires KernelInv(k) && GuardedReaches(k, ops, k') && s in k.sched.live && s != k.sched.idle
    requires NeverRuns(k, ops, s)
    ensures s in k.pcbOf && s in k'.pcbOf && k'.pcbOf[s] == k.pcbOf[s] && Untouched(k.mem, k'.mem, k.pcbOf[s])
    decreases |ops|
  {
    UserPcb(k, s);
    if ops != [] {
      var k1 := KernelStep(k, ops[0]);
      GuardedIsAllowed(k, ops[0]);
      KernelStepKeeps(k, ops[0]);
      StepSparesOthers(k, ops[0], s);
      StepKeepsTask(k, ops[0], s, k1);
      WaitingTaskIsUntouched(k1, ops[1..], k', s);
      UntouchedChains(k.mem, k1.mem, k'.mem, k.pcbOf[s]);
    }
  }

  // ---------- a task that exits ----------

  /** Everything the exiting task had to itself is free afterwards, and the task is nowhere. */
  lemma ExitFreesAll(k: Kernel, f: int, k': Kernel)
    requires KernelInv(k) && Calls(k) && Allowed(k, CallExit) && f in TaskFrameList(k.mem, k.pcbOf[k.sched.cur])
    requires k' == KernelStep(k, CallExit)
    ensures KernelInv(k') && f !in k'.mem.own && f in FreeFrames(k'.mem)
    ensures k.sched.cur !in k'.sched.live && !Present(k'.sched, k.sched.cur) && k'.sched.cur in k'.sched.live
  {
    KernelStepKeeps(k, CallExit);
    ExitIsGone(k, k');
    ExitFreesFrame(k, f, k');
  }

  lemma ExitIsGone(k: Kernel, k': Kernel)
    requires Sized(k.mem) && Calls(k) && k' == KernelStep(k, CallExit) && S.SInv(k'.sched)
    ensures k.sched.cur !in k'.sched.live && !Present(k'.sched, k.sched.cur) && k'.sched.cur in k'.sched.live
  {
    ForkFields(k.sched);
    ST.IdleAndDead(k'.sched, k.sched.cur);
    ST.IdleAndDead(k'.sched, k'.sched.cur);
  }

  lemma ExitFreesFrame(k: Kernel, f: int, k': Kernel)
    requires KernelInv(k) && Calls(k) && Allowed(k, CallExit) && f in TaskFrameList(k.mem, k.pcbOf[k.sched.cur])
    requires k'.mem == LinkedExit(k.mem, k.pcbOf[k.sched.cur])
    ensures Inv(k'.mem) && f !in k'.mem.own && f in FreeFrames(k'.mem)
  {
    ExitKeepsTables(k);
    FreedByExit(k.mem, k.pcbOf[k.sched.cur], f);
  }

  lemma ExitKeepsTables(k: Kernel)
    requires Sized(k.mem) && Calls(k) && Allowed(k, CallExit)
    ensures ExitTableGuard(k.mem, k.pcbOf[k.sched.cur])
  {
    ExitStepIs(k, k.pcbOf[k.sched.cur], KernelStep(k, CallExit));
  }

  lemma FreedByExit(m: Mem, t: int, f: int)
    requires Inv(m) && t in m.dir && ExitTableGuard(m, t) && f in TaskFrameList(m, t)
    ensures var m' := LinkedExit(m, t); Inv(m') && f !in m'.own && f in FreeFrames(m')
  {
    ExitTableGuardIsExact(m, t);
    ExitTasks(m, t);
    ExitOwner(m, t, f);
    FreedIsFree(m, LinkedExit(m, t), t, f);
  }

  lemma FreedIsFree(m: Mem, m': Mem, t: int, f: int)
    requires Inv(m) && Inv(m') && t in m.dir && f in TaskFrameList(m, t) && f !in m'.own && m'.boot == m.boot
    ensures f in FreeFrames(m')
  {
    InTaskFrames(m, t, f);
    UsedIsAboveKernel(m, f);
  }

  /** A child outlives its parent with a parent pointer to a frame that the allocator may hand out. */
  lemma OrphanPointsToFreeFrame(k: Kernel, c: int, k': Kernel)
    requires KernelInv(k) && Calls(k) && Allowed(k, CallExit) && c in k.sched.parent && k.sched.parent[c] == k.sched.cur
    requires k' == KernelStep(k, CallExit)
    ensures c in k'.sched.parent && k'.sched.parent[c] == k.sched.cur && k.sched.cur !in k'.sched.live
    ensures Sized(k'.mem) && k.pcbOf[k.sched.cur] in FreeFrames(k'.mem)
  {
    ForkFields(k.sched);
    assert TaskFrameList(k.mem, k.pcbOf[k.sched.cur])[0] == k.pcbOf[k.sched.cur];
    ExitFreesFrame(k, k.pcbOf[k.sched.cur], k');
  }

  // ---------- families ----------

  /** A walk over a list that holds meets exactly the children, in order, and comes back to the head. */
  lemma ListWalk(k: Kernel, h: Node, i: nat)
    requires ListHolds(k.mem.ram, k.pcbOf, k.sched, h) && i <= |KidsOf(k.sched, h)| + 1
    ensures 1 <= i <= |KidsOf(k.sched, h)| ==>
      && KidsOf(k.sched, h)[i - 1] in k.pcbOf
      && Walk(k.mem.ram, WordsOf(k.pcbOf, h), i) == Member(k.pcbOf[KidsOf(k.sched, h)[i - 1]], SIBILING)
    ensures i == |KidsOf(k.sched, h)| + 1 ==> Walk(k.mem.ram, WordsOf(k.pcbOf, h), i) == WordsOf(k.pcbOf, h)
  {
    RingWalk(k.mem.ram, WordsOf(k.pcbOf, h), Sibs(FramesOf(k.pcbOf, KidsOf(k.sched, h))), 0, i);
  }

  /** While no frame of a task that has exited is allocated, that holds of every list of children. */
  lemma ChildrenAreInMemory(k: Kernel, h: Node, i: nat)
    requires FamilyInv(k) && IsKids(h) && h.pid in k.pcbOf && i <= |KidsOf(k.sched, h)| + 1
    ensures 1 <= i <= |KidsOf(k.sched, h)| ==>
      && KidsOf(k.sched, h)[i - 1] in k.pcbOf
      && Walk(k.mem.ram, WordsOf(k.pcbOf, h), i) == Member(k.pcbOf[KidsOf(k.sched, h)[i - 1]], SIBILING)
    ensures i == |KidsOf(k.sched, h)| + 1 ==> Walk(k.mem.ram, WordsOf(k.pcbOf, h), i) == WordsOf(k.pcbOf, h)
  {
    ListInMemory(k.mem.ram, k.pcbOf, k.sched, h);
    ListWalk(k, h, i);
  }

  /** Where a child is on its parent's lists in memory. */
  ghost predicate IsOnList(k: Kernel, h: Node, c: int) {
    && IsKids(h) && h.pid in k.pcbOf && c in k.pcbOf
    && exists i: nat ::
      1 <= i <= |KidsOf(k.sched, h)| && Walk(k.mem.ram, WordsOf(k.pcbOf, h), i) == Member(k.pcbOf[c], SIBILING)
  }

  lemma ListedIsOnList(k: Kernel, h: Node, c: int)
    requires ListHolds(k.mem.ram, k.pcbOf, k.sched, h) && c in KidsOf(k.sched, h)
    ensures IsOnList(k, h, c)
  {
    var j :| 0 <= j < |KidsOf(k.sched, h)| && KidsOf(k.sched, h)[j] == c;
    ListWalk(k, h, j + 1);
  }

  /**
   * When the caller's lists hold, unblock succeeds exactly for its children, and each is in memory on the list that
   * says whether it sleeps in block.
   */
  lemma UnblockFindsChildren(k: Kernel, pid: int)
    requires KernelInv(k) && Calls(k) && ListsHold(k, k.sched.cur)
    ensures S.Unblock(k.sched, pid).1 == 0 <==> pid in k.sched.parent && k.sched.parent[pid] == k.sched.cur
    ensures pid in k.sched.parent && k.sched.parent[pid] == k.sched.cur ==>
      IsOnList(k, if pid in k.sched.blocked then KidsBlocked(k.sched.cur) else KidsUnblocked(k.sched.cur), pid)
  {
    ST.UnblockFinds(k.sched, pid);
    if pid in k.sched.parent && k.sched.parent[pid] == k.sched.cur { ChildIsOnList(k, pid); }
  }

  lemma ChildIsOnList(k: Kernel, pid: int)
    requires S.SInv(k.sched) && pid in k.sched.parent && k.sched.parent[pid] == k.sched.cur && ListsHold(k, k.sched.cur)
    ensures IsOnList(k, if pid in k.sched.blocked then KidsBlocked(k.sched.cur) else KidsUnblocked(k.sched.cur), pid)
  {
    var h := if pid in k.sched.blocked then KidsBlocked(k.sched.cur) else KidsUnblocked(k.sched.cur);
    ST.ChildLists(k.sched, pid);
    ListedIsOnList(k, h, pid);
  }

  /**
   * Every run from booting without exit has the families in memory, and so has one that takes no frame of a dead task.
   */
  lemma FamiliesAfterBoot(lastKernel: nat, ram: seq<Page>, v: Vars, ops: seq<KernelOp>, k: Kernel)
    requires 0x10 < lastKernel <= TOTAL_PAGES - MR.BOOT_FRAMES && |ram| == TOTAL_PAGES && BootVars(lastKernel, v)
    requires var k0 := BootKernel(lastKernel, ram, v);
      FamilyReaches(k0, ops, k) || (KernelReaches(k0, ops, k) && CallExit !in ops)
    ensures FamilyInv(k)
  {
    var k0 := BootKernel(lastKernel, ram, v);
    BootKernelInv(lastKernel, ram, v, k0);
    if FamilyReaches(k0, ops, k) { FamilyRunKeeps(k0, ops, k); } else { ExitFreeRun(k0, ops, k); }
  }

  /**
   * Block and unblock are a counting semaphore over every such run: what the scheduler's books say holds of the whole
   * kernel.
   */
  lemma KernelSemaphore(k: Kernel, ops: seq<KernelOp>, k': Kernel, c: int)
    requires KernelInv(k) && KernelReaches(k, ops, k') && c in k.sched.parent
    ensures var so := SchedParts(k, ops);
      ST.Booked(k.sched, k'.sched, c, ST.Unblocks(k.sched, so, c), ST.BlockCalls(k.sched, so, c),
        ST.Completions(k.sched, so, c))
  {
    RunProjects(k, ops, k');
    ST.Semaphore(k.sched, SchedParts(k, ops), c);
  }
}
