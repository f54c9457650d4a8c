/**
 * The kernel's steps, on memory with its list words and on the scheduler's state together. A list operation may change
 * no user table, and the lists that block and unblock work on must be those that the scheduler means.
 */
module KernelSteps {
  import opened Machine
  import opened Memory
  import opened PcbLists
  import opened LinkedMemory
  import opened LinkedRuns
  import opened TableRuns
  import opened FamilyWords
  import opened MemoryRings
  import opened KernelState
  import opened Scheduler
  import MR = MemoryRuns
  import S = Scheduling

  /**
   * What happens next. All but the last kind is done by the running task; CopyOut is a word that read copies to its
   * caller.
   */
  datatype KernelOp =
    | CallFork
    | CallExit
    | CallShmat(id: int, addr: Uint32)
    | CallShmdt(addr: Uint32)
    | CallShmrm(id: int)
    | UserStore(page: int, offset: int, word: Word)
    | CopyOut(page: int, offset: int, word: Word)
    | Scheduled(op: S.Op)

  /** The running task is one that can make calls. */
  predicate Calls(k: Kernel) {
    S.Enabled(k.sched, S.OpExit) && k.sched.cur in k.pcbOf && k.pcbOf[k.sched.cur] in k.mem.dir
  }

  /** The lists that block changes: the caller goes to the end of its parent's blocked children. */
  function BlockPart(k: Kernel): seq<LinkedOp> {
    if !Calls(k) || S.Get(k.sched.pending, k.sched.cur, 0) > 0 then []
    else
      var t := k.pcbOf[k.sched.cur];
      if WordAt(k.mem.ram, Member(t, PARENT)) == ZERO_WORD then []
      else [MoveStep(Member(t, SIBILING), BlockHead(k.mem.ram, t))]
  }

  /** The lists that unblock changes: a blocked child goes to the end of the unblocked ones. */
  function UnblockPart(k: Kernel, pid: int): seq<LinkedOp> {
    if Calls(k) && pid in k.pcbOf && pid in S.Kids(k.sched.kidsB, k.sched.cur) then
      [MoveStep(Member(k.pcbOf[pid], SIBILING), Member(k.pcbOf[k.sched.cur], CHILDREN_UNBLOCKED))]
    else []
  }

  /** What a step does to memory, if anything. */
  function MemPart(k: Kernel, op: KernelOp): seq<LinkedOp> {
    match op
    case Scheduled(o) => if o.OpBlock? then BlockPart(k) else if o.OpUnblock? then UnblockPart(k, o.pid) else []
    case _ =>
      if !Calls(k) then []
      else
        var t := k.pcbOf[k.sched.cur];
        match op
        case CallFork => [ForkStep(t)]
        case CallExit => [ExitStep(t)]
        case CallShmat(id, addr) => [MemoryStep(MR.OpShmat(t, id, addr))]
        case CallShmdt(addr) => [MemoryStep(MR.OpShmdt(t, addr))]
        case CallShmrm(id) => [MemoryStep(MR.OpShmrm(t, id))]
        case UserStore(page, offset, word) => [MemoryStep(MR.OpStore(t, page, offset, word))]
        case CopyOut(page, offset, word) => [MemoryStep(MR.OpCopyOut(t, page, offset, word))]
        case Scheduled(_) => []
  }

  function NextMem(k: Kernel, op: KernelOp): Mem
    requires Sized(k.mem)
  {
    if MemPart(k, op) == [] then k.mem else LinkedStep(k.mem, k.vars, MemPart(k, op)[0])
  }

  /** fork: only when memory has a child does the scheduler get one. */
  function AfterFork(k: Kernel, m': Mem, r: Forked): Kernel {
    if r.Child? then k.(mem := m', sched := S.Fork(k.sched), pcbOf := k.pcbOf[k.sched.lastPid + 1 := r.pcb])
    else k.(mem := m')
  }

  function KernelStep(k: Kernel, op: KernelOp): Kernel
    requires Sized(k.mem)
  {
    var m' := NextMem(k, op);
    match op
    case Scheduled(o) => if o.OpFork? || o.OpExit? then k else k.(mem := m', sched := S.Step(k.sched, o))
    case CallFork => if Calls(k) then AfterFork(k, m', LinkedFork(k.mem, k.vars, k.pcbOf[k.sched.cur]).1) else k
    case CallExit => if Calls(k) then k.(mem := m', sched := S.Exit(k.sched)) else k
    case _ => k.(mem := m')
  }

  // ---------- the lists that block and unblock work on ----------

  /** The frame of p is that of a live task, or of nobody since p's exit. */
  ghost predicate NotTaken(k: Kernel, p: int) {
    p in k.pcbOf && (p in k.sched.live || k.pcbOf[p] !in k.mem.own)
  }

  /** Both lists of children of p are in memory what the scheduler has, and no PCB on them has become anything else. */
  ghost predicate ListsHold(k: Kernel, p: int) {
    && NotTaken(k, p) && p != k.sched.idle
    && ListHolds(k.mem.ram, k.pcbOf, k.sched, KidsBlocked(p))
    && ListHolds(k.mem.ram, k.pcbOf, k.sched, KidsUnblocked(p))
    && forall d :: d in S.Kids(k.sched.kidsB, p) + S.Kids(k.sched.kidsU, p) ==> NotTaken(k, d)
  }

  /** The caller's pointer to its parent is what it should be. */
  ghost predicate PointsToParent(k: Kernel) {
    k.sched.cur in k.pcbOf &&
    var t, s := k.pcbOf[k.sched.cur], k.sched;
    && (s.cur in s.parent <==> WordAt(k.mem.ram, Member(t, PARENT)) != ZERO_WORD)
    && (s.cur in s.parent ==>
          s.parent[s.cur] in k.pcbOf && BlockHead(k.mem.ram, t) == WordsOf(k.pcbOf, KidsBlocked(s.parent[s.cur])))
  }

  /** Before block and unblock: the lists that they work on. */
  ghost predicate WalksOk(k: Kernel, o: S.Op) {
    && (o.OpBlock? && Calls(k) && S.Get(k.sched.pending, k.sched.cur, 0) <= 0 ==>
          PointsToParent(k) && (k.sched.cur in k.sched.parent ==> ListsHold(k, k.sched.parent[k.sched.cur])))
    && (o.OpUnblock? && Calls(k) ==> ListsHold(k, k.sched.cur))
  }

  /** The condition on a step, on the state before it. */
  ghost predicate Allowed(k: Kernel, op: KernelOp)
    requires Sized(k.mem)
  {
    && (MemPart(k, op) != [] ==> TableGuard(k.mem, k.vars, MemPart(k, op)[0]))
    && (op.Scheduled? ==> WalksOk(k, op.op))
  }

  /** k' is reached from k by such steps. */
  ghost predicate KernelReaches(k: Kernel, ops: seq<KernelOp>, k': Kernel)
    decreases |ops|
  {
    if ops == [] then k' == k
    else Sized(k.mem) && Allowed(k, ops[0]) && KernelReaches(KernelStep(k, ops[0]), ops[1..], k')
  }

  lemma {:induction false} ReachesMore(k: Kernel, a: seq<KernelOp>, k1: Kernel, b: seq<KernelOp>, k2: Kernel)
    requires KernelReaches(k, a, k1) && KernelReaches(k1, b, k2)
    ensures KernelReaches(k, a + b, k2)
    decreases |a|
  {
    if a == [] {
      assert a + b == b;
    } else {
      assert (a + b)[1..] == a[1..] + b;
      ReachesMore(KernelStep(k, a[0]), a[1..], k1, b, k2);
    }
  }

  // ---------- what a step is ----------

  predicate IsMemoryCall(op: KernelOp) {
    !op.CallFork? && !op.CallExit? && !op.Scheduled?
  }

  lemma MemoryCallIs(k: Kernel, op: KernelOp)
    requires Sized(k.mem) && IsMemoryCall(op)
    ensures !Calls(k) ==> MemPart(k, op) == [] && KernelStep(k, op) == k
    ensures Calls(k) ==>
      && |MemPart(k, op)| == 1 && MemPart(k, op)[0].MemoryStep?
      && var o := MemPart(k, op)[0].op;
        && !o.OpFork? && !o.OpExit? && o.task == k.pcbOf[k.sched.cur] && (o.OpShmat? ==> op == CallShmat(o.id, o.addr))
        && KernelStep(k, op) == k.(mem := MR.Step(k.mem, o))
  {
  }

  lemma ScheduledIs(k: Kernel, o: S.Op)
    requires Sized(k.mem) && !o.OpFork? && !o.OpExit?
    ensures MemPart(k, Scheduled(o)) == [] ==> KernelStep(k, Scheduled(o)) == k.(sched := S.Step(k.sched, o))
    ensures MemPart(k, Scheduled(o)) != [] ==>
      && |MemPart(k, Scheduled(o))| == 1 && MemPart(k, Scheduled(o))[0].MoveStep?
      && KernelStep(k, Scheduled(o)) ==
        k.(mem := LinkedStep(k.mem, k.vars, MemPart(k, Scheduled(o))[0]), sched := S.Step(k.sched, o))
  {
  }

  lemma ForkStepIs(k: Kernel, t: int, k': Kernel)
    requires Sized(k.mem) && Calls(k) && t == k.pcbOf[k.sched.cur] && k' == KernelStep(k, CallFork)
    ensures MemPart(k, CallFork) == [ForkStep(t)]
    ensures k' == AfterFork(k, LinkedFork(k.mem, k.vars, t).0, LinkedFork(k.mem, k.vars, t).1)
  {
  }

  lemma ExitStepIs(k: Kernel, t: int, k': Kernel)
    requires Sized(k.mem) && Calls(k) && t == k.pcbOf[k.sched.cur] && k' == KernelStep(k, CallExit)
    ensures MemPart(k, CallExit) == [ExitStep(t)]
    ensures k' == k.(mem := LinkedExit(k.mem, t), sched := S.Exit(k.sched))
  {
  }

}
