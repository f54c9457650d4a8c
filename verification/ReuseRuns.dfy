/**
 * The same for states of the whole kernel, also after frames of former PCBs have been used again; and a run from
 * booting.
 */
module ReuseRuns {
  import opened Machine
  import opened Memory
  import opened MemoryInvariant
  import opened PcbLists
  import opened LinkedMemory
  import opened LinkedRuns
  import opened LinkedBoot
  import opened LinkKinds
  import opened TableSafety
  import opened TableRuns
  import opened StaleLinks
  import opened FamilyWords
  import opened MemoryRings
  import opened KernelState
  import opened KernelSteps
  import opened KernelSafety
  import opened ForkSafety
  import opened KernelRuns
  import opened KernelFamilies
  import opened FamilyRuns
  import opened ReusedPcb
  import opened Scheduler
  import S = Scheduling

  /** The PCB frames of the caller's unblocked children, oldest first. */
  ghost function CallersFrames(k: Kernel): seq<int>
    requires ListHolds(k.mem.ram, k.pcbOf, k.sched, KidsUnblocked(k.sched.cur))
  {
    FramesOf(k.pcbOf, S.Kids(k.sched.kidsU, k.sched.cur))
  }

  /** The caller's fork may happen and will succeed, and its list of unblocked children holds. */
  ghost predicate ForksOn(k: Kernel) {
    && KernelInv(k) && Calls(k) && Allowed(k, CallFork) && FRAMES_PER_TASK <= |FreeFrames(k.mem)|
    && ListHolds(k.mem.ram, k.pcbOf, k.sched, KidsUnblocked(k.sched.cur))
  }

  lemma ForkIsAllowed(k: Kernel)
    requires Sized(k.mem) && Calls(k) && Allowed(k, CallFork)
    ensures ForkTableGuard(k.mem, k.vars, k.pcbOf[k.sched.cur])
  {
    ForkStepIs(k, k.pcbOf[k.sched.cur], KernelStep(k, CallFork));
  }

  lemma CallerCanJoin(k: Kernel)
    requires ForksOn(k)
    ensures CanJoin(k.mem, k.vars, k.pcbOf[k.sched.cur], CallersFrames(k))
  {
    ForkIsAllowed(k);
    TableForkKeeps(k.mem, k.vars, k.pcbOf[k.sched.cur]);
    EnlistedLinks(k, Enlisted(k.mem, k.vars));
    ListFrames(k, S.Kids(k.sched.kidsU, k.sched.cur));
    CallersRing(k.mem.ram, k.pcbOf, k.sched);
  }

  lemma CallersRing(ram: seq<Page>, F: PcbFrames, s: S.Sched)
    requires ListHolds(ram, F, s, KidsUnblocked(s.cur))
    ensures RingAt(ram, Member(F[s.cur], CHILDREN_UNBLOCKED), Sibs(FramesOf(F, S.Kids(s.kidsU, s.cur))))
  {
    assert KidsOf(s, KidsUnblocked(s.cur)) == S.Kids(s.kidsU, s.cur);
  }

  lemma ListFrames(k: Kernel, q: seq<int>)
    requires Inv(k.mem) && VarsOk(k.mem, k.vars) && Tied(k) && forall i :: 0 <= i < |q| ==> q[i] in k.pcbOf
    ensures forall i :: 0 <= i < |q| ==>
      0 <= FramesOf(k.pcbOf, q)[i] < TOTAL_PAGES && !HeadFrame(k.vars, FramesOf(k.pcbOf, q)[i])
  {
    forall i | 0 <= i < |q|
      ensures 0 <= FramesOf(k.pcbOf, q)[i] < TOTAL_PAGES && !HeadFrame(k.vars, FramesOf(k.pcbOf, q)[i])
    {
      PcbIsNoHead(k, q[i]);
    }
  }

  /** The list of the scheduler after the fork, in frames. */
  lemma GrownList(F: PcbFrames, s: S.Sched, c: int)
    requires s.lastPid + 1 !in F && s.cur in F && forall i :: 0 <= i < |S.Kids(s.kidsU, s.cur)| ==>
      S.Kids(s.kidsU, s.cur)[i] in F
    ensures var F', s', q := F[s.lastPid + 1 := c], S.Fork(s), S.Kids(s.kidsU, s.cur);
      && S.Kids(s'.kidsU, s.cur) == q + [s.lastPid + 1]
      && (forall i :: 0 <= i < |S.Kids(s'.kidsU, s.cur)| ==> S.Kids(s'.kidsU, s.cur)[i] in F')
      && FramesOf(F', S.Kids(s'.kidsU, s.cur)) == FramesOf(F, q) + [c]
      && WordsOf(F', KidsUnblocked(s.cur)) == Member(F[s.cur], CHILDREN_UNBLOCKED)
  {
  }

  lemma GrownHolds(ram: seq<Page>, F: PcbFrames, s: S.Sched, c: int)
    requires s.lastPid + 1 !in F && s.cur in F && forall i :: 0 <= i < |S.Kids(s.kidsU, s.cur)| ==>
      S.Kids(s.kidsU, s.cur)[i] in F
    ensures ListHolds(ram, F[s.lastPid + 1 := c], S.Fork(s), KidsUnblocked(s.cur)) <==>
      RingAt(ram, Member(F[s.cur], CHILDREN_UNBLOCKED), Sibs(FramesOf(F, S.Kids(s.kidsU, s.cur)) + [c]))
  {
    GrownList(F, s, c);
  }

  /** Whether the caller's list still holds after its fork: exactly when the links of all children on it survive. */
  lemma CallersListExactly(k: Kernel, k': Kernel)
    requires ForksOn(k) && k' == KernelStep(k, CallFork)
    ensures ListHolds(k'.mem.ram, k'.pcbOf, k'.sched, KidsUnblocked(k.sched.cur)) <==>
      forall i :: 0 <= i < |CallersFrames(k)| ==> Survives(k.mem, k.pcbOf[k.sched.cur], CallersFrames(k), i)
  {
    CallerCanJoin(k);
    ForkedKernel(k, k');
    NewcomerPid(k);
    JoinedListExactly(k.mem, k.vars, k.pcbOf, k.sched, k'.mem);
  }

  lemma JoinedListExactly(m: Mem, v: Vars, F: PcbFrames, s: S.Sched, m': Mem)
    requires ListHolds(m.ram, F, s, KidsUnblocked(s.cur)) && s.lastPid + 1 !in F
    requires CanJoin(m, v, F[s.cur], FramesOf(F, S.Kids(s.kidsU, s.cur))) && m' == LinkedFork(m, v, F[s.cur]).0
    ensures var frames := FramesOf(F, S.Kids(s.kidsU, s.cur));
      ListHolds(m'.ram, F[s.lastPid + 1 := FreeFrames(m)[0]], S.Fork(s), KidsUnblocked(s.cur)) <==>
      forall i :: 0 <= i < |frames| ==> Survives(m, F[s.cur], frames, i)
  {
    ForkKeepsListExactly(m, v, F[s.cur], FramesOf(F, S.Kids(s.kidsU, s.cur)), m');
    GrownHolds(m'.ram, F, s, FreeFrames(m)[0]);
  }

  lemma ForkedKernel(k: Kernel, k': Kernel)
    requires Sized(k.mem) && Calls(k) && FRAMES_PER_TASK <= |FreeFrames(k.mem)| && k' == KernelStep(k, CallFork)
    ensures k'.mem == LinkedFork(k.mem, k.vars, k.pcbOf[k.sched.cur]).0 && k'.sched == S.Fork(k.sched)
    ensures k'.pcbOf == k.pcbOf[k.sched.lastPid + 1 := FreeFrames(k.mem)[0]] && k'.vars == k.vars
  {
    var t := k.pcbOf[k.sched.cur];
    var m', r := LinkedFork(k.mem, k.vars, t).0, LinkedFork(k.mem, k.vars, t).1;
    assert FreeFrames(Enlisted(k.mem, k.vars)) == FreeFrames(k.mem);
    LinkedForkCases(k.mem, k.vars, t, Enlisted(k.mem, k.vars));
    ForkStepIs(k, t, k');
    AfterForkIs(k, m', r);
  }

  /** After a fork that puts the new PCB where the caller's last listed child was, the caller's walk never ends. */
  lemma CallersWalkNeverEnds(k: Kernel, k': Kernel, n: nat)
    requires ForksOn(k) && k' == KernelStep(k, CallFork) && n > 0
    requires LastIsNext(k.mem, k.pcbOf[k.sched.cur], CallersFrames(k))
    ensures var h, frames := Member(k.pcbOf[k.sched.cur], CHILDREN_UNBLOCKED), CallersFrames(k);
      && Walk(k'.mem.ram, h, n) == Member(if n <= |frames| then frames[n - 1] else FreeFrames(k.mem)[0], SIBILING)
      && Walk(k'.mem.ram, h, n) != h
  {
    CallerCanJoin(k);
    ForkedKernel(k, k');
    WalkNeverEnds(k.mem, k.vars, k.pcbOf[k.sched.cur], CallersFrames(k), k'.mem, n);
  }

  // ---------- such a run right after booting ----------

  const FIRST_CHILD: int := S.FIRST_PID + 1

  /** The caller's only child has exited, its frame is the next to be given out, and the caller may fork. */
  ghost predicate AboutToReuse(k: Kernel, c: int) {
    && ForksOn(k) && FamilyInv(k) && c == FreeFrames(k.mem)[0] && CallersFrames(k) == [c]
    && S.Kids(k.sched.kidsU, k.sched.cur) == [FIRST_CHILD] && FIRST_CHILD !in k.sched.live && FIRST_CHILD in k.pcbOf
  }

  lemma BootCalls(lastKernel: nat, ram: seq<Page>, v: Vars, k: Kernel)
    requires 0x10 < lastKernel <= TOTAL_PAGES - 60 && |ram| == TOTAL_PAGES && BootVars(lastKernel, v)
    requires k == BootKernel(lastKernel, ram, v)
    ensures FamilyInv(k) && Calls(k) && k.pcbOf[S.INIT_PID] == InitFrame(lastKernel) && AllAlive(k) && k.vars == v
    ensures FreshSystem(k.mem, v, InitFrame(lastKernel)) && k.sched == S.BOOT_SCHED
  {
    BootKernelInv(lastKernel, ram, v, k);
    BootIsFresh(lastKernel, ram, v, k.mem, InitFrame(lastKernel));
  }

  /** The scheduler over the three steps. */
  lemma ThreeSchedSteps(s1: S.Sched, s2: S.Sched, s3: S.Sched)
    requires s1 == S.Fork(S.BOOT_SCHED) && s2 == S.Step(s1, S.OpTick) && s3 == S.Exit(s2)
    ensures s1.cur == S.INIT_PID && s1.woken == {} && s2.cur == FIRST_CHILD && s2.idle == S.IDLE_PID && s2.woken == {}
    ensures s3.cur == S.INIT_PID && s3.idle == S.IDLE_PID && s3.woken == {} && S.Kids(s3.kidsU, s3.cur) == [FIRST_CHILD]
    ensures FIRST_CHILD !in s3.live
  {
  }

  lemma FirstForkFacts(m: Mem, v: Vars, t: int, c: int)
    requires FreshSystem(m, v, t) && c == FreeFrames(m)[0]
    ensures LinkedFork(m, v, t).1 == Child(c) && Inv(LinkedFork(m, v, t).0)
    ensures c in LinkedFork(m, v, t).0.dir && t in LinkedFork(m, v, t).0.dir
    ensures TableGuard(m, v, ForkStep(t))
  {
    FirstFork(m, v, t);
    FirstForkGuard(m, v, t);
    GuardIsEnough(m, v, ForkStep(t));
    LinkedForkAccounting(m, v, t);
  }

  lemma ChildExitFacts(m: Mem, v: Vars, t: int, c: int, m1: Mem)
    requires FreshSystem(m, v, t) && c == FreeFrames(m)[0] && m1 == LinkedFork(m, v, t).0 && Inv(m1) && c in m1.dir
    ensures VarsOk(m1, v) && TableGuard(m1, v, ExitStep(c)) && StaleAndFree(LinkedExit(m1, c), v, t, c)
  {
    FirstFork(m, v, t);
    AfterExit(m, v, t, c, m1, LinkedExit(m1, c));
    GuardIsEnough(m1, v, ExitStep(c));
  }

  /** The second fork takes the child's old frame; even the stronger condition on it holds. */
  lemma SecondForkGuard(m: Mem, v: Vars, t: int, c: int)
    requires StaleAndFree(m, v, t, c)
    ensures FRAMES_PER_TASK <= |FreeFrames(m)| && c == FreeFrames(m)[0] && Guard(m, v, ForkStep(t))
    ensures TableGuard(m, v, ForkStep(t))
  {
    var fs := FreeFrames(m);
    OutsideKernel(m, v, t);
    KernelWords(m, v);
    NextFreeIsFree(m);
    EnlistWords(m.ram, c, v.tasks, Plus(Member(t, CHILDREN_UNBLOCKED), 1));
    GuardIsEnough(m, v, ForkStep(t));
  }

  lemma CallPart(k: Kernel, op: KernelOp, t: int)
    requires Sized(k.mem) && Calls(k) && t == k.pcbOf[k.sched.cur] && (op.CallFork? || op.CallExit?)
    requires TableGuard(k.mem, k.vars, if op.CallFork? then ForkStep(t) else ExitStep(t))
    ensures Allowed(k, op) && (NoReuse(k, op) ==> FamilyStep(k, op))
  {
  }

  /** The first step: the first task forks. */
  lemma FirstCall(k: Kernel, t: int, c: int, k1: Kernel)
    requires FamilyInv(k) && AllAlive(k) && Calls(k) && FreshSystem(k.mem, k.vars, t) && t == k.pcbOf[k.sched.cur]
    requires k.sched == S.BOOT_SCHED && c == FreeFrames(k.mem)[0] && k1 == KernelStep(k, CallFork)
    ensures FamilyStep(k, CallFork) && FamilyInv(k1)
    ensures k1.mem == LinkedFork(k.mem, k.vars, t).0 && k1.sched == S.Fork(S.BOOT_SCHED) && k1.vars == k.vars
    ensures k1.pcbOf == k.pcbOf[FIRST_CHILD := c] && c in k1.mem.dir && Inv(k1.mem)
  {
    FirstForkFacts(k.mem, k.vars, t, c);
    CallPart(k, CallFork, t);
    ForkedKernel(k, k1);
    FamilyStepKeeps(k, CallFork);
  }

  lemma TickIs(k: Kernel, k': Kernel)
    requires Sized(k.mem) && k' == KernelStep(k, Scheduled(S.OpTick))
    ensures FamilyStep(k, Scheduled(S.OpTick)) && k' == k.(sched := S.Step(k.sched, S.OpTick))
  {
    ScheduledIs(k, S.OpTick);
  }

  /** The second: a tick gives the child the processor. */
  lemma SecondCall(k: Kernel, k2: Kernel)
    requires FamilyInv(k) && k2 == KernelStep(k, Scheduled(S.OpTick))
    ensures FamilyStep(k, Scheduled(S.OpTick)) && FamilyInv(k2) && k2 == k.(sched := S.Step(k.sched, S.OpTick))
  {
    TickIs(k, k2);
    FamilyStepKeeps(k, Scheduled(S.OpTick));
  }

  /** The third: it exits. */
  lemma ThirdCall(k: Kernel, c: int, k3: Kernel)
    requires FamilyInv(k) && k.sched.cur != k.sched.idle && k.sched.cur !in k.sched.woken
    requires k.sched.cur in k.pcbOf && c == k.pcbOf[k.sched.cur] && TableGuard(k.mem, k.vars, ExitStep(c))
    requires k3 == KernelStep(k, CallExit)
    ensures FamilyStep(k, CallExit) && FamilyInv(k3)
    ensures c in k.mem.dir && k3 == k.(mem := LinkedExit(k.mem, c), sched := S.Exit(k.sched))
  {
    CallerIs(k);
    CallPart(k, CallExit, c);
    ExitStepIs(k, c, k3);
    FamilyStepKeeps(k, CallExit);
  }

  /** The child's frame is the next one, and its parent may fork. */
  lemma BeforeReuse(k: Kernel, t: int, c: int)
    requires FamilyInv(k) && StaleAndFree(k.mem, k.vars, t, c) && k.sched.cur in k.pcbOf && t == k.pcbOf[k.sched.cur]
    requires k.sched.cur != k.sched.idle && k.sched.cur !in k.sched.woken && FIRST_CHILD !in k.sched.live
    requires S.Kids(k.sched.kidsU, k.sched.cur) == [FIRST_CHILD] && FIRST_CHILD in k.pcbOf && k.pcbOf[FIRST_CHILD] == c
    ensures AboutToReuse(k, c)
  {
    CallerIs(k);
    MayFork(k, t, c);
    ListInMemory(k.mem.ram, k.pcbOf, k.sched, KidsUnblocked(k.sched.cur));
    OneFrame(k.pcbOf, FIRST_CHILD, c);
  }

  lemma MayFork(k: Kernel, t: int, c: int)
    requires Calls(k) && StaleAndFree(k.mem, k.vars, t, c) && t == k.pcbOf[k.sched.cur]
    ensures Allowed(k, CallFork) && FRAMES_PER_TASK <= |FreeFrames(k.mem)| && c == FreeFrames(k.mem)[0]
  {
    SecondForkGuard(k.mem, k.vars, t, c);
    CallPart(k, CallFork, t);
  }

  lemma OneFrame(F: PcbFrames, p: int, c: int)
    requires p in F && F[p] == c
    ensures FramesOf(F, [p]) == [c]
  {
  }

  lemma ThreeFamilySteps(k: Kernel, a: KernelOp, k1: Kernel, b: KernelOp, k2: Kernel, c: KernelOp, k3: Kernel)
    requires Sized(k.mem) && FamilyStep(k, a) && k1 == KernelStep(k, a) && Sized(k1.mem) && FamilyStep(k1, b)
    requires k2 == KernelStep(k1, b) && Sized(k2.mem) && FamilyStep(k2, c) && k3 == KernelStep(k2, c)
    ensures FamilyReaches(k, [a, b, c], k3)
  {
    assert [a, b, c][1..] == [b, c] && [b, c][1..] == [c] && [c][1..] == [];
    assert FamilyReaches(k3, [], k3);
    assert FamilyReaches(k2, [c], k3);
    assert FamilyReaches(k1, [b, c], k3);
  }

  /** Right after booting, three steps lead there. */
  lemma ReuseAfterBoot(lastKernel: nat, ram: seq<Page>, v: Vars, k: Kernel) returns (k3: Kernel, c: int)
    requires 0x10 < lastKernel <= TOTAL_PAGES - 60 && |ram| == TOTAL_PAGES && BootVars(lastKernel, v)
    requires k == BootKernel(lastKernel, ram, v)
    ensures FamilyReaches(k, [CallFork, Scheduled(S.OpTick), CallExit], k3) && AboutToReuse(k3, c)
  {
    BootCalls(lastKernel, ram, v, k);
    c := FreeFrames(k.mem)[0];
    k3 := ThreeCalls(k, InitFrame(lastKernel), c);
  }

  lemma ThreeCalls(k: Kernel, t: int, c: int) returns (k3: Kernel)
    requires FamilyInv(k) && AllAlive(k) && Calls(k) && FreshSystem(k.mem, k.vars, t) && t == k.pcbOf[k.sched.cur]
    requires k.sched == S.BOOT_SCHED && c == FreeFrames(k.mem)[0]
    ensures FamilyReaches(k, [CallFork, Scheduled(S.OpTick), CallExit], k3) && AboutToReuse(k3, c)
  {
    var k1 := KernelStep(k, CallFork);
    FirstCall(k, t, c, k1);
    var k2 := KernelStep(k1, Scheduled(S.OpTick));
    SecondCall(k1, k2);
    k3 := KernelStep(k2, CallExit);
    ThreeSchedSteps(k1.sched, k2.sched, S.Exit(k2.sched));
    ChildExitFacts(k.mem, k.vars, t, c, k1.mem);
    ThirdCall(k2, c, k3);
    ThreeFamilySteps(k, CallFork, k1, Scheduled(S.OpTick), k2, CallExit, k3);
    BeforeReuse(k3, t, c);
  }

  lemma OneMoreStep(k: Kernel, ops: seq<KernelOp>, k1: Kernel, op: KernelOp, k2: Kernel)
    requires KernelReaches(k, ops, k1) && Sized(k1.mem) && Allowed(k1, op) && k2 == KernelStep(k1, op)
    ensures KernelReaches(k, ops + [op], k2)
  {
    assert KernelReaches(k2, [], k2) && [op][1..] == [];
    ReachesMore(k, ops, k1, [op], k2);
  }

  lemma OnlyChildIsNext(k: Kernel, c: int)
    requires AboutToReuse(k, c)
    ensures LastIsNext(k.mem, k.pcbOf[k.sched.cur], CallersFrames(k))
    ensures !Survives(k.mem, k.pcbOf[k.sched.cur], CallersFrames(k), 0)
  {
    assert FreeFrames(k.mem)[..3][0] == c;
  }

  /**
   * The fork after that is a step of the kernel, so all that holds of its runs goes on to hold; but it takes the frame
   * of the child that has exited, and the caller's list is no list any more.
   */
  lemma ForkExitFork(k: Kernel, ops: seq<KernelOp>, k3: Kernel, c: int, k4: Kernel)
    requires KernelReaches(k, ops, k3) && AboutToReuse(k3, c) && k4 == KernelStep(k3, CallFork)
    ensures KernelReaches(k, ops + [CallFork], k4) && KernelInv(k4) && !NoReuse(k3, CallFork)
    ensures !ListHolds(k4.mem.ram, k4.pcbOf, k4.sched, KidsUnblocked(k3.sched.cur))
  {
    OneMoreStep(k, ops, k3, CallFork, k4);
    KernelStepKeeps(k3, CallFork);
    ListIsBroken(k3, c, k4);
    TakesDeadPcb(k3, c);
  }

  lemma TakesDeadPcb(k: Kernel, c: int)
    requires AboutToReuse(k, c)
    ensures !NoReuse(k, CallFork)
  {
    assert CallersFrames(k)[0] == k.pcbOf[FIRST_CHILD];
    ReusesDeadPcb(k, c);
  }

  lemma ListIsBroken(k: Kernel, c: int, k': Kernel)
    requires AboutToReuse(k, c) && k' == KernelStep(k, CallFork)
    ensures !ListHolds(k'.mem.ram, k'.pcbOf, k'.sched, KidsUnblocked(k.sched.cur))
  {
    OnlyChildIsNext(k, c);
    CallersListExactly(k, k');
  }

  lemma ReusesDeadPcb(k: Kernel, c: int)
    requires Sized(k.mem) && Calls(k) && FRAMES_PER_TASK <= |FreeFrames(k.mem)| && c == FreeFrames(k.mem)[0]
    requires FIRST_CHILD in k.pcbOf && k.pcbOf[FIRST_CHILD] == c && FIRST_CHILD !in k.sched.live
    ensures !NoReuse(k, CallFork)
  {
    FirstIsTaken(FreeFrames(k.mem));
    assert c in Allocates(k, CallFork);
  }

  /** A walk over it meets the new child, and then the new child again. */
  lemma WalksForEver(k: Kernel, c: int, k': Kernel, n: nat)
    requires AboutToReuse(k, c) && k' == KernelStep(k, CallFork) && n > 0
    ensures Walk(k'.mem.ram, Member(k.pcbOf[k.sched.cur], CHILDREN_UNBLOCKED), n) == Member(c, SIBILING)
  {
    OnlyChildIsNext(k, c);
    CallersWalkNeverEnds(k, k', n);
    OnlyThatFrame(CallersFrames(k), c, n);
  }

  lemma OnlyThatFrame(frames: seq<int>, c: int, n: nat)
    requires frames == [c] && n > 0
    ensures (if n <= |frames| then frames[n - 1] else c) == c
  {
  }
}
