/**
 * Every step and every run keeps the invariant of the whole kernel, also after frames of former PCBs are used again.
 */
module KernelSafety {
  import opened Machine
  import opened Memory
  import opened TaskLife
  import opened MemoryTheorems
  import opened PcbLists
  import opened LinkedMemory
  import opened LinkedRuns
  import opened LinkKinds
  import opened TableRuns
  import opened FamilyWords
  import opened MemoryRings
  import opened KernelState
  import opened KernelSteps
  import opened Scheduler
  import MR = MemoryRuns
  import S = Scheduling
  import SI = SchedulingInvariant
  import ST = SchedulingTheorems

  // ---------- the scheduler's part ----------

  /** No step of the scheduler but fork and exit makes or ends a task. */
  lemma SameNames(s: S.Sched, op: S.Op)
    requires !op.OpFork? && !op.OpExit?
    ensures var s' := S.Step(s, op);
      s'.live == s.live && s'.idle == s.idle && s'.parent == s.parent && s'.lastPid == s.lastPid
  {
    if S.Enabled(s, op) {
      match op
      case OpUnblock(pid) => UnblockNames(s, pid);
      case OpBlock => assert S.Sleep(s).live == s.live && S.Sleep(s).idle == s.idle && S.Sleep(s).parent == s.parent;
      case _ => SI.OtherFields(s, op);
    }
  }

  lemma UnblockNames(s: S.Sched, pid: int)
    ensures var s' := S.Unblock(s, pid).0;
      s'.live == s.live && s'.idle == s.idle && s'.parent == s.parent && s'.lastPid == s.lastPid
  {
  }

  lemma SameKids(s: S.Sched, o: S.Op)
    requires !o.OpFork? && !o.OpExit? && !o.OpBlock? && !o.OpUnblock?
    ensures S.Step(s, o).kidsB == s.kidsB && S.Step(s, o).kidsU == s.kidsU
  {
    if S.Enabled(s, o) { SI.OtherFields(s, o); }
  }

  lemma ForkFields(s: S.Sched)
    ensures var f := S.Fork(s);
      f.live == s.live + {s.lastPid + 1} && f.idle == s.idle && f.parent == s.parent[s.lastPid + 1 := s.cur]
        && f.lastPid == s.lastPid + 1
    ensures var e := S.Exit(s);
      && e.live == s.live - {s.cur} && e.idle == s.idle && e.parent == s.parent && e.lastPid == s.lastPid
      && e.kidsB == s.kidsB && e.kidsU == s.kidsU
  {
  }

  lemma NewPid(s: S.Sched)
    requires S.SInv(s) && S.Enabled(s, S.OpExit)
    ensures S.SInv(S.Fork(s)) && S.SInv(S.Exit(s)) && s.lastPid + 1 !in s.live && s.cur != s.idle && s.cur in s.live
  {
    SI.StepKeeps(s, S.OpFork);
    SI.StepKeeps(s, S.OpExit);
    SI.CurIsAwake(s);
  }

  lemma BlockMoves(s: S.Sched)
    requires S.SInv(s) && S.Enabled(s, S.OpBlock) && S.Get(s.pending, s.cur, 0) <= 0
    ensures var s' := S.Step(s, S.OpBlock);
      if s.cur in s.parent then
        var from, to := KidsUnblocked(s.parent[s.cur]), KidsBlocked(s.parent[s.cur]);
        && s.cur in KidsOf(s, from)
        && s'.kidsB == Moved(s, from, to, s.cur).kidsB && s'.kidsU == Moved(s, from, to, s.cur).kidsU
      else s'.kidsB == s.kidsB && s'.kidsU == s.kidsU
  {
    if s.cur in s.parent {
      ST.ChildLists(s, s.cur);
      SI.CurIsAwake(s);
    }
  }

  lemma UnblockMoves(s: S.Sched, pid: int)
    requires S.Enabled(s, S.OpUnblock(pid))
    ensures var s' := S.Step(s, S.OpUnblock(pid));
      if pid in S.Kids(s.kidsB, s.cur) then
        var from, to := KidsBlocked(s.cur), KidsUnblocked(s.cur);
        s'.kidsB == Moved(s, from, to, pid).kidsB && s'.kidsU == Moved(s, from, to, pid).kidsU
      else s'.kidsB == s.kidsB && s'.kidsU == s.kidsU
  {
  }

  lemma IdleBlock(s: S.Sched)
    requires !S.Enabled(s, S.OpBlock) || S.Get(s.pending, s.cur, 0) > 0
    ensures S.Step(s, S.OpBlock).kidsB == s.kidsB && S.Step(s, S.OpBlock).kidsU == s.kidsU
  {
  }

  /** A call is made by a live task with memory, and exactly unless idle runs or a read is unfinished. */
  lemma CallerIs(k: Kernel)
    requires KernelInv(k)
    ensures Calls(k) <==> k.sched.cur != k.sched.idle && k.sched.cur !in k.sched.woken
    ensures Calls(k) ==> k.sched.cur in k.sched.live && k.pcbOf[k.sched.cur] in LiveFrames(k.pcbOf, k.sched.live)
    ensures Calls(k) ==> 0 <= k.pcbOf[k.sched.cur] < TOTAL_PAGES
  {
    ST.IdleAndDead(k.sched, k.sched.cur);
    UserPcb(k, k.sched.cur);
  }

  // ---------- block, unblock, ticks and keys ----------

  lemma SameTied(k: Kernel, k': Kernel)
    requires Tied(k) && k'.pcbOf == k.pcbOf && k'.vars == k.vars
    requires k'.mem.dir.Keys == k.mem.dir.Keys && k'.mem.boot == k.mem.boot
    requires k'.sched.live == k.sched.live && k'.sched.idle == k.sched.idle && k'.sched.parent == k.sched.parent
    requires k'.sched.lastPid == k.sched.lastPid
    ensures Tied(k')
  {
  }

  /** A step of the scheduler that moves no node of a family. */
  lemma QueueStepKeeps(k: Kernel, o: S.Op, k': Kernel)
    requires KernelInv(k) && !o.OpFork? && !o.OpExit? && k' == k.(sched := S.Step(k.sched, o))
    ensures KernelInv(k')
  {
    SI.StepKeeps(k.sched, o);
    SameNames(k.sched, o);
    SameTied(k, k');
    Whole(k');
  }

  /** `part` moves the node of the live child c from one list of children of its parent to the other. */
  ghost predicate MovesChild(k: Kernel, part: seq<LinkedOp>, from: Node, to: Node, c: int) {
    && IsKids(from) && IsKids(to) && from != to && from.pid == to.pid && to.pid in k.pcbOf
    && c in KidsOf(k.sched, from) && c in k.pcbOf && c in k.sched.live && c != k.sched.idle
    && part == [MoveStep(Member(k.pcbOf[c], SIBILING), WordsOf(k.pcbOf, to))]
  }

  /** The last node of a list that holds. */
  lemma LastIsKidNode(k: Kernel, h: Node)
    requires Inv(k.mem) && VarsOk(k.mem, k.vars) && Tied(k) && ListHolds(k.mem.ram, k.pcbOf, k.sched, h)
    ensures KidNode(k.vars, WordsOf(k.pcbOf, h)) && KidNode(k.vars, Prev(k.mem.ram, WordsOf(k.pcbOf, h)))
  {
    var q := KidsOf(k.sched, h);
    LastPlace(k.mem.ram, WordsOf(k.pcbOf, h), Sibs(FramesOf(k.pcbOf, q)));
    ListPlaces(k.mem.ram, k.pcbOf, k.sched, h, |q|);
    PcbIsNoHead(k, h.pid);
    if q != [] { PcbIsNoHead(k, q[|q| - 1]); }
  }

  lemma MovedLinks(k: Kernel, from: Node, to: Node, c: int, part: seq<LinkedOp>)
    requires Inv(k.mem) && VarsOk(k.mem, k.vars) && Tied(k) && Linked(k) && MovesChild(k, part, from, to, c)
    requires ListHolds(k.mem.ram, k.pcbOf, k.sched, to)
    ensures LinksFit(ListPart(k.mem.ram, part[0]), k.vars, LiveFrames(k.pcbOf, k.sched.live), {})
  {
    var e, h := Member(k.pcbOf[c], SIBILING), WordsOf(k.pcbOf, to);
    PcbIsNoHead(k, c);
    UserPcb(k, c);
    LastIsKidNode(k, to);
    assert e.frame in LiveFrames(k.pcbOf, k.sched.live);
    MoveFits(k.mem.ram, k.vars, LiveFrames(k.pcbOf, k.sched.live), e, h);
  }

  lemma MoveStepKeeps(k: Kernel, o: S.Op, part: seq<LinkedOp>, from: Node, to: Node, c: int, k': Kernel)
    requires KernelInv(k) && (o.OpBlock? || o.OpUnblock?) && MovesChild(k, part, from, to, c)
    requires TableGuard(k.mem, k.vars, part[0]) && ListHolds(k.mem.ram, k.pcbOf, k.sched, to)
    requires k' == k.(mem := LinkedStep(k.mem, k.vars, part[0]), sched := S.Step(k.sched, o))
    ensures KernelInv(k')
  {
    TableStepKeeps(k.mem, k.vars, part[0]);
    SI.StepKeeps(k.sched, o);
    SameNames(k.sched, o);
    SameTied(k, k');
    MovedLinks(k, from, to, c, part);
    Whole(k');
  }

  lemma BlockPartIs(k: Kernel)
    requires S.SInv(k.sched) && Calls(k) && PointsToParent(k) && k.sched.cur in k.sched.live
    requires S.Get(k.sched.pending, k.sched.cur, 0) <= 0
    ensures var s := k.sched;
      if s.cur in s.parent then
        MovesChild(k, BlockPart(k), KidsUnblocked(s.parent[s.cur]), KidsBlocked(s.parent[s.cur]), s.cur)
      else
        BlockPart(k) == []
  {
    BlockMoves(k.sched);
  }

  lemma UnblockPartIs(k: Kernel, pid: int)
    requires S.SInv(k.sched) && PidsOk(k.pcbOf, k.sched)
    ensures
      if Calls(k) && pid in S.Kids(k.sched.kidsB, k.sched.cur) then
        MovesChild(k, UnblockPart(k, pid), KidsBlocked(k.sched.cur), KidsUnblocked(k.sched.cur), pid)
      else
        UnblockPart(k, pid) == []
  {
    if pid in S.Kids(k.sched.kidsB, k.sched.cur) {
      KidIsKnown(k.pcbOf, k.sched, KidsBlocked(k.sched.cur), pid);
      ST.IdleAndDead(k.sched, pid);
    }
  }

  lemma BlockStepKeeps(k: Kernel, k': Kernel)
    requires KernelInv(k) && Allowed(k, Scheduled(S.OpBlock)) && k' == KernelStep(k, Scheduled(S.OpBlock))
    ensures KernelInv(k')
  {
    var s := k.sched;
    CallerIs(k);
    ScheduledIs(k, S.OpBlock);
    if BlockPart(k) == [] {
      QueueStepKeeps(k, S.OpBlock, k');
    } else {
      BlockPartIs(k);
      var p := s.parent[s.cur];
      MoveStepKeeps(k, S.OpBlock, BlockPart(k), KidsUnblocked(p), KidsBlocked(p), s.cur, k');
    }
  }

  lemma UnblockStepKeeps(k: Kernel, pid: int, k': Kernel)
    requires KernelInv(k) && Allowed(k, Scheduled(S.OpUnblock(pid))) && k' == KernelStep(k, Scheduled(S.OpUnblock(pid)))
    ensures KernelInv(k')
  {
    var s, part := k.sched, UnblockPart(k, pid);
    UnblockPartIs(k, pid);
    ScheduledIs(k, S.OpUnblock(pid));
    if part == [] {
      QueueStepKeeps(k, S.OpUnblock(pid), k');
    } else {
      MoveStepKeeps(k, S.OpUnblock(pid), part, KidsBlocked(s.cur), KidsUnblocked(s.cur), pid, k');
    }
  }

  lemma ScheduledKeeps(k: Kernel, o: S.Op)
    requires KernelInv(k) && Allowed(k, Scheduled(o))
    ensures KernelInv(KernelStep(k, Scheduled(o)))
  {
    var k' := KernelStep(k, Scheduled(o));
    if o.OpBlock? {
      BlockStepKeeps(k, k');
    } else if o.OpUnblock? {
      UnblockStepKeeps(k, o.pid, k');
    } else if !o.OpFork? && !o.OpExit? {
      ScheduledIs(k, o);
      QueueStepKeeps(k, o, k');
    }
  }

  // ---------- the calls on memory ----------

  lemma MemoryStepKeeps(k: Kernel, o: MR.MemOp, k': Kernel)
    requires KernelInv(k) && !o.OpFork? && !o.OpExit? && k' == k.(mem := MR.Step(k.mem, o))
    ensures KernelInv(k')
  {
    MR.StepKeeps(k.mem, o);
    OtherTasks(k.mem, o);
    SameTied(k, k');
    forall f | 0 <= f < TOTAL_PAGES && f in k.mem.own && !HoldsMemory(k.mem, f)
      ensures PageAt(k'.mem, f) == PageAt(k.mem, f)
    {
      StepKeepsPage(k.mem, o, f);
    }
    StillLinked(k, k');
    Whole(k');
  }

  lemma MemoryCallKeeps(k: Kernel, op: KernelOp)
    requires KernelInv(k) && IsMemoryCall(op)
    ensures KernelInv(KernelStep(k, op))
  {
    MemoryCallIs(k, op);
    if Calls(k) { MemoryStepKeeps(k, MemPart(k, op)[0].op, KernelStep(k, op)); }
  }

  // ---------- exit ----------

  lemma LeftNames(F: PcbFrames, live: set<int>, idle: int, tasks: set<int>, p: int)
    requires Named(F, live, idle, tasks) && p in live && p != idle
    ensures Named(F, live - {p}, idle, tasks - {F[p]})
  {
    forall f ensures f in UserPcbs(F, live - {p}, idle) <==> f in UserPcbs(F, live, idle) && f != F[p] {
      if f in UserPcbs(F, live, idle) && f != F[p] {
        var q :| q in live && q in F && q != idle && F[q] == f;
        assert q in live - {p};
      }
    }
  }

  lemma ExitNames(k: Kernel, k': Kernel)
    requires Inv(k.mem) && Tied(k) && Calls(k) && k.sched.cur in k.sched.live && k.sched.cur != k.sched.idle
    requires k'.pcbOf == k.pcbOf && k'.vars == k.vars && k'.mem.boot == k.mem.boot
    requires k'.sched.live == k.sched.live - {k.sched.cur} && k'.sched.idle == k.sched.idle
    requires k'.sched.parent == k.sched.parent && k'.sched.lastPid == k.sched.lastPid
    requires k'.mem.dir.Keys == k.mem.dir.Keys - {k.pcbOf[k.sched.cur]}
    ensures Tied(k')
  {
    LeftNames(k.pcbOf, k.sched.live, k.sched.idle, k.mem.dir.Keys, k.sched.cur);
  }

  /** The links once the exiting task is in no list of tasks. */
  lemma ExitLinks(k: Kernel, x: Mem, k': Kernel)
    requires KernelInv(k) && Calls(k) && x == Exit(k.mem, k.pcbOf[k.sched.cur]) && |x.ram| == TOTAL_PAGES
    requires k'.mem.ram == Del(x.ram, Member(k.pcbOf[k.sched.cur], TASK_LIST)) && k'.vars == k.vars
    requires k'.pcbOf == k.pcbOf && k'.sched.live == k.sched.live - {k.sched.cur}
    ensures Linked(k')
  {
    var t, frames := k.pcbOf[k.sched.cur], LiveFrames(k.pcbOf, k.sched.live);
    CallerIs(k);
    forall f | 0 <= f < TOTAL_PAGES && f in k.mem.own && !HoldsMemory(k.mem, f)
      ensures PageAt(x, f) == PageAt(k.mem, f)
    {
      ExitKeepsPage(k.mem, t, f);
    }
    StillLinked(k, k.(mem := x));
    PcbIsNoHead(k, k.sched.cur);
    UnlinkFits(x.ram, k.vars, frames, t);
    LeftFrames(k.pcbOf, k.sched.live, k.sched.cur);
  }

  lemma LeftFrames(F: PcbFrames, live: set<int>, p: int)
    requires p in live && p in F && forall a, b :: a in live && b in live && a in F && b in F && F[a] == F[b] ==> a == b
    ensures LiveFrames(F, live - {p}) == LiveFrames(F, live) - {F[p]}
  {
    forall f | f in LiveFrames(F, live) && f != F[p] ensures f in LiveFrames(F, live - {p}) {
      var q :| q in live && q in F && F[q] == f;
    }
  }

  lemma ExitCallKeeps(k: Kernel, k': Kernel)
    requires KernelInv(k) && Calls(k) && Allowed(k, CallExit) && k' == KernelStep(k, CallExit)
    ensures KernelInv(k')
  {
    var t := k.pcbOf[k.sched.cur];
    ExitStepIs(k, t, k');
    CallerIs(k);
    TableStepKeeps(k.mem, k.vars, ExitStep(t));
    ExitTasks(k.mem, t);
    ExitKeeps(k.mem, t);
    NewPid(k.sched);
    ForkFields(k.sched);
    ExitNames(k, k');
    ExitLinks(k, Exit(k.mem, t), k');
    Whole(k');
  }
}
