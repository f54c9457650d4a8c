/** The families stay in memory over every run that allocates no frame of a task that has exited. */
module FamilyRuns {
  import opened Machine
  import opened Memory
  import opened TaskLife
  import opened PcbLists
  import opened LinkedMemory
  import opened LinkedRuns
  import opened LinkKinds
  import opened TableRuns
  import opened FamilyWords
  import opened KernelState
  import opened KernelSteps
  import opened KernelSafety
  import opened ForkSafety
  import opened KernelFamilies
  import opened KernelRuns
  import opened Scheduler
  import MR = MemoryRuns
  import R = Rings
  import S = Scheduling

  // ---------- words that stay ----------

  /** The words of PCBs before the node of list_tasks are the same. */
  ghost predicate PcbWordsKept(ram: seq<Page>, ram': seq<Page>, F: PcbFrames) {
    forall p, i: Index :: p in F && i < TASK_LIST ==> WordAt(ram', Member(F[p], i)) == WordAt(ram, Member(F[p], i))
  }

  lemma PagesKeepWords(ram: seq<Page>, ram': seq<Page>, F: PcbFrames)
    requires |ram| == |ram'| == TOTAL_PAGES && forall p :: p in F ==> 0 <= F[p] < TOTAL_PAGES && ram'[F[p]] == ram[F[p]]
    ensures PcbWordsKept(ram, ram', F)
  {
  }

  /** Then the families are in memory as before. */
  lemma KeptFamilies(k: Kernel, k': Kernel)
    requires FamiliesHold(k) && PcbWordsKept(k.mem.ram, k'.mem.ram, k.pcbOf) && k'.pcbOf == k.pcbOf
    requires k'.sched.kidsB == k.sched.kidsB && k'.sched.kidsU == k.sched.kidsU && k'.sched.parent == k.sched.parent
    requires k'.sched.live <= k.sched.live && k'.sched.idle == k.sched.idle
    ensures FamiliesHold(k')
  {
    SameFamilyRings(k.sched, k'.sched, k.pcbOf.Keys);
    KeptInMemory(k.mem.ram, k'.mem.ram, k.pcbOf, FamilyRings(k.sched, k.pcbOf.Keys));
  }

  /** Neither PCBs in use nor those of tasks that have exited are pages of a task. */
  lemma PcbHoldsNothing(k: Kernel, p: int)
    requires Inv(k.mem) && VarsOk(k.mem, k.vars) && Tied(k) && NotReused(k) && p in k.pcbOf
    ensures 0 <= k.pcbOf[p] < TOTAL_PAGES && !HoldsMemory(k.mem, k.pcbOf[p])
  {
    if p in k.sched.live { LiveHoldsNothing(k, k.pcbOf[p]); }
  }

  lemma DelKeepsWords(ram: seq<Page>, v: Vars, F: PcbFrames, f: int)
    requires 0 <= f < TOTAL_PAGES && TaskNode(v, Next(ram, Member(f, TASK_LIST)))
    requires TaskNode(v, Prev(ram, Member(f, TASK_LIST)))
    requires forall p :: p in F ==> 0 <= F[p] < TOTAL_PAGES && !HeadFrame(v, F[p])
    ensures PcbWordsKept(ram, Del(ram, Member(f, TASK_LIST)), F)
  {
    var e := Member(f, TASK_LIST);
    DelStaysWithin(ram, e);
    forall p, i: Index | p in F && i < TASK_LIST
      ensures WordAt(Del(ram, e), Member(F[p], i)) == WordAt(ram, Member(F[p], i))
    {
      TaskNodeIsElsewhere(v, Next(ram, e), F[p], i);
      TaskNodeIsElsewhere(v, Prev(ram, e), F[p], i);
    }
  }

  lemma EnlistKeepsWords(ram: seq<Page>, v: Vars, F: PcbFrames, c: int)
    requires 0 <= c < TOTAL_PAGES && !HeadFrame(v, c) && TaskNode(v, Prev(ram, v.tasks))
    requires forall p :: p in F ==> 0 <= F[p] < TOTAL_PAGES && !HeadFrame(v, F[p])
    ensures PcbWordsKept(ram, Enlist(ram, c, v.tasks), F)
  {
    forall p, i: Index | p in F && i < TASK_LIST
      ensures WordAt(Enlist(ram, c, v.tasks), Member(F[p], i)) == WordAt(ram, Member(F[p], i))
    {
      EnlistSpares(ram, v, c, F[p], i);
    }
  }

  // ---------- block, unblock, ticks and keys ----------

  /** Moving a child's node leaves the pointers to parents alone. */
  lemma MoveSparesParents(ram: seq<Page>, F: PcbFrames, s: S.Sched, from: Node, to: Node, c: int, p: int)
    requires |ram| == TOTAL_PAGES && InMemory(ram, F, FamilyRings(s, F.Keys)) && OwnFrames(F, TOTAL_PAGES)
    requires IsKids(from) && IsKids(to) && from.pid in F && to.pid in F && c in KidsOf(s, from) && p in F
    ensures c in F
    ensures WordAt(Move(ram, Member(F[c], SIBILING), WordsOf(F, to)), Member(F[p], PARENT)) ==
      WordAt(ram, Member(F[p], PARENT))
  {
    var next, prev, last := MovePlaces(ram, F, s, from, to, c);
    var e, h := Member(F[c], SIBILING), WordsOf(F, to);
    NodesApart(F, next, prev);
    NodesApart(F, prev, prev);
    LastAfterDel(ram, e, h);
    DelStaysWithin(ram, e);
    AddTailStaysWithin(Del(ram, e), e, h);
  }

  lemma MovedFamilies(k: Kernel, k': Kernel, from: Node, to: Node, c: int)
    requires |k.mem.ram| == TOTAL_PAGES && OwnFrames(k.pcbOf, TOTAL_PAGES) && FamiliesHold(k)
    requires IsKids(from) && IsKids(to) && from != to && from.pid in k.pcbOf && to.pid in k.pcbOf && c in k.pcbOf
    requires c in KidsOf(k.sched, from) && k'.pcbOf == k.pcbOf
    requires k'.mem.ram == Move(k.mem.ram, Member(k.pcbOf[c], SIBILING), WordsOf(k.pcbOf, to))
    requires k'.sched.live == k.sched.live && k'.sched.idle == k.sched.idle && k'.sched.parent == k.sched.parent
    requires var s := Moved(k.sched, from, to, c); k'.sched.kidsB == s.kidsB && k'.sched.kidsU == s.kidsU
    ensures FamiliesHold(k')
  {
    var F, ram := k.pcbOf, k.mem.ram;
    MoveCarries(ram, F, k.sched, from, to, c);
    SameFamilyRings(Moved(k.sched, from, to, c), k'.sched, F.Keys);
    forall p | p in F ensures WordAt(k'.mem.ram, Member(F[p], PARENT)) == WordAt(ram, Member(F[p], PARENT)) {
      MoveSparesParents(ram, F, k.sched, from, to, c, p);
    }
  }

  /** A step of the scheduler that moves no node of a family. */
  lemma QueueStepFamilies(k: Kernel, o: S.Op, k': Kernel)
    requires NotReused(k) && FamiliesHold(k) && !o.OpFork? && !o.OpExit? && k' == k.(sched := S.Step(k.sched, o))
    requires k'.sched.kidsB == k.sched.kidsB && k'.sched.kidsU == k.sched.kidsU
    ensures NotReused(k') && FamiliesHold(k')
  {
    SameNames(k.sched, o);
    KeptFamilies(k, k');
  }

  lemma MoveStepFamilies(k: Kernel, o: S.Op, part: seq<LinkedOp>, from: Node, to: Node, c: int, k': Kernel)
    requires |k.mem.ram| == TOTAL_PAGES && NotReused(k) && FamiliesHold(k) && (o.OpBlock? || o.OpUnblock?)
    requires Sized(k.mem) && MovesChild(k, part, from, to, c)
    requires k' == k.(mem := LinkedStep(k.mem, k.vars, part[0]), sched := S.Step(k.sched, o))
    requires var s := Moved(k.sched, from, to, c); k'.sched.kidsB == s.kidsB && k'.sched.kidsU == s.kidsU
    ensures NotReused(k') && FamiliesHold(k')
  {
    SameNames(k.sched, o);
    MovedFamilies(k, k', from, to, c);
  }

  lemma BlockFamilies(k: Kernel, k': Kernel)
    requires Sized(k.mem) && |k.mem.ram| == TOTAL_PAGES && NotReused(k) && FamiliesHold(k) && S.SInv(k.sched)
    requires Calls(k) <==> S.Enabled(k.sched, S.OpBlock)
    requires Calls(k) ==> PointsToParent(k) && k.sched.cur in k.sched.live
    requires k' == KernelStep(k, Scheduled(S.OpBlock))
    ensures NotReused(k') && FamiliesHold(k')
  {
    var s := k.sched;
    ScheduledIs(k, S.OpBlock);
    if !Calls(k) || S.Get(s.pending, s.cur, 0) > 0 {
      IdleBlock(s);
      QueueStepFamilies(k, S.OpBlock, k');
    } else {
      BlockPartIs(k);
      BlockMoves(s);
      if s.cur in s.parent {
        var p := s.parent[s.cur];
        MoveStepFamilies(k, S.OpBlock, BlockPart(k), KidsUnblocked(p), KidsBlocked(p), s.cur, k');
      } else {
        QueueStepFamilies(k, S.OpBlock, k');
      }
    }
  }

  lemma UnblockFamilies(k: Kernel, pid: int, k': Kernel)
    requires Sized(k.mem) && |k.mem.ram| == TOTAL_PAGES && NotReused(k) && FamiliesHold(k) && S.SInv(k.sched)
    requires Calls(k) <==> S.Enabled(k.sched, S.OpUnblock(pid))
    requires PidsOk(k.pcbOf, k.sched) && k' == KernelStep(k, Scheduled(S.OpUnblock(pid)))
    ensures NotReused(k') && FamiliesHold(k')
  {
    var s, part := k.sched, UnblockPart(k, pid);
    ScheduledIs(k, S.OpUnblock(pid));
    UnblockPartIs(k, pid);
    if Calls(k) { UnblockMoves(s, pid); }
    if part == [] {
      QueueStepFamilies(k, S.OpUnblock(pid), k');
    } else {
      MoveStepFamilies(k, S.OpUnblock(pid), part, KidsBlocked(s.cur), KidsUnblocked(s.cur), pid, k');
    }
  }

  lemma BlockKeepsFamilies(k: Kernel)
    requires FamilyInv(k)
    ensures NotReused(KernelStep(k, Scheduled(S.OpBlock))) && FamiliesHold(KernelStep(k, Scheduled(S.OpBlock)))
  {
    CallerIs(k);
    if Calls(k) { ParentIs(k); }
    BlockFamilies(k, KernelStep(k, Scheduled(S.OpBlock)));
  }

  lemma UnblockKeepsFamilies(k: Kernel, pid: int)
    requires FamilyInv(k)
    ensures NotReused(KernelStep(k, Scheduled(S.OpUnblock(pid))))
    ensures FamiliesHold(KernelStep(k, Scheduled(S.OpUnblock(pid))))
  {
    CallerIs(k);
    UnblockFamilies(k, pid, KernelStep(k, Scheduled(S.OpUnblock(pid))));
  }

  lemma QueuesKeepFamilies(k: Kernel, o: S.Op)
    requires Sized(k.mem) && NotReused(k) && FamiliesHold(k) && !o.OpBlock? && !o.OpUnblock?
    ensures NotReused(KernelStep(k, Scheduled(o))) && FamiliesHold(KernelStep(k, Scheduled(o)))
  {
    if !o.OpFork? && !o.OpExit? {
      ScheduledIs(k, o);
      SameKids(k.sched, o);
      QueueStepFamilies(k, o, KernelStep(k, Scheduled(o)));
    }
  }

  lemma ScheduledFamilies(k: Kernel, o: S.Op)
    requires FamilyInv(k)
    ensures NotReused(KernelStep(k, Scheduled(o))) && FamiliesHold(KernelStep(k, Scheduled(o)))
  {
    if o.OpBlock? {
      BlockKeepsFamilies(k);
    } else if o.OpUnblock? {
      UnblockKeepsFamilies(k, o.pid);
    } else {
      QueuesKeepFamilies(k, o);
    }
  }

  // ---------- the calls on memory ----------

  lemma MemoryStepFamilies(k: Kernel, o: MR.MemOp, k': Kernel)
    requires Inv(k.mem) && VarsOk(k.mem, k.vars) && Tied(k) && NotReused(k) && FamiliesHold(k)
    requires !o.OpFork? && !o.OpExit? && k' == k.(mem := MR.Step(k.mem, o)) && Inv(k'.mem)
    requires forall p ::
      p in k.pcbOf && p !in k.sched.live && o.OpShmat? && TakesFrame(k.mem, o.id) ==> k.pcbOf[p] != NextFree(k.mem)
    ensures NotReused(k') && FamiliesHold(k')
  {
    forall p | p in k.pcbOf ensures k'.mem.ram[k.pcbOf[p]] == k.mem.ram[k.pcbOf[p]] {
      PcbHoldsNothing(k, p);
      StepKeepsPage(k.mem, o, k.pcbOf[p]);
    }
    PagesKeepWords(k.mem.ram, k'.mem.ram, k.pcbOf);
    KeptFamilies(k, k');
    forall p | p in k.pcbOf && p !in k.sched.live ensures k.pcbOf[p] !in k'.mem.own {
      StepTakes(k.mem, o, k.pcbOf[p]);
    }
  }

  lemma MemoryCallFamilies(k: Kernel, op: KernelOp)
    requires FamilyInv(k) && NoReuse(k, op) && IsMemoryCall(op)
    ensures NotReused(KernelStep(k, op)) && FamiliesHold(KernelStep(k, op))
  {
    MemoryCallIs(k, op);
    if Calls(k) {
      var o := MemPart(k, op)[0].op;
      MR.StepKeeps(k.mem, o);
      AttachTakesNone(k, op, o);
      MemoryStepFamilies(k, o, KernelStep(k, op));
    }
  }

  lemma AttachTakesNone(k: Kernel, op: KernelOp, o: MR.MemOp)
    requires Sized(k.mem) && NoReuse(k, op) && Calls(k) && (o.OpShmat? ==> op == CallShmat(o.id, o.addr))
    ensures forall p ::
      p in k.pcbOf && p !in k.sched.live && o.OpShmat? && TakesFrame(k.mem, o.id) ==> k.pcbOf[p] != NextFree(k.mem)
  {
  }

  // ---------- exit ----------

  lemma PcbsAreApart(k: Kernel)
    requires Inv(k.mem) && VarsOk(k.mem, k.vars) && Tied(k)
    ensures forall p :: p in k.pcbOf ==> 0 <= k.pcbOf[p] < TOTAL_PAGES && !HeadFrame(k.vars, k.pcbOf[p])
  {
    forall p | p in k.pcbOf ensures !HeadFrame(k.vars, k.pcbOf[p]) { PcbIsNoHead(k, p); }
  }

  lemma ExitPages(k: Kernel, t: int, ram: seq<Page>)
    requires Inv(k.mem) && VarsOk(k.mem, k.vars) && Tied(k) && NotReused(k) && t in k.mem.dir
    requires ram == Exit(k.mem, t).ram && |ram| == TOTAL_PAGES
    ensures forall p :: p in k.pcbOf ==> 0 <= k.pcbOf[p] < TOTAL_PAGES && ram[k.pcbOf[p]] == k.mem.ram[k.pcbOf[p]]
  {
    forall p | p in k.pcbOf ensures ram[k.pcbOf[p]] == k.mem.ram[k.pcbOf[p]] {
      PcbHoldsNothing(k, p);
      ExitKeepsPage(k.mem, t, k.pcbOf[p]);
    }
  }

  lemma ExitWords(k: Kernel, t: int, ram: seq<Page>)
    requires Linked(k) && |ram| == |k.mem.ram| == TOTAL_PAGES && k.sched.cur in k.sched.live && k.sched.cur in k.pcbOf
    requires t == k.pcbOf[k.sched.cur]
    requires forall p :: p in k.pcbOf ==>
      0 <= k.pcbOf[p] < TOTAL_PAGES && ram[k.pcbOf[p]] == k.mem.ram[k.pcbOf[p]] && !HeadFrame(k.vars, k.pcbOf[p])
    ensures PcbWordsKept(k.mem.ram, Del(ram, Member(t, TASK_LIST)), k.pcbOf)
  {
    PagesKeepWords(k.mem.ram, ram, k.pcbOf);
    LinksOf(k.mem.ram, k.vars, LiveFrames(k.pcbOf, k.sched.live), true, Member(t, TASK_LIST));
    assert Plus(Member(t, TASK_LIST), 1) == Member(t, TASK_LIST + 1);
    assert Next(ram, Member(t, TASK_LIST)) == Next(k.mem.ram, Member(t, TASK_LIST));
    assert Prev(ram, Member(t, TASK_LIST)) == Prev(k.mem.ram, Member(t, TASK_LIST));
    DelKeepsWords(ram, k.vars, k.pcbOf, t);
  }

  lemma ExitReuse(k: Kernel, k': Kernel)
    requires Inv(k.mem) && NotReused(k) && Calls(k) && k'.pcbOf == k.pcbOf
    requires k'.mem.own == Exit(k.mem, k.pcbOf[k.sched.cur]).own && k'.sched.live == k.sched.live - {k.sched.cur}
    ensures NotReused(k')
  {
    var t := k.pcbOf[k.sched.cur];
    assert TaskFrameList(k.mem, t)[0] == t;
    forall p | p in k.pcbOf && p !in k'.sched.live ensures k.pcbOf[p] !in k'.mem.own {
      ExitOwner(k.mem, t, k.pcbOf[p]);
    }
  }

  lemma ExitFamilies(k: Kernel, k': Kernel)
    requires FamilyInv(k) && Calls(k) && k' == KernelStep(k, CallExit)
    ensures NotReused(k') && FamiliesHold(k')
  {
    var t := k.pcbOf[k.sched.cur];
    CallerIs(k);
    ExitStepIs(k, t, k');
    ExitKeeps(k.mem, t);
    ForkFields(k.sched);
    ExitPages(k, t, Exit(k.mem, t).ram);
    PcbsAreApart(k);
    ExitWords(k, t, Exit(k.mem, t).ram);
    KeptFamilies(k, k');
    ExitReuse(k, k');
  }

  // ---------- fork ----------

  /** Under the condition, no PCB of a PID is a frame that fork takes. */
  lemma PcbIsNotTaken(k: Kernel, p: int)
    requires Inv(k.mem) && VarsOk(k.mem, k.vars) && Tied(k) && Calls(k) && NoReuse(k, CallFork) && p in k.pcbOf
    ensures k.pcbOf[p] !in ForkTakes(FreeFrames(k.mem))
  {
    if p in k.sched.live {
      UserPcb(k, p);
    } else {
      assert k.pcbOf[p] !in Allocates(k, CallFork);
    }
  }

  lemma FirstIsTaken(fs: seq<int>)
    requires fs != []
    ensures fs[0] in ForkTakes(fs)
  {
    assert ForkTakes(fs)[0] == fs[0];
  }

  /** The frame c is none of a PID, nor of the kernel's list heads. */
  ghost predicate IsNewFrame(k: Kernel, c: int) {
    && 0 <= c < TOTAL_PAGES && !HeadFrame(k.vars, c) && k.sched.cur in k.pcbOf && |k.mem.ram| == TOTAL_PAGES
    && forall p :: p in k.pcbOf ==> 0 <= k.pcbOf[p] < TOTAL_PAGES && !HeadFrame(k.vars, k.pcbOf[p]) && k.pcbOf[p] != c
  }

  lemma ForkIsApart(k: Kernel)
    requires Inv(k.mem) && VarsOk(k.mem, k.vars) && Tied(k) && Calls(k) && NoReuse(k, CallFork)
    requires FreeFrames(k.mem) != []
    ensures IsNewFrame(k, FreeFrames(k.mem)[0])
    ensures forall p :: p in k.pcbOf ==> k.pcbOf[p] !in ForkTakes(FreeFrames(k.mem))
  {
    assert FreeFrames(k.mem)[0] in FreeFrames(k.mem);
    FreeIsNotLive(k, FreeFrames(k.mem)[0]);
    PcbsAreApart(k);
    FirstIsTaken(FreeFrames(k.mem));
    forall p | p in k.pcbOf ensures k.pcbOf[p] !in ForkTakes(FreeFrames(k.mem)) { PcbIsNotTaken(k, p); }
  }

  lemma ForkedWords(k: Kernel, e: Mem, m2: Mem, c: int)
    requires IsNewFrame(k, c) && PcbWordsKept(k.mem.ram, e.ram, k.pcbOf) && |e.ram| == |m2.ram| == TOTAL_PAGES
    requires forall p :: p in k.pcbOf ==> m2.ram[k.pcbOf[p]] == e.ram[k.pcbOf[p]]
    ensures PcbWordsKept(k.mem.ram, m2.ram, k.pcbOf)
  {
    PagesKeepWords(e.ram, m2.ram, k.pcbOf);
  }

  /** The lists of children once the child has joined its parent's. */
  lemma ForkedFamilies(k: Kernel, ram: seq<Page>, c: int)
    requires IsNewFrame(k, c) && |ram| == TOTAL_PAGES && PcbWordsKept(k.mem.ram, ram, k.pcbOf) && FamiliesHold(k)
    requires KnownKin(k.sched, k.pcbOf.Keys)
    requires OwnFrames(k.pcbOf[k.sched.lastPid + 1 := c], TOTAL_PAGES) && k.sched.lastPid + 1 !in k.pcbOf
    ensures var pid := k.sched.lastPid + 1;
      InMemory(LinkChild(ram, c, k.pcbOf[k.sched.cur]), k.pcbOf[pid := c],
        FamilyRings(S.Fork(k.sched), k.pcbOf.Keys + {pid}))
  {
    var F, t, pid := k.pcbOf, k.pcbOf[k.sched.cur], k.sched.lastPid + 1;
    var ram1 := NewFamily(ram, c, t);
    forall p, i: Index | p in F && CHILDREN_BLOCKED <= i <= SIBILING + 1
      ensures WordAt(ram1, Member(F[p], i)) == WordAt(k.mem.ram, Member(F[p], i))
    {
      NewFamilyReads(ram, c, t, Member(F[p], i));
    }
    KeptInMemory(k.mem.ram, ram1, F, FamilyRings(k.sched, F.Keys));
    NewFamilyReads(ram, c, t, Member(c, CHILDREN_BLOCKED));
    NewFamilyReads(ram, c, t, Member(c, CHILDREN_BLOCKED + 1));
    NewFamilyReads(ram, c, t, Member(c, CHILDREN_UNBLOCKED));
    NewFamilyReads(ram, c, t, Member(c, CHILDREN_UNBLOCKED + 1));
    ForkCarries(ram1, F, k.sched, pid, c);
  }

  /** No pending unblocks: not a word of the lists. */
  lemma PendingIsElsewhere(ram: seq<Page>, F: PcbFrames, r: R.Rings<Node>, c: int)
    requires InMemory(ram, F, r) && OwnFrames(F, TOTAL_PAGES) && 0 <= c < TOTAL_PAGES
    ensures InMemory(Put(ram, Member(c, PENDING_UNBLOCKS), ZERO_WORD), F, r)
  {
    var q := Member(c, PENDING_UNBLOCKS);
    forall p, i: Index | p in F && CHILDREN_BLOCKED <= i <= SIBILING + 1
      ensures WordAt(Put(ram, q, ZERO_WORD), Member(F[p], i)) == WordAt(ram, Member(F[p], i))
    {
      WordAfterPut(ram, q, ZERO_WORD, Member(F[p], i));
    }
    KeptInMemory(ram, Put(ram, q, ZERO_WORD), F, r);
  }

  /** What fork leaves as pointers to parents. */
  lemma ParentsAfterJoin(k: Kernel, ram: seq<Page>, c: int, f: int)
    requires IsNewFrame(k, c) && |ram| == TOTAL_PAGES && PcbWordsKept(k.mem.ram, ram, k.pcbOf) && 0 <= f < TOTAL_PAGES
    requires InMemory(k.mem.ram, k.pcbOf, FamilyRings(k.sched, k.pcbOf.Keys))
    ensures WordAt(JoinFamily(ram, c, k.pcbOf[k.sched.cur]), Member(f, PARENT)) ==
      if f == c then Pointer(Member(k.pcbOf[k.sched.cur], 0)) else WordAt(ram, Member(f, PARENT))
  {
    var t, head := k.pcbOf[k.sched.cur], Member(k.pcbOf[k.sched.cur], CHILDREN_UNBLOCKED);
    var n := LastChildIs(k.mem.ram, k.pcbOf, k.sched, k.sched.cur);
    assert Plus(head, 1) == Member(t, CHILDREN_UNBLOCKED + 1);
    assert Prev(ram, head) == Prev(k.mem.ram, head) == WordsOf(k.pcbOf, n);
    JoinReadsAt(ram, c, t, Member(f, PARENT));
    NewFamilyReads(ram, c, t, Member(f, PARENT));
  }

  /** The pointers to parents once the child is there. */
  lemma ForkedParents(k: Kernel, ram: seq<Page>, c: int)
    requires IsNewFrame(k, c) && |ram| == TOTAL_PAGES && PcbWordsKept(k.mem.ram, ram, k.pcbOf) && FamiliesHold(k)
    requires PidsOk(k.pcbOf, k.sched) && k.sched.lastPid + 1 !in k.pcbOf && k.sched.live <= k.pcbOf.Keys
    ensures ParentWords(JoinFamily(ram, c, k.pcbOf[k.sched.cur]), k.pcbOf[k.sched.lastPid + 1 := c], S.Fork(k.sched))
  {
    var F, s, t, pid := k.pcbOf, k.sched, k.pcbOf[k.sched.cur], k.sched.lastPid + 1;
    var r, F', s' := JoinFamily(ram, c, t), F[pid := c], S.Fork(k.sched);
    ForkFields(s);
    forall p | p in s'.live && p in F' && p != s'.idle
      ensures WordAt(r, Member(F'[p], PARENT)) == ParentWord(F', s', p)
    {
      ParentsAfterJoin(k, ram, c, F'[p]);
      if p != pid { assert ParentWord(F', s', p) == ParentWord(F, s, p); }
    }
  }

  lemma NewcomerIsApart(k: Kernel, c: int)
    requires Tied(k) && IsNewFrame(k, c) && NotReused(k)
    ensures k.sched.lastPid + 1 !in k.pcbOf && OwnFrames(k.pcbOf[k.sched.lastPid + 1 := c], TOTAL_PAGES)
  {
  }

  /** The families after a fork that succeeds; ram is memory before the child joins. */
  lemma ChildJoins(k: Kernel, ram: seq<Page>, c: int, k': Kernel)
    requires Tied(k) && S.Families(k.sched) && IsNewFrame(k, c) && NotReused(k) && FamiliesHold(k)
    requires |ram| == TOTAL_PAGES && PcbWordsKept(k.mem.ram, ram, k.pcbOf)
    requires k'.pcbOf == k.pcbOf[k.sched.lastPid + 1 := c] && k'.sched == S.Fork(k.sched)
    requires k'.mem.ram == JoinFamily(ram, c, k.pcbOf[k.sched.cur])
    ensures FamiliesHold(k') && OwnFrames(k'.pcbOf, TOTAL_PAGES)
  {
    var pid, t := k.sched.lastPid + 1, k.pcbOf[k.sched.cur];
    NewcomerIsApart(k, c);
    KinAreKnown(k.pcbOf, k.sched);
    ForkedFamilies(k, ram, c);
    assert k'.pcbOf.Keys == k.pcbOf.Keys + {pid};
    PendingIsElsewhere(LinkChild(ram, c, t), k'.pcbOf, FamilyRings(k'.sched, k'.pcbOf.Keys), c);
    ForkedParents(k, ram, c);
  }

  /** What alloc_pcb leaves of the words of PIDs. */
  lemma EnlistedWords(k: Kernel, e: Mem)
    requires KernelInv(k) && FreeFrames(k.mem) != [] && e == Enlisted(k.mem, k.vars)
    requires IsNewFrame(k, FreeFrames(k.mem)[0])
    ensures PcbWordsKept(k.mem.ram, e.ram, k.pcbOf)
  {
    EnlistedLinks(k, e);
    EnlistKeepsWords(k.mem.ram, k.vars, k.pcbOf, FreeFrames(k.mem)[0]);
  }

  /** No frame of a task that has exited is used after a fork that takes none. */
  lemma ForkReuse(k: Kernel, e: Mem, m2: Mem)
    requires NotReused(k) && e == k.mem.(ram := e.ram) && Inv(e) && Calls(k) && FRAMES_PER_TASK <= |FreeFrames(e)|
    requires m2 == Fork(e, k.pcbOf[k.sched.cur]).0
    requires forall p :: p in k.pcbOf ==> k.pcbOf[p] !in ForkTakes(FreeFrames(e))
    ensures forall p :: p in k.pcbOf && p !in k.sched.live ==> k.pcbOf[p] !in m2.own
  {
    forall p | p in k.pcbOf && p !in k.sched.live ensures k.pcbOf[p] !in m2.own {
      ForkAdds(e, k.pcbOf[k.sched.cur], m2, k.pcbOf[p]);
    }
  }

  lemma ForkedPages(k: Kernel, e: Mem, m2: Mem, c: int)
    requires IsNewFrame(k, c) && Inv(e) && Calls(k) && FRAMES_PER_TASK <= |FreeFrames(e)| && e.dir == k.mem.dir
    requires m2 == Fork(e, k.pcbOf[k.sched.cur]).0 && PcbWordsKept(k.mem.ram, e.ram, k.pcbOf)
    requires forall p :: p in k.pcbOf ==> k.pcbOf[p] !in ForkTakes(FreeFrames(e))
    ensures |m2.ram| == TOTAL_PAGES && PcbWordsKept(k.mem.ram, m2.ram, k.pcbOf)
  {
    ForkPages(e, k.pcbOf[k.sched.cur], c);
    forall p | p in k.pcbOf ensures m2.ram[k.pcbOf[p]] == e.ram[k.pcbOf[p]] {
      ForkPages(e, k.pcbOf[k.sched.cur], k.pcbOf[p]);
    }
    ForkedWords(k, e, m2, c);
  }

  lemma SuccessReuse(k: Kernel, k': Kernel, c: int)
    requires k'.pcbOf == k.pcbOf[k.sched.lastPid + 1 := c] && k'.sched == S.Fork(k.sched)
    requires OwnFrames(k'.pcbOf, TOTAL_PAGES)
    requires forall p :: p in k.pcbOf && p !in k.sched.live ==> k.pcbOf[p] !in k'.mem.own
    ensures NotReused(k')
  {
    ForkFields(k.sched);
  }

  lemma SuccessFamilies(k: Kernel, e: Mem, c: int, k': Kernel)
    requires FamilyInv(k) && Calls(k) && NoReuse(k, CallFork) && FRAMES_PER_TASK <= |FreeFrames(k.mem)|
    requires c == FreeFrames(k.mem)[0] && e == Enlisted(k.mem, k.vars) && Inv(e)
    requires var m2 := Fork(e, k.pcbOf[k.sched.cur]).0;
      k'.mem.ram == JoinFamily(m2.ram, c, k.pcbOf[k.sched.cur]) && k'.mem.own == m2.own
    requires k'.sched == S.Fork(k.sched) && k'.pcbOf == k.pcbOf[k.sched.lastPid + 1 := c]
    ensures NotReused(k') && FamiliesHold(k')
  {
    assert FreeFrames(e) == FreeFrames(k.mem);
    ForkIsApart(k);
    EnlistedWords(k, e);
    ChildFamilies(k, e, Fork(e, k.pcbOf[k.sched.cur]).0, c, k');
  }

  lemma ChildFamilies(k: Kernel, e: Mem, m2: Mem, c: int, k': Kernel)
    requires Tied(k) && S.Families(k.sched) && NotReused(k) && FamiliesHold(k) && IsNewFrame(k, c) && Calls(k)
    requires e == k.mem.(ram := e.ram) && Inv(e) && PcbWordsKept(k.mem.ram, e.ram, k.pcbOf)
    requires FRAMES_PER_TASK <= |FreeFrames(e)| && m2 == Fork(e, k.pcbOf[k.sched.cur]).0
    requires forall p :: p in k.pcbOf ==> k.pcbOf[p] !in ForkTakes(FreeFrames(e))
    requires k'.mem.ram == JoinFamily(m2.ram, c, k.pcbOf[k.sched.cur]) && k'.mem.own == m2.own
    requires k'.sched == S.Fork(k.sched) && k'.pcbOf == k.pcbOf[k.sched.lastPid + 1 := c]
    ensures NotReused(k') && FamiliesHold(k')
  {
    ForkedPages(k, e, m2, c);
    ChildJoins(k, m2.ram, c, k');
    ForkReuse(k, e, m2);
    SuccessReuse(k, k', c);
  }

  // ---------- a fork that fails ----------

  lemma RollbackPagesKept(k: Kernel, e: Mem, m2: Mem, c: int)
    requires IsNewFrame(k, c) && Inv(e) && Calls(k) && 1 <= |FreeFrames(e)| < FRAMES_PER_TASK && e.dir == k.mem.dir
    requires m2 == Rollback(e, k.pcbOf[k.sched.cur], FreeFrames(e)) && PcbWordsKept(k.mem.ram, e.ram, k.pcbOf)
    requires forall p :: p in k.pcbOf ==> k.pcbOf[p] !in FreeFrames(e)
    ensures |m2.ram| == TOTAL_PAGES && PcbWordsKept(k.mem.ram, m2.ram, k.pcbOf)
    ensures forall p :: p in k.pcbOf ==> m2.ram[k.pcbOf[p]] == e.ram[k.pcbOf[p]]
  {
    RollbackPages(e, k.pcbOf[k.sched.cur]);
    forall p | p in k.pcbOf ensures m2.ram[k.pcbOf[p]] == e.ram[k.pcbOf[p]] {
      RollbackSpares(e, k.pcbOf[k.sched.cur], k.pcbOf[p]);
    }
    ForkedWords(k, e, m2, c);
  }

  /** The PCB that is given up has its caller's links, so its list_del changes no family. */
  lemma GivenUpWords(k: Kernel, e: seq<Page>, ram: seq<Page>, c: int)
    requires IsNewFrame(k, c) && |e| == |ram| == TOTAL_PAGES && k.sched.cur in k.sched.live
    requires LinksFit(e, k.vars, LiveFrames(k.pcbOf, k.sched.live), {}) && ram[c] == e[k.pcbOf[k.sched.cur]]
    ensures PcbWordsKept(ram, Del(ram, Member(c, TASK_LIST)), k.pcbOf)
  {
    var t := k.pcbOf[k.sched.cur];
    LinksOf(e, k.vars, LiveFrames(k.pcbOf, k.sched.live), true, Member(t, TASK_LIST));
    assert Plus(Member(t, TASK_LIST), 1) == Member(t, TASK_LIST + 1);
    assert Plus(Member(c, TASK_LIST), 1) == Member(c, TASK_LIST + 1);
    assert Next(ram, Member(c, TASK_LIST)) == Next(e, Member(t, TASK_LIST));
    assert Prev(ram, Member(c, TASK_LIST)) == Prev(e, Member(t, TASK_LIST));
    DelKeepsWords(ram, k.vars, k.pcbOf, c);
  }

  lemma GivenUpReuse(k: Kernel, fs: seq<int>, k': Kernel)
    requires NotReused(k) && k'.pcbOf == k.pcbOf && k'.sched == k.sched && fs != []
    requires k'.mem.own == if |fs| == 1 then k.mem.own else k.mem.own[fs[1] := Leaked]
    requires forall p :: p in k.pcbOf ==> k.pcbOf[p] !in fs
    ensures NotReused(k')
  {
  }

  lemma FailureFamilies(k: Kernel, e: Mem, c: int, k': Kernel)
    requires FamilyInv(k) && Calls(k) && NoReuse(k, CallFork) && 1 <= |FreeFrames(k.mem)| < FRAMES_PER_TASK
    requires c == FreeFrames(k.mem)[0] && e == Enlisted(k.mem, k.vars) && Inv(e)
    requires var m2 := Rollback(e, k.pcbOf[k.sched.cur], FreeFrames(e));
      k' == k.(mem := m2.(ram := Del(m2.ram, Member(c, TASK_LIST))))
    ensures NotReused(k') && FamiliesHold(k')
  {
    var t, m2 := k.pcbOf[k.sched.cur], Rollback(e, k.pcbOf[k.sched.cur], FreeFrames(e));
    assert FreeFrames(e) == FreeFrames(k.mem);
    CallerIs(k);
    ForkIsApart(k);
    EnlistedWords(k, e);
    EnlistedLinks(k, e);
    RollbackPagesKept(k, e, m2, c);
    RollbackOwns(e, t);
    GivenUpWords(k, e.ram, m2.ram, c);
    KeptFamilies(k, k');
    GivenUpReuse(k, FreeFrames(e), k');
  }

  lemma ForkFamilies(k: Kernel, k': Kernel)
    requires FamilyInv(k) && Calls(k) && FamilyStep(k, CallFork) && k' == KernelStep(k, CallFork)
    ensures NotReused(k') && FamiliesHold(k')
  {
    var t := k.pcbOf[k.sched.cur];
    ForkStepIs(k, t, k');
    if FreeFrames(k.mem) != [] {
      var e, c := Enlisted(k.mem, k.vars), FreeFrames(k.mem)[0];
      TableForkKeeps(k.mem, k.vars, t);
      OutcomeIs(k, t, e, c, k');
      if |FreeFrames(k.mem)| >= FRAMES_PER_TASK { SuccessFamilies(k, e, c, k'); } else { FailureFamilies(k, e, c, k'); }
    }
  }

  // ---------- steps and runs ----------

  /** Every step that allocates no frame of a task that has exited keeps the families in memory. */
  lemma FamilyStepKeeps(k: Kernel, op: KernelOp)
    requires FamilyInv(k) && FamilyStep(k, op)
    ensures FamilyInv(KernelStep(k, op))
  {
    FamilyAllows(k, op);
    KernelStepKeeps(k, op);
    match op
    case Scheduled(o) => ScheduledFamilies(k, o);
    case CallFork => if Calls(k) { ForkFamilies(k, KernelStep(k, op)); }
    case CallExit => if Calls(k) { ExitFamilies(k, KernelStep(k, op)); }
    case _ => MemoryCallFamilies(k, op);
  }

  /** Such a run is one of the kernel, and keeps the families. */
  lemma {:induction false} FamilyRunKeeps(k: Kernel, ops: seq<KernelOp>, k': Kernel)
    requires FamilyInv(k) && FamilyReaches(k, ops, k')
    ensures FamilyInv(k') && KernelReaches(k, ops, k')
    decreases |ops|
  {
    if ops != [] {
      FamilyAllows(k, ops[0]);
      FamilyStepKeeps(k, ops[0]);
      FamilyRunKeeps(KernelStep(k, ops[0]), ops[1..], k');
    }
  }

  // ---------- runs without exit ----------

  /** Nobody has exited. */
  ghost predicate AllAlive(k: Kernel) {
    k.pcbOf.Keys <= k.sched.live
  }

  lemma ForkStaysAlive(k: Kernel, m': Mem, r: Forked)
    requires AllAlive(k)
    ensures AllAlive(AfterFork(k, m', r))
  {
    AfterForkIs(k, m', r);
    ForkFields(k.sched);
  }

  lemma StaysAlive(k: Kernel, op: KernelOp)
    requires Sized(k.mem) && AllAlive(k) && !op.CallExit?
    ensures AllAlive(KernelStep(k, op))
  {
    if op.Scheduled? {
      if !op.op.OpFork? && !op.op.OpExit? {
        ScheduledIs(k, op.op);
        SameNames(k.sched, op.op);
      }
    } else if op.CallFork? {
      if Calls(k) {
        var t := k.pcbOf[k.sched.cur];
        ForkStepIs(k, t, KernelStep(k, op));
        ForkStaysAlive(k, LinkedFork(k.mem, k.vars, t).0, LinkedFork(k.mem, k.vars, t).1);
      }
    } else {
      MemoryCallIs(k, op);
    }
  }

  /** Without exit, no condition but that on the list operations of fork is left, however many forks fail. */
  lemma {:induction false} ExitFreeRun(k: Kernel, ops: seq<KernelOp>, k': Kernel)
    requires FamilyInv(k) && AllAlive(k) && KernelReaches(k, ops, k') && CallExit !in ops
    ensures FamilyReaches(k, ops, k') && FamilyInv(k')
    decreases |ops|
  {
    if ops != [] {
      assert ops[0] in ops && FamilyStep(k, ops[0]);
      FamilyStepKeeps(k, ops[0]);
      StaysAlive(k, ops[0]);
      ExitFreeRun(KernelStep(k, ops[0]), ops[1..], k');
    }
  }
}
