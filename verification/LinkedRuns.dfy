/** Runs of the memory calls with all the words that list operations write, under a guard on each step. */
module LinkedRuns {
  import opened Machine
  import opened Memory
  import opened MemoryInvariant
  import opened TaskLife
  import opened MemoryTheorems
  import opened Balance
  import opened Isolation
  import opened PcbLists
  import opened LinkedMemory
  import MR = MemoryRuns

  // ---------- moving a node from one list to another ----------

  /** list_del and list_add_tail, as in block, unblock and update_process_state_rr. */
  function Move(ram: seq<Page>, e: Place, h: Place): (ram': seq<Page>)
    ensures |ram'| == |ram|
  {
    AddTail(Del(ram, e), e, h)
  }

  ghost predicate MoveIsSafe(m: Mem, v: Vars, e: Place, h: Place) {
    AllHarmless(m, v, DelHits(m.ram, e)) && AllHarmless(m, v, AddTailHits(Del(m.ram, e), e, h))
  }

  /** The last node of the list h once e has been taken out of the list that it is in. */
  function LastAfter(ram: seq<Page>, e: Place, h: Place): Place {
    var q := Plus(h, 1);
    if q == e || q == Plus(e, 1) then NULL
    else if q == Prev(ram, e) then Next(ram, e)
    else if q == Plus(Next(ram, e), 1) then Prev(ram, e)
    else Prev(ram, h)
  }

  /** Before the call: the node, its neighbours, the head and the list's last node are where it does no harm. */
  ghost predicate MoveGuard(m: Mem, v: Vars, e: Place, h: Place) {
    && Harmless(m, v, e) && Harmless(m, v, Plus(e, 1))
    && Harmless(m, v, Plus(Next(m.ram, e), 1)) && Harmless(m, v, Prev(m.ram, e))
    && Harmless(m, v, Plus(h, 1)) && Harmless(m, v, LastAfter(m.ram, e, h))
  }

  lemma HarmlessInRam(m: Mem, v: Vars, p: Place)
    requires Core(m) && Harmless(m, v, p)
    ensures p.frame < |m.ram|
  {
  }

  lemma LastAfterDel(ram: seq<Page>, e: Place, h: Place)
    requires e.frame < |ram| && Plus(e, 1).frame < |ram|
    requires Plus(Next(ram, e), 1).frame < |ram| && Prev(ram, e).frame < |ram|
    ensures Prev(Del(ram, e), h) == LastAfter(ram, e, h)
  {
    DelReads(ram, e, Plus(h, 1));
    PointersAreAddresses(Next(ram, e));
    PointersAreAddresses(Prev(ram, e));
  }

  /** The guard is exact: moving a node is harmless if and only if it holds before the call. */
  lemma MoveGuardIsExact(m: Mem, v: Vars, e: Place, h: Place)
    requires Inv(m)
    ensures MoveIsSafe(m, v, e, h) <==> MoveGuard(m, v, e, h)
  {
    var hits := DelHits(m.ram, e);
    assert AllHarmless(m, v, hits) <==>
      Harmless(m, v, e) && Harmless(m, v, Plus(e, 1)) && Harmless(m, v, Plus(Next(m.ram, e), 1))
        && Harmless(m, v, Prev(m.ram, e));
    if AllHarmless(m, v, hits) {
      HarmlessInRam(m, v, e);
      HarmlessInRam(m, v, Plus(e, 1));
      HarmlessInRam(m, v, Plus(Next(m.ram, e), 1));
      HarmlessInRam(m, v, Prev(m.ram, e));
      LastAfterDel(m.ram, e, h);
    }
  }

  /** The head to which block moves the caller: its parent's blocked children, by its pointer to the parent. */
  function BlockHead(ram: seq<Page>, t: int): Place {
    Plus(Target(WordAt(ram, Member(t, PARENT))), CHILDREN_BLOCKED)
  }

  lemma OwnWords(m: Mem, v: Vars, t: int, k: Index)
    requires Core(m) && t in m.dir && LinkWord(k) && LinkWord(k + 1)
    ensures Harmless(m, v, Member(t, k)) && Harmless(m, v, Plus(Member(t, k), 1))
  {
    TaskFrames(m, t);
    MemberOf(m, t, k);
  }

  /** block: the caller's neighbours, its parent's head and the last child there decide. */
  lemma BlockGuardIsExact(m: Mem, v: Vars, t: int)
    requires Inv(m) && t in m.dir
    ensures var e, h := Member(t, SIBILING), BlockHead(m.ram, t);
      MoveIsSafe(m, v, e, h) <==>
        && Harmless(m, v, Plus(Next(m.ram, e), 1)) && Harmless(m, v, Prev(m.ram, e))
        && Harmless(m, v, Plus(h, 1)) && Harmless(m, v, LastAfter(m.ram, e, h))
  {
    OwnWords(m, v, t, SIBILING);
    MoveGuardIsExact(m, v, Member(t, SIBILING), BlockHead(m.ram, t));
  }

  /** unblock: the child's node, its neighbours and the caller's last unblocked child decide. */
  lemma UnblockGuardIsExact(m: Mem, v: Vars, t: int, e: Place)
    requires Inv(m) && t in m.dir
    ensures var h := Member(t, CHILDREN_UNBLOCKED);
      MoveIsSafe(m, v, e, h) <==>
        && Harmless(m, v, e) && Harmless(m, v, Plus(e, 1))
        && Harmless(m, v, Plus(Next(m.ram, e), 1)) && Harmless(m, v, Prev(m.ram, e))
        && Harmless(m, v, LastAfter(m.ram, e, h))
  {
    OwnWords(m, v, t, CHILDREN_UNBLOCKED);
    MoveGuardIsExact(m, v, e, Member(t, CHILDREN_UNBLOCKED));
  }

  // ---------- steps ----------

  /**
   * What happens next to memory. The list operations of block, unblock and the scheduler are steps of their own, on any
   * nodes: MoveStep, AddStep and DeleteStep; and the count of pending unblocks is a CountStep.
   */
  datatype LinkedOp =
    | ForkStep(task: int)
    | ExitStep(task: int)
    | MemoryStep(op: MR.MemOp)
    | MoveStep(e: Place, h: Place)
    | AddStep(e: Place, h: Place)
    | DeleteStep(e: Place)
    | CountStep(p: Place, w: Word)

  function ListPart(ram: seq<Page>, op: LinkedOp): (ram': seq<Page>)
    ensures |ram'| == |ram|
  {
    match op
    case MoveStep(e, h) => Move(ram, e, h)
    case AddStep(e, h) => AddTail(ram, e, h)
    case DeleteStep(e) => Del(ram, e)
    case CountStep(p, w) => Put(ram, p, w)
    case _ => ram
  }

  function LinkedStep(m: Mem, v: Vars, op: LinkedOp): Mem
    requires Sized(m)
  {
    match op
    case ForkStep(t) => if t in m.dir then LinkedFork(m, v, t).0 else m
    case ExitStep(t) => if t in m.dir then LinkedExit(m, t) else m
    case MemoryStep(o) => if o.OpFork? || o.OpExit? then m else MR.Step(m, o)
    case _ => m.(ram := ListPart(m.ram, op))
  }

  /** The condition on a step, on the state before it. */
  ghost predicate Guard(m: Mem, v: Vars, op: LinkedOp)
    requires Sized(m)
  {
    match op
    case ForkStep(t) => t in m.dir ==> ForkGuard(m, v, t)
    case ExitStep(t) => t in m.dir ==> ExitGuard(m, v, t)
    case MemoryStep(_) => true
    case MoveStep(e, h) => MoveGuard(m, v, e, h)
    case AddStep(e, h) => AllHarmless(m, v, AddTailHits(m.ram, e, h))
    case DeleteStep(e) => AllHarmless(m, v, DelHits(m.ram, e))
    case CountStep(p, _) => Harmless(m, v, p)
  }

  lemma SameVars(m: Mem, m': Mem, v: Vars)
    requires VarsOk(m, v) && m'.boot == m.boot
    ensures VarsOk(m', v)
  {
  }

  /** A guarded list operation is harmless. */
  lemma ListStepIsAlike(m: Mem, v: Vars, op: LinkedOp)
    requires Inv(m) && VarsOk(m, v) && Guard(m, v, op) && !op.ForkStep? && !op.ExitStep? && !op.MemoryStep?
    ensures Alike(m, LinkedStep(m, v, op)) && Inv(LinkedStep(m, v, op))
  {
    match op
    case MoveStep(e, h) =>
      MoveGuardIsExact(m, v, e, h);
      DelIsAlike(m, v, e);
      var m1 := m.(ram := Del(m.ram, e));
      assert AllHarmless(m1, v, AddTailHits(m1.ram, e, h)) by { SameHarm(m, m1, v); }
      AddTailIsAlike(m1, v, e, h);
      AlikeChains(m, m1, LinkedStep(m, v, op));
    case AddStep(e, h) => AddTailIsAlike(m, v, e, h);
    case DeleteStep(e) => DelIsAlike(m, v, e);
    case CountStep(p, w) =>
      PutStaysWithin(m.ram, m.ram, p, w, {p});
      HarmlessIsAlike(m, v, Put(m.ram, p, w), {p});
      AlikeKeeps(m, LinkedStep(m, v, op));
  }

  lemma SameHarm(m: Mem, m': Mem, v: Vars)
    requires m'.own == m.own && m'.boot == m.boot
    ensures forall p :: Harmless(m', v, p) <==> Harmless(m, v, p)
  {
  }

  /** Under its guard, exit with its list_del is exit without it but for harmless words. */
  lemma LinkedExitIsExit(m: Mem, v: Vars, t: int)
    requires Inv(m) && VarsOk(m, v) && t in m.dir && ExitGuard(m, v, t)
    ensures Inv(Exit(m, t)) && Alike(Exit(m, t), LinkedExit(m, t)) && Inv(LinkedExit(m, t))
    ensures LinkedExit(m, t).boot == m.boot
  {
    ExitGuardIsExact(m, v, t);
    ExitKeeps(m, t);
    ExitTasks(m, t);
    SameVars(m, Exit(m, t), v);
    DelIsAlike(Exit(m, t), v, Member(t, TASK_LIST));
  }

  lemma LinkedForkKeeps(m: Mem, v: Vars, t: int)
    requires Inv(m) && VarsOk(m, v) && t in m.dir && ForkGuard(m, v, t)
    ensures Inv(LinkedFork(m, v, t).0) && LinkedFork(m, v, t).0.boot == m.boot
  {
    if FreeFrames(m) != [] {
      LinkedForkIsFork(m, v, t);
      ForkTasks(Enlisted(m, v), t);
    }
  }

  /** Every guarded step keeps the invariant of memory. */
  lemma LinkedStepKeeps(m: Mem, v: Vars, op: LinkedOp)
    requires Inv(m) && VarsOk(m, v) && Guard(m, v, op)
    ensures Inv(LinkedStep(m, v, op)) && VarsOk(LinkedStep(m, v, op), v)
  {
    match op
    case ForkStep(t) => if t in m.dir { LinkedForkKeeps(m, v, t); }
    case ExitStep(t) => if t in m.dir { LinkedExitIsExit(m, v, t); }
    case MemoryStep(o) =>
      if !o.OpFork? && !o.OpExit? {
        MR.StepKeeps(m, o);
        OtherTasks(m, o);
      }
    case _ => ListStepIsAlike(m, v, op);
  }

  /** m' is reached from m by guarded steps. */
  ghost predicate LinkedReaches(m: Mem, v: Vars, ops: seq<LinkedOp>, m': Mem)
    decreases |ops|
  {
    if ops == [] then m' == m
    else Sized(m) && Guard(m, v, ops[0]) && LinkedReaches(LinkedStep(m, v, ops[0]), v, ops[1..], m')
  }

  lemma {:induction false} LinkedRunKeeps(m: Mem, v: Vars, ops: seq<LinkedOp>, m': Mem)
    requires Inv(m) && VarsOk(m, v) && LinkedReaches(m, v, ops, m')
    ensures Inv(m') && VarsOk(m', v)
    decreases |ops|
  {
    if ops != [] {
      LinkedStepKeeps(m, v, ops[0]);
      LinkedRunKeeps(LinkedStep(m, v, ops[0]), v, ops[1..], m');
    }
  }

  // ---------- what tasks see ----------

  /** A guarded fork changes nothing that a task alive before it can see. */
  lemma LinkedForkDisturbsNobody(m: Mem, v: Vars, t: int, s: int, i: int)
    requires Inv(m) && VarsOk(m, v) && t in m.dir && ForkGuard(m, v, t) && s in m.dir && 0 <= i < PT_ENTRIES
    ensures var m' := LinkedFork(m, v, t).0;
      s in m'.dir && Tab(m', s) == Tab(m, s) && (Tab(m, s)[i].present ==> Load(m', s, i) == Load(m, s, i))
  {
    if FreeFrames(m) != [] {
      var m1 := Enlisted(m, v);
      LinkedForkIsFork(m, v, t);
      AlikeTables(m, m1);
      ForkDisturbsNobody(m1, t, s, i);
      ForkKeeps(m1, t);
      AlikeTables(Fork(m1, t).0, LinkedFork(m, v, t).0);
    }
  }

  /** After a guarded fork the child maps what its parent maps and reads the same there; its data frames were free. */
  lemma LinkedForkPreservesView(m: Mem, v: Vars, t: int, i: int)
    requires Inv(m) && VarsOk(m, v) && t in m.dir && ForkGuard(m, v, t) && 0 <= i < PT_ENTRIES
    requires LinkedFork(m, v, t).1.Child?
    ensures var m', c := LinkedFork(m, v, t).0, LinkedFork(m, v, t).1.pcb;
      && c !in m.dir && c in m'.dir
      && (Tab(m', c)[i].present <==> Tab(m, t)[i].present)
      && (Tab(m, t)[i].present ==> Load(m', c, i) == Load(m, t, i))
      && (i < NUM_PAG_DATA ==> Tab(m', c)[i].base !in m.own)
      && (NUM_PAG_DATA <= i ==> Tab(m', c)[i].base == Tab(m, t)[i].base)
  {
    var m1 := Enlisted(m, v);
    LinkedForkIsFork(m, v, t);
    AlikeTables(m, m1);
    ForkPreservesView(m1, t, i);
    ForkKeeps(m1, t);
    AlikeTables(Fork(m1, t).0, LinkedFork(m, v, t).0);
  }

  lemma AlikeIsUntouched(m: Mem, m': Mem, s: int)
    requires Core(m) && Alike(m, m') && s in m.dir
    ensures Untouched(m, m', s)
  {
    AlikeTables(m, m');
    assert TableOk(m, Tab(m, s));
  }

  lemma UntouchedChains(m: Mem, m1: Mem, m2: Mem, s: int)
    requires Untouched(m, m1, s) && Untouched(m1, m2, s)
    ensures Untouched(m, m2, s)
  {
  }

  /** Who makes a step, if a task does. */
  predicate IsBy(op: LinkedOp, s: int) {
    match op
    case ForkStep(t) => t == s
    case ExitStep(t) => t == s
    case MemoryStep(o) => o.task == s
    case _ => false
  }

  /** No guarded step of another task, nor any list operation, reaches a task's table or data pages. */
  lemma LinkedStepSparesOthers(m: Mem, v: Vars, op: LinkedOp, s: int)
    requires Inv(m) && VarsOk(m, v) && Guard(m, v, op) && s in m.dir && !IsBy(op, s)
    ensures Untouched(m, LinkedStep(m, v, op), s)
  {
    match op
    case ForkStep(t) =>
      if t in m.dir && FreeFrames(m) != [] {
        LinkedForkIsFork(m, v, t);
        ForkKeeps(Enlisted(m, v), t);
        SparedByFork(m, Enlisted(m, v), LinkedFork(m, v, t).0, t, s);
      }
    case ExitStep(t) =>
      if t in m.dir {
        LinkedExitIsExit(m, v, t);
        ExitSpares(m, t, s);
        AlikeIsUntouched(Exit(m, t), LinkedExit(m, t), s);
        UntouchedChains(m, Exit(m, t), LinkedExit(m, t), s);
      }
    case MemoryStep(o) => if !o.OpFork? && !o.OpExit? { OthersAreSpared(m, o, s); }
    case _ =>
      ListStepIsAlike(m, v, op);
      AlikeIsUntouched(m, LinkedStep(m, v, op), s);
  }

  lemma SparedByFork(m: Mem, m1: Mem, m': Mem, t: int, s: int)
    requires Inv(m) && Inv(m1) && Alike(m, m1) && t in m.dir && s in m.dir
    requires Inv(Fork(m1, t).0) && Alike(Fork(m1, t).0, m')
    ensures Untouched(m, m', s)
  {
    var m2 := Fork(m1, t).0;
    AlikeIsUntouched(m, m1, s);
    ForkSpares(m1, t, s);
    AlikeIsUntouched(m2, m', s);
    UntouchedChains(m, m1, m2, s);
    UntouchedChains(m, m2, m', s);
  }

  // ---------- accounting ----------

  lemma AlikeBalance(m: Mem, m': Mem)
    requires Sized(m) && Alike(m, m')
    ensures Sized(m') && Total(m') == Total(m) && LeakedFrames(m') == LeakedFrames(m) && Available(m') == Available(m)
  {
    assert Allocated(m') == Allocated(m);
  }

  /** Whether a step leaks a directory. */
  predicate LinkedLeaks(m: Mem, op: LinkedOp)
    requires Sized(m)
  {
    op.ForkStep? && op.task in m.dir && 2 <= Available(m) < FRAMES_PER_TASK
  }

  lemma LinkedForkConserves(m: Mem, v: Vars, t: int)
    requires Inv(m) && VarsOk(m, v) && t in m.dir && ForkGuard(m, v, t)
    ensures var m' := LinkedFork(m, v, t).0;
      && Sized(m') && Total(m') == Total(m)
      && |LeakedFrames(m')| == |LeakedFrames(m)| + if 2 <= Available(m) < FRAMES_PER_TASK then 1 else 0
  {
    if FreeFrames(m) == [] {
      ForkAccounting(m, t);
    } else {
      LinkedForkIsFork(m, v, t);
      AlikeBalance(m, Enlisted(m, v));
      ForkAccounting(Enlisted(m, v), t);
      AlikeBalance(Fork(Enlisted(m, v), t).0, LinkedFork(m, v, t).0);
    }
  }

  /**
   * A guarded fork with n frames free: it succeeds on the lowest frame and leaves n - 23 if n >= 23; otherwise it
   * fails, and leaves n - 1 if n >= 2, and n if not.
   */
  lemma LinkedForkAccounting(m: Mem, v: Vars, t: int)
    requires Inv(m) && VarsOk(m, v) && t in m.dir && ForkGuard(m, v, t)
    ensures Sized(LinkedFork(m, v, t).0)
    ensures var n, n', r := Available(m), Available(LinkedFork(m, v, t).0), LinkedFork(m, v, t).1;
      && (n >= FRAMES_PER_TASK ==> r == Child(NextFree(m)) && n' == n - FRAMES_PER_TASK)
      && (2 <= n < FRAMES_PER_TASK ==> r == Failed(EAGAIN) && n' == n - 1)
      && (n == 1 ==> r == Failed(EAGAIN) && n' == n)
      && (n == 0 ==> r == Failed(ENOMEM) && n' == n)
  {
    if FreeFrames(m) == [] {
      ForkAccounting(m, t);
    } else {
      var e := Enlisted(m, v);
      LinkedForkIsFork(m, v, t);
      AlikeBalance(m, e);
      ForkAccounting(e, t);
      ForkTasks(e, t);
      AlikeBalance(Fork(e, t).0, LinkedFork(m, v, t).0);
    }
  }

  lemma LinkedStepConserves(m: Mem, v: Vars, op: LinkedOp)
    requires Inv(m) && VarsOk(m, v) && Guard(m, v, op)
    ensures var m' := LinkedStep(m, v, op);
      && Sized(m') && Total(m') == Total(m)
      && |LeakedFrames(m')| == |LeakedFrames(m)| + if LinkedLeaks(m, op) then 1 else 0
  {
    match op
    case ForkStep(t) => if t in m.dir { LinkedForkConserves(m, v, t); }
    case ExitStep(t) =>
      if t in m.dir {
        LinkedExitIsExit(m, v, t);
        ExitBalance(m, t);
        AlikeBalance(Exit(m, t), LinkedExit(m, t));
      }
    case MemoryStep(o) => if !o.OpFork? && !o.OpExit? { StepConserves(m, o); }
    case _ =>
      ListStepIsAlike(m, v, op);
      AlikeBalance(m, LinkedStep(m, v, op));
  }

  ghost function LinkedLeakCount(m: Mem, v: Vars, ops: seq<LinkedOp>): nat
    decreases |ops|
  {
    if ops == [] || !Sized(m) then 0
    else (if LinkedLeaks(m, ops[0]) then 1 else 0) + LinkedLeakCount(LinkedStep(m, v, ops[0]), v, ops[1..])
  }

  /** Over every guarded run nothing is lost but one directory for each fork that fails with 2 to 22 frames free. */
  lemma {:induction false} LinkedRunConserves(m: Mem, v: Vars, ops: seq<LinkedOp>, m': Mem)
    requires Inv(m) && VarsOk(m, v) && LinkedReaches(m, v, ops, m')
    ensures Sized(m') && Total(m') == Total(m)
    ensures |LeakedFrames(m')| == |LeakedFrames(m)| + LinkedLeakCount(m, v, ops)
    decreases |ops|
  {
    if ops != [] {
      LinkedStepKeeps(m, v, ops[0]);
      LinkedStepConserves(m, v, ops[0]);
      LinkedRunConserves(LinkedStep(m, v, ops[0]), v, ops[1..], m');
    }
  }
}
