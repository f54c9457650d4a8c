/**
 * Runs on which list operations may write into pages that tasks see, but change no user table: ownership, reference
 * counts and the accounting of frames hold over them.
 */
module TableRuns {
  import opened Machine
  import opened Memory
  import opened MemoryTheorems
  import opened Balance
  import opened PcbLists
  import opened LinkedMemory
  import opened LinkedRuns
  import opened LinkedBoot
  import opened TableSafety
  import MR = MemoryRuns

  // ---------- the condition ----------

  /**
   * A write there is one to a word of memory that this model has: a list head or list word, or a page of a task, or a
   * frame that nobody uses. Other words of PCBs and the kernel's variables are not among its pages.
   */
  ghost predicate Sound(m: Mem, v: Vars, p: Place) {
    if p.frame in m.own then
      match m.own[p.frame]
      case Pcb(_) => LinkWord(p.index)
      case Pinned => p in v.heads || (p.frame == v.idlePcb && LinkWord(p.index)) || p.frame in m.boot.code
      case _ => true
    else m.boot.lastKernel <= p.frame < TOTAL_PAGES
  }

  ghost predicate LaterSound(m: Mem, v: Vars, t: int)
    requires Sized(m) && FreeFrames(m) != []
  {
    var fs := FreeFrames(m);
    if |fs| >= FRAMES_PER_TASK then
      var last := Prev(m.ram, Member(t, CHILDREN_UNBLOCKED));
      if last.frame == fs[0] then LinkWord(last.index) else last.frame in fs[..FRAMES_PER_TASK] || Sound(m, v, last)
    else
      && Sound(m, v, Plus(Next(m.ram, Member(t, TASK_LIST)), 1))
      && Sound(m, v, Prev(m.ram, Member(t, TASK_LIST)))
  }

  ghost predicate ForkSound(m: Mem, v: Vars, t: int)
    requires Sized(m) && t in m.dir
  {
    FreeFrames(m) != [] ==> Sound(m, v, Prev(m.ram, v.tasks)) && LaterSound(Enlisted(m, v), v, t)
  }

  ghost predicate SoundOnceGone(m: Mem, v: Vars, t: int, p: Place)
    requires Sized(m) && t in m.dir
  {
    Sound(m, v, p) || p.frame in TaskFrameList(m, t) || GoesWith(m, t, p.frame)
  }

  ghost predicate ExitSound(m: Mem, v: Vars, t: int)
    requires Sized(m) && t in m.dir
  {
    && SoundOnceGone(m, v, t, Plus(Next(m.ram, Member(t, TASK_LIST)), 1))
    && SoundOnceGone(m, v, t, Prev(m.ram, Member(t, TASK_LIST)))
  }

  /** The words that a list operation on its own writes. */
  ghost function ListHits(ram: seq<Page>, op: LinkedOp): set<Place> {
    match op
    case MoveStep(e, h) => DelHits(ram, e) + AddTailHits(Del(ram, e), e, h)
    case AddStep(e, h) => AddTailHits(ram, e, h)
    case DeleteStep(e) => DelHits(ram, e)
    case CountStep(p, _) => {p}
    case _ => {}
  }

  ghost predicate SoundPart(m: Mem, v: Vars, op: LinkedOp)
    requires Sized(m)
  {
    match op
    case ForkStep(t) => t in m.dir ==> ForkSound(m, v, t)
    case ExitStep(t) => t in m.dir ==> ExitSound(m, v, t)
    case MemoryStep(_) => true
    case _ => forall p :: p in ListHits(m.ram, op) ==> Sound(m, v, p)
  }

  /** No user table changes, by the state before the step. */
  ghost predicate TablePart(m: Mem, v: Vars, op: LinkedOp)
    requires Sized(m)
  {
    match op
    case ForkStep(t) => t in m.dir ==> ForkTableGuard(m, v, t)
    case ExitStep(t) => t in m.dir ==> ExitTableGuard(m, t)
    case MemoryStep(_) => true
    case _ => SameTables(m, m.(ram := ListPart(m.ram, op)))
  }

  ghost predicate TableGuard(m: Mem, v: Vars, op: LinkedOp)
    requires Sized(m)
  {
    SoundPart(m, v, op) && TablePart(m, v, op)
  }

  /** The invariant after the step; for a fork, after alloc_pcb too. */
  ghost predicate StepKeepsInv(m: Mem, v: Vars, op: LinkedOp)
    requires Sized(m)
  {
    match op
    case ForkStep(t) => t in m.dir ==> ForkKeepsInv(m, v, t)
    case _ => Inv(LinkedStep(m, v, op))
  }

  lemma MoveAbsent(ram: seq<Page>, e: Place, h: Place)
    ensures OnlyAbsent(ram, Move(ram, e, h))
  {
    DelAbsent(ram, ram, e);
    AddTailAbsent(ram, Del(ram, e), e, h);
  }

  /**
   * The step keeps ownership and reference counts consistent if and only if the condition on tables holds before it.
   */
  lemma TablePartIsExact(m: Mem, v: Vars, op: LinkedOp)
    requires Inv(m) && VarsOk(m, v) && (op.CountStep? ==> !op.w.present)
    ensures StepKeepsInv(m, v, op) <==> TablePart(m, v, op)
  {
    var m' := m.(ram := ListPart(m.ram, op));
    match op
    case ForkStep(t) => if t in m.dir { ForkTableGuardIsExact(m, v, t); }
    case ExitStep(t) => if t in m.dir { ExitTableGuardIsExact(m, t); }
    case MemoryStep(o) => if !o.OpFork? && !o.OpExit? { MR.StepKeeps(m, o); }
    case MoveStep(e, h) =>
      MoveAbsent(m.ram, e, h);
      TablesExact(m, m');
    case AddStep(e, h) =>
      AddTailAbsent(m.ram, m.ram, e, h);
      TablesExact(m, m');
    case DeleteStep(e) =>
      DelAbsent(m.ram, m.ram, e);
      TablesExact(m, m');
    case CountStep(p, w) =>
      PutAbsent(m.ram, m.ram, p, w);
      TablesExact(m, m');
  }

  // ---------- steps and runs ----------

  lemma TableForkKeeps(m: Mem, v: Vars, t: int)
    requires Inv(m) && VarsOk(m, v) && t in m.dir && ForkTableGuard(m, v, t)
    ensures Inv(LinkedFork(m, v, t).0) && LinkedFork(m, v, t).0.boot == m.boot
    ensures FreeFrames(m) != [] ==> Inv(Enlisted(m, v)) && SameTables(m, Enlisted(m, v))
  {
    ForkTableGuardIsExact(m, v, t);
    if FreeFrames(m) != [] {
      EnlistKeepsTables(m, v);
      ForkTasks(Enlisted(m, v), t);
    }
  }

  lemma TableStepKeeps(m: Mem, v: Vars, op: LinkedOp)
    requires Inv(m) && VarsOk(m, v) && TableGuard(m, v, op)
    ensures Inv(LinkedStep(m, v, op)) && VarsOk(LinkedStep(m, v, op), v)
  {
    match op
    case ForkStep(t) => if t in m.dir { TableForkKeeps(m, v, t); }
    case ExitStep(t) =>
      if t in m.dir {
        ExitTableGuardIsExact(m, t);
        ExitTasks(m, t);
      }
    case MemoryStep(o) =>
      if !o.OpFork? && !o.OpExit? {
        MR.StepKeeps(m, o);
        OtherTasks(m, o);
      }
    case _ => TablesKeep(m, m.(ram := ListPart(m.ram, op)));
  }

  ghost predicate TableReaches(m: Mem, v: Vars, ops: seq<LinkedOp>, m': Mem)
    decreases |ops|
  {
    if ops == [] then m' == m
    else Sized(m) && TableGuard(m, v, ops[0]) && TableReaches(LinkedStep(m, v, ops[0]), v, ops[1..], m')
  }

  lemma {:induction false} TableRunKeeps(m: Mem, v: Vars, ops: seq<LinkedOp>, m': Mem)
    requires Inv(m) && VarsOk(m, v) && TableReaches(m, v, ops, m')
    ensures Inv(m') && VarsOk(m', v)
    decreases |ops|
  {
    if ops != [] {
      TableStepKeeps(m, v, ops[0]);
      TableRunKeeps(LinkedStep(m, v, ops[0]), v, ops[1..], m');
    }
  }

  lemma TableReachableInv(lastKernel: nat, ram: seq<Page>, v: Vars, ops: seq<LinkedOp>, m: Mem)
    requires 0x10 < lastKernel <= TOTAL_PAGES - MR.BOOT_FRAMES && |ram| == TOTAL_PAGES && BootVars(lastKernel, v)
    requires TableReaches(BootState(lastKernel, ram, v.tasks), v, ops, m)
    ensures Inv(m)
  {
    BootStateInv(lastKernel, ram, v);
    TableRunKeeps(BootState(lastKernel, ram, v.tasks), v, ops, m);
  }

  // ---------- harmless writes are among them ----------

  lemma AlikeSameTables(m: Mem, m': Mem)
    requires Core(m) && Alike(m, m')
    ensures SameTables(m, m')
  {
    AlikeTables(m, m');
  }

  lemma GuardedFork(m: Mem, v: Vars, t: int)
    requires Inv(m) && VarsOk(m, v) && t in m.dir && ForkGuard(m, v, t)
    ensures ForkSound(m, v, t) && ForkTableGuard(m, v, t)
  {
    if FreeFrames(m) != [] {
      LinkedForkIsFork(m, v, t);
      ForkTableGuardIsExact(m, v, t);
    }
  }

  /** The stronger condition implies this one. */
  lemma GuardIsEnough(m: Mem, v: Vars, op: LinkedOp)
    requires Inv(m) && VarsOk(m, v) && Guard(m, v, op)
    ensures TableGuard(m, v, op)
  {
    match op
    case ForkStep(t) => if t in m.dir { GuardedFork(m, v, t); }
    case ExitStep(t) =>
      if t in m.dir {
        LinkedExitIsExit(m, v, t);
        ExitTableGuardIsExact(m, t);
      }
    case MemoryStep(o) =>
    case _ =>
      GuardedList(m, v, op);
      ListStepIsAlike(m, v, op);
      AlikeSameTables(m, LinkedStep(m, v, op));
  }

  lemma GuardedList(m: Mem, v: Vars, op: LinkedOp)
    requires Inv(m) && VarsOk(m, v) && Guard(m, v, op) && !op.ForkStep? && !op.ExitStep? && !op.MemoryStep?
    ensures forall p :: p in ListHits(m.ram, op) ==> Sound(m, v, p)
  {
    if op.MoveStep? { MoveGuardIsExact(m, v, op.e, op.h); }
  }

  lemma {:induction false} GuardedRun(m: Mem, v: Vars, ops: seq<LinkedOp>, m': Mem)
    requires Inv(m) && VarsOk(m, v) && LinkedReaches(m, v, ops, m')
    ensures TableReaches(m, v, ops, m')
    decreases |ops|
  {
    if ops != [] {
      GuardIsEnough(m, v, ops[0]);
      LinkedStepKeeps(m, v, ops[0]);
      GuardedRun(LinkedStep(m, v, ops[0]), v, ops[1..], m');
    }
  }

  // ---------- accounting ----------

  lemma RamBalance(m: Mem, m': Mem)
    requires Sized(m) && m' == m.(ram := m'.ram) && |m'.ram| == |m.ram|
    ensures Sized(m') && Total(m') == Total(m) && LeakedFrames(m') == LeakedFrames(m) && Available(m') == Available(m)
  {
    assert Allocated(m') == Allocated(m);
  }

  /** Frames left and error codes of a fork, with its list words. */
  lemma TableForkAccounting(m: Mem, v: Vars, t: int)
    requires Inv(m) && VarsOk(m, v) && t in m.dir && ForkTableGuard(m, v, t)
    ensures var n, m', r := Available(m), LinkedFork(m, v, t).0, LinkedFork(m, v, t).1;
      && Sized(m') && Total(m') == Total(m)
      && |LeakedFrames(m')| == |LeakedFrames(m)| + (if 2 <= n < FRAMES_PER_TASK then 1 else 0)
      && (n >= FRAMES_PER_TASK ==> r == Child(NextFree(m)) && Available(m') == n - FRAMES_PER_TASK)
      && (2 <= n < FRAMES_PER_TASK ==> r == Failed(EAGAIN) && Available(m') == n - 1)
      && (n == 1 ==> r == Failed(EAGAIN) && Available(m') == n)
      && (n == 0 ==> r == Failed(ENOMEM) && Available(m') == n)
  {
    if FreeFrames(m) == [] {
      ForkAccounting(m, t);
    } else {
      var e := Enlisted(m, v);
      TableForkKeeps(m, v, t);
      RamBalance(m, e);
      ForkAccounting(e, t);
      ForkTasks(e, t);
      RamBalance(Fork(e, t).0, LinkedFork(m, v, t).0);
    }
  }

  lemma TableStepConserves(m: Mem, v: Vars, op: LinkedOp)
    requires Inv(m) && VarsOk(m, v) && TableGuard(m, v, op)
    ensures var m' := LinkedStep(m, v, op);
      && Sized(m') && Total(m') == Total(m)
      && |LeakedFrames(m')| == |LeakedFrames(m)| + if LinkedLeaks(m, op) then 1 else 0
  {
    match op
    case ForkStep(t) => if t in m.dir { TableForkAccounting(m, v, t); }
    case ExitStep(t) =>
      if t in m.dir {
        ExitBalance(m, t);
        RamBalance(Exit(m, t), LinkedExit(m, t));
      }
    case MemoryStep(o) => if !o.OpFork? && !o.OpExit? { StepConserves(m, o); }
    case _ => RamBalance(m, LinkedStep(m, v, op));
  }

  /** Over every such run nothing is lost but one directory for each fork that fails with 2 to 22 frames free. */
  lemma {:induction false} TableRunConserves(m: Mem, v: Vars, ops: seq<LinkedOp>, m': Mem)
    requires Inv(m) && VarsOk(m, v) && TableReaches(m, v, ops, m')
    ensures Sized(m') && Total(m') == Total(m)
    ensures |LeakedFrames(m')| == |LeakedFrames(m)| + LinkedLeakCount(m, v, ops)
    decreases |ops|
  {
    if ops != [] {
      TableStepKeeps(m, v, ops[0]);
      TableStepConserves(m, v, ops[0]);
      TableRunConserves(LinkedStep(m, v, ops[0]), v, ops[1..], m');
    }
  }

  /** exit with its list_del gives back 23 frames and one for each shared page that it reclaims, and leaks none. */
  lemma LinkedExitBalance(m: Mem, v: Vars, t: int)
    requires Inv(m) && VarsOk(m, v) && t in m.dir && ExitTableGuard(m, t)
    ensures var m' := LinkedExit(m, t);
      && Inv(m') && Available(m') == Available(m) + FRAMES_PER_TASK + |Allocated(m)| - |Allocated(m')|
      && LeakedFrames(m') == LeakedFrames(m)
  {
    ExitTableGuardIsExact(m, t);
    ExitBalance(m, t);
    RamBalance(Exit(m, t), LinkedExit(m, t));
  }
}
