/** Removal requests over whole runs, the words of list operations included: each request frees its page once. */
module Removals {
  import opened Machine
  import opened Memory
  import opened MemoryInvariant
  import opened Reclaim
  import opened LinkedMemory
  import opened LinkedRuns

  function Bit(b: bool): int {
    if b then 1 else 0
  }

  /** The step asks for the removal of an allocated page for which no request is pending. */
  predicate Opens(m: Mem, op: LinkedOp, id: int)
    requires Sized(m) && 0 <= id < NUM_SHARED_PAGES
  {
    op.MemoryStep? && AsksRemoval(m, op.op, id) && m.shFrame[id] >= 0 && m.shMark[id] != 1
  }

  /** The page loses its frame between m and m'. */
  predicate LosesFrame(m: Mem, m': Mem, id: int)
    requires Sized(m) && Sized(m') && 0 <= id < NUM_SHARED_PAGES
  {
    m.shFrame[id] >= 0 && m'.shFrame[id] != m.shFrame[id]
  }

  /** The mark from m to m', with `begun` telling whether a request was opened. */
  ghost predicate Booked(m: Mem, m': Mem, id: int, begun: bool)
    requires Sized(m) && 0 <= id < NUM_SHARED_PAGES
  {
    && Sized(m') && m'.shMark[id] - m.shMark[id] == Bit(begun) - Bit(LosesFrame(m, m', id))
    && (LosesFrame(m, m', id) ==> m'.shFrame[id] == -1)
  }

  lemma PageWithoutFrame(m: Mem, op: MR.MemOp, id: int)
    requires Inv(m) && 0 <= id < NUM_SHARED_PAGES && m.shFrame[id] < 0 && !op.OpFork? && !op.OpExit?
    ensures Sized(MR.Step(m, op)) && MR.Step(m, op).shMark[id] == m.shMark[id]
  {
    MR.StepKeeps(m, op);
    assert SharedOk(m, id);
    if op.task in m.dir {
      match op
      case OpShmat(t, n, addr) => if 0 <= n < NUM_SHARED_PAGES { ProvideKeeps(m, n); }
      case OpShmdt(t, addr) => ShmdtEvolves(m, t, addr, id);
      case OpShmrm(_, n) => if 0 <= n < NUM_SHARED_PAGES && m.shFrame[n] >= 0 { SharedFrames(m, n); }
      case _ =>
    }
  }

  lemma MemoryStepIsBooked(m: Mem, op: MR.MemOp, id: int)
    requires Inv(m) && 0 <= id < NUM_SHARED_PAGES && !op.OpFork? && !op.OpExit?
    ensures Booked(m, MR.Step(m, op), id, Opens(m, MemoryStep(op), id))
  {
    assert SharedOk(m, id);
    if m.shFrame[id] >= 0 { StepEvolves(m, op, id); } else { PageWithoutFrame(m, op, id); }
  }

  lemma EvolvingIsBooked(m: Mem, m': Mem, id: int)
    requires Inv(m) && Sized(m') && 0 <= id < NUM_SHARED_PAGES && Evolves(m, m', id)
    ensures Booked(m, m', id, false)
  {
    assert SharedOk(m, id);
  }

  lemma StepIsBooked(m: Mem, v: Vars, op: LinkedOp, id: int)
    requires Inv(m) && VarsOk(m, v) && Guard(m, v, op) && 0 <= id < NUM_SHARED_PAGES
    ensures Booked(m, LinkedStep(m, v, op), id, Opens(m, op, id))
  {
    match op
    case ForkStep(t) =>
      if t in m.dir && FreeFrames(m) != [] {
        var m1 := Enlisted(m, v);
        LinkedForkIsFork(m, v, t);
        ForkEvolves(m1, t, id);
        EvolvingIsBooked(m1, Fork(m1, t).0, id);
      }
    case ExitStep(t) =>
      if t in m.dir {
        ExitEvolves(m, t, id);
        EvolvingIsBooked(m, Exit(m, t), id);
      }
    case MemoryStep(o) => if !o.OpFork? && !o.OpExit? { MemoryStepIsBooked(m, o, id); }
    case _ =>
  }

  /** How many requests a run opens for a page. */
  ghost function Requests(m: Mem, v: Vars, ops: seq<LinkedOp>, id: int): nat
    requires 0 <= id < NUM_SHARED_PAGES
    decreases |ops|
  {
    if ops == [] || !Sized(m) then 0
    else Bit(Opens(m, ops[0], id)) + Requests(LinkedStep(m, v, ops[0]), v, ops[1..], id)
  }

  /** How many times a run takes the page's frame away. */
  ghost function TimesRemoved(m: Mem, v: Vars, ops: seq<LinkedOp>, id: int): nat
    requires 0 <= id < NUM_SHARED_PAGES
    decreases |ops|
  {
    if ops == [] || !Sized(m) then 0
    else
      var m1 := LinkedStep(m, v, ops[0]);
      (if Sized(m1) then Bit(LosesFrame(m, m1, id)) else 0) + TimesRemoved(m1, v, ops[1..], id)
  }

  /**
   * Over every guarded run, each request frees the frame once, unless it is the one still pending at the end; and that
   * one is pending because the page is mapped.
   */
  lemma {:induction false} EachRequestRemovesOnce(m: Mem, v: Vars, ops: seq<LinkedOp>, m': Mem, id: int)
    requires Inv(m) && VarsOk(m, v) && LinkedReaches(m, v, ops, m') && 0 <= id < NUM_SHARED_PAGES
    ensures Inv(m')
    ensures Requests(m, v, ops, id) + m.shMark[id] == TimesRemoved(m, v, ops, id) + m'.shMark[id]
    ensures m'.shMark[id] == 0 || (m'.shMark[id] == 1 && Mappings(m', m'.shFrame[id]) != {})
    decreases |ops|
  {
    if ops == [] {
      assert SharedOk(m, id) && MarkedInUse(m, id);
    } else {
      var m1 := LinkedStep(m, v, ops[0]);
      LinkedStepKeeps(m, v, ops[0]);
      StepIsBooked(m, v, ops[0], id);
      EachRequestRemovesOnce(m1, v, ops[1..], m', id);
    }
  }
}
