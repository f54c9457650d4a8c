/**
 * As long as no frame of a task that has exited is allocated, the lists of children in memory are the families of the
 * scheduler.
 */
module KernelFamilies {
  import opened Machine
  import opened Memory
  import opened PcbLists
  import opened LinkedMemory
  import opened LinkedRuns
  import opened TableRuns
  import opened FamilyWords
  import opened MemoryRings
  import opened KernelState
  import opened KernelSteps
  import opened KernelSafety
  import opened Rings
  import opened Sequences
  import opened Scheduler
  import S = Scheduling

  // ---------- the condition ----------

  function ForkTakes(fs: seq<int>): seq<int> {
    if |fs| < FRAMES_PER_TASK then fs else fs[..FRAMES_PER_TASK]
  }

  /** The frames that a step allocates, if only for a while. */
  function Allocates(k: Kernel, op: KernelOp): set<int>
    requires Sized(k.mem)
  {
    if !Calls(k) then {}
    else
      match op
      case CallFork => set f | f in ForkTakes(FreeFrames(k.mem))
      case CallShmat(id, _) => if TakesFrame(k.mem, id) then {NextFree(k.mem)} else {}
      case _ => {}
  }

  /** No frame is allocated that was the PCB of a task that has exited. */
  ghost predicate NoReuse(k: Kernel, op: KernelOp)
    requires Sized(k.mem)
  {
    forall p :: p in k.pcbOf && p !in k.sched.live ==> k.pcbOf[p] !in Allocates(k, op)
  }

  /** And fork and exit change no table by their list operations. Nothing is asked of block and unblock. */
  ghost predicate FamilyStep(k: Kernel, op: KernelOp)
    requires Sized(k.mem)
  {
    && NoReuse(k, op)
    && ((op.CallFork? || op.CallExit?) && MemPart(k, op) != [] ==> TableGuard(k.mem, k.vars, MemPart(k, op)[0]))
  }

  ghost predicate FamilyReaches(k: Kernel, ops: seq<KernelOp>, k': Kernel)
    decreases |ops|
  {
    if ops == [] then k' == k
    else Sized(k.mem) && FamilyStep(k, ops[0]) && FamilyReaches(KernelStep(k, ops[0]), ops[1..], k')
  }

  // ---------- block and unblock need no condition ----------

  /** The words of families are where they do no harm. */
  lemma FamilyPlaceIsHarmless(k: Kernel, n: Node)
    requires Inv(k.mem) && VarsOk(k.mem, k.vars) && Tied(k) && NotReused(k) && IsFamily(n) && n.pid in k.pcbOf
    ensures Harmless(k.mem, k.vars, WordsOf(k.pcbOf, n)) && Harmless(k.mem, k.vars, Plus(WordsOf(k.pcbOf, n), 1))
  {
    var f := k.pcbOf[n.pid];
    if n.pid in k.sched.live { UserPcb(k, n.pid); }
    assert Plus(WordsOf(k.pcbOf, n), 1) == Member(f, WordsOf(k.pcbOf, n).index + 1);
  }

  /** The last child of a task in memory is some PID's node. */
  lemma LastChildIs(ram: seq<Page>, F: PcbFrames, s: S.Sched, p: int) returns (n: Node)
    requires InMemory(ram, F, FamilyRings(s, F.Keys)) && p in F
    ensures IsFamily(n) && n.pid in F && Prev(ram, Member(F[p], CHILDREN_UNBLOCKED)) == WordsOf(F, n)
  {
    var next;
    FamilyChanged(s, F.Keys, KidsUnblocked(p), []);
    next, n := WordNeighbours(ram, F, FamilyRings(s, F.Keys), KidsUnblocked(p));
  }

  /** The places that moving a child's node writes are words of PIDs. */
  lemma MovePlaces(ram: seq<Page>, F: PcbFrames, s: S.Sched, from: Node, to: Node, c: int)
      returns (next: Node, prev: Node, last: Node)
    requires InMemory(ram, F, FamilyRings(s, F.Keys)) && OwnFrames(F, TOTAL_PAGES)
    requires IsKids(from) && IsKids(to) && from.pid in F && to.pid in F && c in KidsOf(s, from)
    ensures c in F && IsFamily(next) && next.pid in F && IsFamily(prev) && prev.pid in F && IsFamily(last)
    ensures last.pid in F
    ensures Next(ram, Member(F[c], SIBILING)) == WordsOf(F, next)
    ensures Prev(ram, Member(F[c], SIBILING)) == WordsOf(F, prev)
    ensures LastAfter(ram, Member(F[c], SIBILING), WordsOf(F, to)) == WordsOf(F, last)
  {
    var r := FamilyRings(s, F.Keys);
    RingWithout(s, F.Keys, from, c);
    FamilyChanged(s, F.Keys, to, []);
    InNodes(r, from, Position(KidsOf(s, from), c) + 1);
    next, prev := WordNeighbours(ram, F, r, SiblingOf(c));
    var first, final := WordNeighbours(ram, F, r, to);
    NodesApart(F, to, SiblingOf(c));
    NodesApart(F, SiblingOf(c), to);
    NodesApart(F, to, next);
    NodesApart(F, to, prev);
    last := if Plus(WordsOf(F, to), 1) == Plus(WordsOf(F, next), 1) then prev else final;
  }

  /** Moving a child's node is harmless. */
  lemma MoveIsGuarded(k: Kernel, from: Node, to: Node, c: int)
    requires Inv(k.mem) && VarsOk(k.mem, k.vars) && Tied(k) && NotReused(k) && FamiliesHold(k)
    requires IsKids(from) && IsKids(to) && from.pid in k.pcbOf && to.pid in k.pcbOf && c in KidsOf(k.sched, from)
    requires from != to
    ensures c in k.pcbOf && MoveGuard(k.mem, k.vars, Member(k.pcbOf[c], SIBILING), WordsOf(k.pcbOf, to))
  {
    var next, prev, last := MovePlaces(k.mem.ram, k.pcbOf, k.sched, from, to, c);
    FamilyPlaceIsHarmless(k, SiblingOf(c));
    FamilyPlaceIsHarmless(k, next);
    FamilyPlaceIsHarmless(k, prev);
    FamilyPlaceIsHarmless(k, to);
    FamilyPlaceIsHarmless(k, last);
  }

  lemma MovesChildIsGuarded(k: Kernel, part: seq<LinkedOp>, from: Node, to: Node, c: int)
    requires Inv(k.mem) && VarsOk(k.mem, k.vars) && Tied(k) && NotReused(k) && FamiliesHold(k)
    requires MovesChild(k, part, from, to, c)
    ensures Guard(k.mem, k.vars, part[0]) && TableGuard(k.mem, k.vars, part[0])
  {
    MoveIsGuarded(k, from, to, c);
    GuardIsEnough(k.mem, k.vars, part[0]);
  }

  /** The caller's pointer to its parent is what it should be. */
  lemma ParentIs(k: Kernel)
    requires FamilyInv(k) && Calls(k)
    ensures PointsToParent(k)
  {
    var s := k.sched;
    CallerIs(k);
    if s.cur in s.parent { ParentPointer(k.mem.ram, k.pcbOf, s, s.cur); }
  }

  lemma ParentPointer(ram: seq<Page>, F: PcbFrames, s: S.Sched, p: int)
    requires ParentWords(ram, F, s) && p in s.live && p in F && p != s.idle && p in s.parent && s.parent[p] in F
    requires 0 < F[s.parent[p]] < TOTAL_PAGES
    ensures WordAt(ram, Member(F[p], PARENT)) != ZERO_WORD
    ensures BlockHead(ram, F[p]) == WordsOf(F, KidsBlocked(s.parent[p]))
  {
    var f := F[s.parent[p]];
    assert WordAt(ram, Member(F[p], PARENT)) == ParentWord(F, s, p) == Pointer(Member(f, 0));
    HeadByPointer(f);
    assert WordsOf(F, KidsBlocked(s.parent[p])) == Member(f, CHILDREN_BLOCKED);
  }

  lemma HeadByPointer(f: int)
    requires 0 < f < TOTAL_PAGES
    ensures Pointer(Member(f, 0)) != ZERO_WORD
    ensures Plus(Target(Pointer(Member(f, 0))), CHILDREN_BLOCKED) == Member(f, CHILDREN_BLOCKED)
  {
    PointerBack(Member(f, 0));
    assert Member(f, 0) == Place(f, 0) && Member(f, 0) != NULL;
  }

  /** Both lists of a task that is in use, or was last used as one, are as they should be. */
  lemma ListsAreThere(k: Kernel, p: int)
    requires Tied(k) && S.Families(k.sched) && NotReused(k) && FamiliesHold(k) && p in k.pcbOf && p != k.sched.idle
    ensures ListsHold(k, p)
  {
    ListInMemory(k.mem.ram, k.pcbOf, k.sched, KidsBlocked(p));
    ListInMemory(k.mem.ram, k.pcbOf, k.sched, KidsUnblocked(p));
    forall d | d in S.Kids(k.sched.kidsB, p) + S.Kids(k.sched.kidsU, p) ensures NotTaken(k, d) {
      if d in S.Kids(k.sched.kidsB, p) {
        KidIsKnown(k.pcbOf, k.sched, KidsBlocked(p), d);
      } else {
        KidIsKnown(k.pcbOf, k.sched, KidsUnblocked(p), d);
      }
    }
  }

  lemma BlockWalks(k: Kernel)
    requires Tied(k) && S.Families(k.sched) && NotReused(k) && FamiliesHold(k) && PointsToParent(k)
    ensures WalksOk(k, S.OpBlock)
  {
    var s := k.sched;
    if s.cur in s.parent { ListsAreThere(k, s.parent[s.cur]); }
  }

  lemma BlockMoveIsGuarded(k: Kernel)
    requires Inv(k.mem) && VarsOk(k.mem, k.vars) && Tied(k) && NotReused(k) && FamiliesHold(k) && S.SInv(k.sched)
    requires Calls(k) ==> PointsToParent(k) && k.sched.cur in k.sched.live
    ensures BlockPart(k) != [] ==> |BlockPart(k)| == 1 && Guard(k.mem, k.vars, BlockPart(k)[0])
    ensures BlockPart(k) != [] ==> TableGuard(k.mem, k.vars, BlockPart(k)[0])
  {
    var s := k.sched;
    if BlockPart(k) != [] {
      BlockPartIs(k);
      MovesChildIsGuarded(k, BlockPart(k), KidsUnblocked(s.parent[s.cur]), KidsBlocked(s.parent[s.cur]), s.cur);
    }
  }

  lemma UnblockMoveIsGuarded(k: Kernel, pid: int)
    requires Inv(k.mem) && VarsOk(k.mem, k.vars) && Tied(k) && NotReused(k) && FamiliesHold(k) && S.SInv(k.sched)
    ensures var part := UnblockPart(k, pid);
      part != [] ==> |part| == 1 && Guard(k.mem, k.vars, part[0]) && TableGuard(k.mem, k.vars, part[0])
  {
    var part, cur := UnblockPart(k, pid), k.sched.cur;
    UnblockPartIs(k, pid);
    if part != [] { MovesChildIsGuarded(k, part, KidsBlocked(cur), KidsUnblocked(cur), pid); }
  }

  lemma BlockIsAllowed(k: Kernel)
    requires FamilyInv(k)
    ensures Allowed(k, Scheduled(S.OpBlock))
  {
    CallerIs(k);
    if Calls(k) { ParentIs(k); }
    BlockIsFine(k);
  }

  lemma BlockIsFine(k: Kernel)
    requires Inv(k.mem) && VarsOk(k.mem, k.vars) && Tied(k) && NotReused(k) && FamiliesHold(k) && S.SInv(k.sched)
    requires Calls(k) ==> PointsToParent(k) && k.sched.cur in k.sched.live
    ensures Allowed(k, Scheduled(S.OpBlock))
  {
    if Calls(k) { BlockWalks(k); }
    BlockMoveIsGuarded(k);
  }

  lemma UnblockIsAllowed(k: Kernel, pid: int)
    requires FamilyInv(k)
    ensures Allowed(k, Scheduled(S.OpUnblock(pid)))
  {
    CallerIs(k);
    UnblockIsFine(k, pid);
  }

  lemma UnblockIsFine(k: Kernel, pid: int)
    requires Inv(k.mem) && VarsOk(k.mem, k.vars) && Tied(k) && NotReused(k) && FamiliesHold(k) && S.SInv(k.sched)
    requires Calls(k) ==> k.sched.cur in k.pcbOf && k.sched.cur != k.sched.idle
    ensures Allowed(k, Scheduled(S.OpUnblock(pid)))
  {
    if Calls(k) { ListsAreThere(k, k.sched.cur); }
    UnblockMoveIsGuarded(k, pid);
  }

  lemma OthersAreAllowed(k: Kernel, op: KernelOp)
    requires Sized(k.mem) && FamilyStep(k, op) && (op.Scheduled? ==> !op.op.OpBlock? && !op.op.OpUnblock?)
    ensures Allowed(k, op)
  {
    if IsMemoryCall(op) { MemoryCallIs(k, op); }
  }

  /** Such a step is one of the kernel's: nothing has to be asked of block and unblock. */
  lemma FamilyAllows(k: Kernel, op: KernelOp)
    requires FamilyInv(k) && FamilyStep(k, op)
    ensures Allowed(k, op)
  {
    if op.Scheduled? && op.op.OpBlock? {
      BlockIsAllowed(k);
    } else if op.Scheduled? && op.op.OpUnblock? {
      UnblockIsAllowed(k, op.op.pid);
    } else {
      OthersAreAllowed(k, op);
    }
  }
}
