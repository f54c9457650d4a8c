/**
 * Memory and scheduling together. A PCB is a frame: what the memory manager gives back must never be in a queue, and
 * the lists of children and of all tasks are words of these frames.
 */
module KernelState {
  import opened Machine
  import opened Memory
  import opened MemoryInvariant
  import opened PcbLists
  import opened LinkedMemory
  import opened LinkKinds
  import opened FamilyWords
  import opened Scheduler
  import S = Scheduling

  /**
   * `pcbOf` gives the PCB frame of every PID that has been given out, also after its exit. No operation reads it to
   * decide anything but which task a PID is.
   */
  datatype Kernel = Kernel(mem: Mem, sched: S.Sched, pcbOf: map<int, int>, vars: Vars)

  // ---------- who is who ----------

  ghost function UserPcbs(F: PcbFrames, live: set<int>, idle: int): set<int> {
    set p | p in live && p in F && p != idle :: F[p]
  }

  ghost function LiveFrames(F: PcbFrames, live: set<int>): set<int> {
    set p | p in live && p in F :: F[p]
  }

  /** Every live PID has a PCB frame of its own, which is a task of memory; idle has its PCB only. */
  ghost predicate Named(F: PcbFrames, live: set<int>, idle: int, tasks: set<int>) {
    && live <= F.Keys && idle in live
    && (forall p :: p in F ==> 0 <= F[p] < TOTAL_PAGES)
    && (forall p, q :: p in live && q in live && F[p] == F[q] ==> p == q)
    && tasks == UserPcbs(F, live, idle)
  }

  /** PIDs are given out in ascending order, and families are among them. */
  ghost predicate PidsOk(F: PcbFrames, s: S.Sched) {
    && (forall p :: p in F ==> p <= s.lastPid)
    && (forall c :: c in s.parent ==> c in F && s.parent[c] in F && c != s.idle && s.parent[c] != s.idle)
  }

  /** A PCB other than idle's is not a frame of the kernel. */
  ghost predicate OutOfKernel(F: PcbFrames, idle: int, boot: Boot) {
    forall p :: p in F && p != idle ==> boot.lastKernel <= F[p] && F[p] !in boot.pinned
  }

  ghost predicate Tied(k: Kernel) {
    && Named(k.pcbOf, k.sched.live, k.sched.idle, k.mem.dir.Keys)
    && k.sched.idle in k.pcbOf && k.pcbOf[k.sched.idle] == k.vars.idlePcb
    && PidsOk(k.pcbOf, k.sched) && OutOfKernel(k.pcbOf, k.sched.idle, k.mem.boot)
  }

  /** The links in PCBs in use are of the right kind. */
  ghost predicate Linked(k: Kernel) {
    LinksFit(k.mem.ram, k.vars, LiveFrames(k.pcbOf, k.sched.live), {})
  }

  /** The invariant of the whole kernel, whatever has become of the frames of former PCBs. */
  ghost predicate KernelInv(k: Kernel) {
    Inv(k.mem) && VarsOk(k.mem, k.vars) && S.SInv(k.sched) && Tied(k) && Linked(k)
  }

  lemma Whole(k: Kernel)
    requires Inv(k.mem) && VarsOk(k.mem, k.vars) && S.SInv(k.sched) && Tied(k) && Linked(k)
    ensures KernelInv(k)
  {
  }

  // ---------- families ----------

  ghost function ParentWord(F: PcbFrames, s: S.Sched, p: int): Word {
    if p in s.parent && s.parent[p] in F then Pointer(Member(F[s.parent[p]], 0)) else ZERO_WORD
  }

  ghost predicate ParentWords(ram: seq<Page>, F: PcbFrames, s: S.Sched) {
    forall p :: p in s.live && p in F && p != s.idle ==> WordAt(ram, Member(F[p], PARENT)) == ParentWord(F, s, p)
  }

  /** The lists of children in memory are the families of the scheduler, and parent pointers lead to parents. */
  ghost predicate FamiliesHold(k: Kernel) {
    InMemory(k.mem.ram, k.pcbOf, FamilyRings(k.sched, k.pcbOf.Keys)) && ParentWords(k.mem.ram, k.pcbOf, k.sched)
  }

  /** The PCB of a task that has exited is still what it was: its frame has not been allocated since. */
  ghost predicate NotReused(k: Kernel) {
    && OwnFrames(k.pcbOf, TOTAL_PAGES)
    && forall p :: p in k.pcbOf && p !in k.sched.live ==> k.pcbOf[p] !in k.mem.own
  }

  /** The stronger invariant as long as that is so. */
  ghost predicate FamilyInv(k: Kernel) {
    KernelInv(k) && NotReused(k) && FamiliesHold(k)
  }

  // ---------- what the names mean ----------

  /** A live PID's PCB is in use as that, idle's by the kernel. */
  lemma UserPcb(k: Kernel, p: int)
    requires Inv(k.mem) && VarsOk(k.mem, k.vars) && Tied(k) && p in k.sched.live
    ensures p in k.pcbOf && 0 <= k.pcbOf[p] < TOTAL_PAGES && k.pcbOf[p] in k.mem.own
    ensures p != k.sched.idle ==> k.pcbOf[p] in k.mem.dir && k.mem.own[k.pcbOf[p]] == Owner.Pcb(k.pcbOf[p])
    ensures p == k.sched.idle ==> k.mem.own[k.pcbOf[p]] == Pinned && k.pcbOf[p] !in k.mem.dir
  {
    KernelWords(k.mem, k.vars);
    if p != k.sched.idle {
      assert k.pcbOf[p] in UserPcbs(k.pcbOf, k.sched.live, k.sched.idle);
      TaskFrames(k.mem, k.pcbOf[p]);
    } else if k.pcbOf[p] in k.mem.dir {
      TaskFrames(k.mem, k.pcbOf[p]);
    }
  }

  /** Frames of PIDs are none of the heads of list_tasks. */
  lemma PcbIsNoHead(k: Kernel, p: int)
    requires Inv(k.mem) && VarsOk(k.mem, k.vars) && Tied(k) && p in k.pcbOf
    ensures !HeadFrame(k.vars, k.pcbOf[p]) && (p != k.sched.idle ==> k.pcbOf[p] != k.vars.idlePcb)
  {
  }

  /** Neither PCBs in use nor the kernel's list heads are pages of a task. */
  lemma LiveHoldsNothing(k: Kernel, f: int)
    requires Inv(k.mem) && VarsOk(k.mem, k.vars) && Tied(k)
    requires f in LiveFrames(k.pcbOf, k.sched.live) || HeadFrame(k.vars, f)
    ensures 0 <= f < TOTAL_PAGES && f in k.mem.own && !HoldsMemory(k.mem, f)
  {
    KernelWords(k.mem, k.vars);
    if f in LiveFrames(k.pcbOf, k.sched.live) {
      var p :| p in k.sched.live && p in k.pcbOf && k.pcbOf[p] == f;
      UserPcb(k, p);
    }
  }

  /** The links stay when the pages of PCBs in use and of the list heads stay. */
  lemma StillLinked(k: Kernel, k': Kernel)
    requires Inv(k.mem) && VarsOk(k.mem, k.vars) && Tied(k) && Linked(k) && |k'.mem.ram| == |k.mem.ram|
    requires k'.vars == k.vars && k'.pcbOf == k.pcbOf && k'.sched.live == k.sched.live
    requires forall f :: 0 <= f < TOTAL_PAGES && f in k.mem.own && !HoldsMemory(k.mem, f) ==>
      PageAt(k'.mem, f) == PageAt(k.mem, f)
    ensures Linked(k')
  {
    var frames := LiveFrames(k.pcbOf, k.sched.live);
    forall f | f in frames || HeadFrame(k.vars, f) ensures 0 <= f < TOTAL_PAGES && k'.mem.ram[f] == k.mem.ram[f] {
      LiveHoldsNothing(k, f);
      assert PageAt(k'.mem, f) == PageAt(k.mem, f);
    }
    SamePagesFit(k.mem.ram, k'.mem.ram, k.vars, frames);
  }

  lemma KinAreKnown(F: PcbFrames, s: S.Sched)
    requires PidsOk(F, s) && S.Families(s)
    ensures KnownKin(s, F.Keys)
  {
    forall h, i | h in KidHeads(F.Keys) && 0 <= i < |KidsOf(s, h)| ensures KidsOf(s, h)[i] in F.Keys {
      KidIsKnown(F, s, h, KidsOf(s, h)[i]);
    }
  }

  lemma KidIsKnown(F: PcbFrames, s: S.Sched, h: Node, kid: int)
    requires PidsOk(F, s) && S.Families(s) && IsKids(h) && kid in KidsOf(s, h)
    ensures kid in F && kid in s.parent && s.parent[kid] == h.pid && kid != s.idle
    ensures h.KidsBlocked? <==> kid in s.blocked
  {
    if h.KidsBlocked? {
      assert S.Family(s.kidsB, s.parent, s.blocked, true, h.pid);
    } else {
      assert S.Family(s.kidsU, s.parent, s.blocked, false, h.pid);
    }
  }
}
