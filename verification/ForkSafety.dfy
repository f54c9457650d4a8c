/** Fork keeps the invariant of the whole kernel, whether it succeeds or fails, and whatever frames it takes. */
module ForkSafety {
  import opened Machine
  import opened Memory
  import opened MemoryInvariant
  import opened TaskLife
  import opened MemoryTheorems
  import opened PcbLists
  import opened LinkedMemory
  import opened LinkedRuns
  import opened LinkKinds
  import opened TableSafety
  import opened TableRuns
  import opened FamilyWords
  import opened KernelState
  import opened KernelSteps
  import opened KernelSafety
  import S = Scheduling

  // ---------- names ----------

  lemma ForkedFrames(F: PcbFrames, live: set<int>, pid: int, c: int)
    requires pid !in F
    ensures LiveFrames(F[pid := c], live + {pid}) == LiveFrames(F, live) + {c}
  {
    var F' := F[pid := c];
    assert F'[pid] == c;
    forall f | f in LiveFrames(F, live) ensures f in LiveFrames(F', live + {pid}) {
      var q :| q in live && q in F && F[q] == f;
      assert F'[q] == f;
    }
  }

  lemma ForkedNames(F: PcbFrames, live: set<int>, idle: int, tasks: set<int>, p: int, c: int)
    requires Named(F, live, idle, tasks) && p !in F && p != idle && 0 <= c < TOTAL_PAGES && c !in LiveFrames(F, live)
    ensures Named(F[p := c], live + {p}, idle, tasks + {c})
  {
    var F' := F[p := c];
    forall q | q in live ensures F[q] != c { assert F[q] in LiveFrames(F, live); }
    forall f ensures f in UserPcbs(F', live + {p}, idle) <==> f in UserPcbs(F, live, idle) || f == c {
      assert F'[p] == c;
      if f in UserPcbs(F, live, idle) {
        var q :| q in live && q in F && q != idle && F[q] == f;
        assert F'[q] == f;
      }
    }
  }

  lemma NewcomerPid(k: Kernel)
    requires Tied(k)
    ensures k.sched.lastPid + 1 !in k.pcbOf && k.sched.lastPid + 1 != k.sched.idle
  {
  }

  lemma FreeIsNotLive(k: Kernel, c: int)
    requires Inv(k.mem) && VarsOk(k.mem, k.vars) && Tied(k) && c in FreeFrames(k.mem)
    ensures c !in LiveFrames(k.pcbOf, k.sched.live) && !HeadFrame(k.vars, c) && 0 <= c < TOTAL_PAGES
    ensures k.mem.boot.lastKernel <= c && c !in k.mem.boot.pinned && c != k.vars.idlePcb
  {
    KernelWords(k.mem, k.vars);
    if c in LiveFrames(k.pcbOf, k.sched.live) {
      var p :| p in k.sched.live && p in k.pcbOf && k.pcbOf[p] == c;
      UserPcb(k, p);
      assert false;
    }
    assert c in k.mem.boot.pinned ==> Claim(k.mem, Pinned, c);
  }

  lemma ForkedTied(k: Kernel, c: int, k': Kernel)
    requires Tied(k) && 0 <= c < TOTAL_PAGES && c !in LiveFrames(k.pcbOf, k.sched.live) && k.sched.cur in k.pcbOf
    requires k.sched.cur != k.sched.idle && k.mem.boot.lastKernel <= c && c !in k.mem.boot.pinned
    requires k'.pcbOf == k.pcbOf[k.sched.lastPid + 1 := c] && k'.sched == S.Fork(k.sched) && k'.vars == k.vars
    requires k'.mem.dir.Keys == k.mem.dir.Keys + {c} && k'.mem.boot == k.mem.boot
    ensures Tied(k')
  {
    NewcomerPid(k);
    ForkFields(k.sched);
    ForkedNames(k.pcbOf, k.sched.live, k.sched.idle, k.mem.dir.Keys, k.sched.lastPid + 1, c);
  }

  // ---------- links ----------

  lemma EnlistedLinks(k: Kernel, e: Mem)
    requires KernelInv(k) && FreeFrames(k.mem) != [] && e == Enlisted(k.mem, k.vars)
    ensures LinksFit(e.ram, k.vars, LiveFrames(k.pcbOf, k.sched.live), {})
    ensures TaskNode(k.vars, Prev(k.mem.ram, k.vars.tasks))
  {
    var c := FreeFrames(k.mem)[0];
    assert c in FreeFrames(k.mem);
    FreeIsNotLive(k, c);
    EnlistFits(k.mem.ram, k.vars, LiveFrames(k.pcbOf, k.sched.live), c);
  }

  /** The pages of PCBs in use and of the list heads are none that fork takes. */
  lemma LivePages(k: Kernel, e: Mem, m2: Mem)
    requires Inv(k.mem) && VarsOk(k.mem, k.vars) && Tied(k) && Inv(e) && e == k.mem.(ram := e.ram)
    requires |m2.ram| == TOTAL_PAGES
    requires forall f :: f in e.own && !HoldsMemory(e, f) ==> PageAt(m2, f) == PageAt(e, f)
    ensures forall f :: f in LiveFrames(k.pcbOf, k.sched.live) || HeadFrame(k.vars, f) ==>
      0 <= f < TOTAL_PAGES && m2.ram[f] == e.ram[f]
  {
    forall f | f in LiveFrames(k.pcbOf, k.sched.live) || HeadFrame(k.vars, f)
      ensures 0 <= f < TOTAL_PAGES && m2.ram[f] == e.ram[f]
    {
      LiveHoldsNothing(k, f);
      assert PageAt(m2, f) == PageAt(e, f);
    }
  }

  lemma ForkLeavesOwned(m: Mem, t: int, f: int)
    requires Inv(m) && t in m.dir && FRAMES_PER_TASK <= |FreeFrames(m)| && f in m.own
    ensures |Fork(m, t).0.ram| == TOTAL_PAGES && PageAt(Fork(m, t).0, f) == PageAt(m, f)
  {
    ForkPages(m, t, f);
  }

  lemma ForkCopiesPcb(m: Mem, t: int)
    requires Inv(m) && t in m.dir && FRAMES_PER_TASK <= |FreeFrames(m)|
    ensures var c, m2 := FreeFrames(m)[0], Fork(m, t).0;
      0 <= c < TOTAL_PAGES && 0 <= t < TOTAL_PAGES && |m2.ram| == |m.ram| == TOTAL_PAGES && m2.ram[c] == m.ram[t]
        && c != t
  {
    assert FreeFrames(m)[0] in FreeFrames(m);
    TaskFrames(m, t);
    ForkPages(m, t, t);
  }

  lemma SuccessLinks(k: Kernel, e: Mem, c: int)
    requires KernelInv(k) && Calls(k) && FRAMES_PER_TASK <= |FreeFrames(k.mem)| && c == FreeFrames(k.mem)[0]
    requires e == Enlisted(k.mem, k.vars) && Inv(e)
    ensures var t := k.pcbOf[k.sched.cur];
      LinksFit(JoinFamily(Fork(e, t).0.ram, c, t), k.vars, LiveFrames(k.pcbOf, k.sched.live) + {c}, {})
  {
    var t, frames := k.pcbOf[k.sched.cur], LiveFrames(k.pcbOf, k.sched.live);
    var m2 := Fork(e, t).0;
    assert c in FreeFrames(k.mem) && FreeFrames(e) == FreeFrames(k.mem);
    CallerIs(k);
    FreeIsNotLive(k, c);
    EnlistedLinks(k, e);
    ForkCopiesPcb(e, t);
    forall f | f in e.own && !HoldsMemory(e, f) ensures PageAt(m2, f) == PageAt(e, f) { ForkLeavesOwned(e, t, f); }
    LivePages(k, e, m2);
    PcbIsNoHead(k, k.sched.cur);
    CopyFits(e.ram, m2.ram, k.vars, frames, t, c);
    JoinFits(m2.ram, k.vars, frames + {c}, t, c);
  }

  lemma FailureLinks(k: Kernel, e: Mem, c: int)
    requires KernelInv(k) && Calls(k) && 1 <= |FreeFrames(k.mem)| < FRAMES_PER_TASK && c == FreeFrames(k.mem)[0]
    requires e == Enlisted(k.mem, k.vars) && Inv(e)
    ensures var m2 := Rollback(e, k.pcbOf[k.sched.cur], FreeFrames(e));
      LinksFit(Del(m2.ram, Member(c, TASK_LIST)), k.vars, LiveFrames(k.pcbOf, k.sched.live), {})
  {
    var t, frames := k.pcbOf[k.sched.cur], LiveFrames(k.pcbOf, k.sched.live);
    var m2 := Rollback(e, t, FreeFrames(e));
    assert c in FreeFrames(k.mem) && FreeFrames(e) == FreeFrames(k.mem);
    CallerIs(k);
    FreeIsNotLive(k, c);
    EnlistedLinks(k, e);
    RollbackOwns(e, t);
    RollbackPages(e, t);
    LivePages(k, e, m2);
    PcbIsNoHead(k, k.sched.cur);
    GiveUpFits(e.ram, m2.ram, k.vars, frames, t, c);
  }

  /** The PCB that is given up has the links that its caller has. */
  lemma GiveUpFits(ram: seq<Page>, ram': seq<Page>, v: Vars, frames: set<int>, t: int, c: int)
    requires LinksFit(ram, v, frames, {}) && |ram'| == |ram| && t in frames && !HeadFrame(v, t) && c !in frames
    requires 0 <= c < |ram| <= TOTAL_PAGES && !HeadFrame(v, c) && 0 <= t < |ram| && ram'[c] == ram[t]
    requires forall f :: f in frames || HeadFrame(v, f) ==> 0 <= f < |ram| && ram'[f] == ram[f]
    ensures LinksFit(Del(ram', Member(c, TASK_LIST)), v, frames, {})
  {
    var e, mine := Member(c, TASK_LIST), Member(t, TASK_LIST);
    SamePagesFit(ram, ram', v, frames);
    LinksOf(ram, v, frames, true, mine);
    assert Plus(e, 1) == Member(c, TASK_LIST + 1) && Plus(mine, 1) == Member(t, TASK_LIST + 1);
    assert Next(ram', e) == Next(ram, mine) && Prev(ram', e) == Prev(ram, mine);
    DelFits(ram', v, frames, true, e);
    forall q | q in {e, Plus(e, 1)} ensures !Watched(v, frames, q) { assert q.frame == c; }
    FewerFit(Del(ram', e), v, frames, frames, {e, Plus(e, 1)});
  }

  // ---------- the step ----------

  lemma ForkSucceeds(k: Kernel, e: Mem, c: int, k': Kernel)
    requires KernelInv(k) && Calls(k) && FRAMES_PER_TASK <= |FreeFrames(k.mem)| && c == FreeFrames(k.mem)[0]
    requires e == Enlisted(k.mem, k.vars) && Inv(e)
    requires var t := k.pcbOf[k.sched.cur];
      k'.mem == Fork(e, t).0.(ram := JoinFamily(Fork(e, t).0.ram, c, t))
    requires Inv(k'.mem) && VarsOk(k'.mem, k'.vars) && k'.vars == k.vars
    requires k'.pcbOf == k.pcbOf[k.sched.lastPid + 1 := c] && k'.sched == S.Fork(k.sched)
    ensures KernelInv(k')
  {
    assert c in FreeFrames(k.mem) && FreeFrames(e) == FreeFrames(k.mem);
    CallerIs(k);
    FreeIsNotLive(k, c);
    NewPid(k.sched);
    ForkTasks(e, k.pcbOf[k.sched.cur]);
    ForkedOwners(e, k.pcbOf[k.sched.cur], Fork(e, k.pcbOf[k.sched.cur]).0);
    ForkedTied(k, c, k');
    SuccessLinks(k, e, c);
    NewcomerPid(k);
    ForkFields(k.sched);
    ForkedFrames(k.pcbOf, k.sched.live, k.sched.lastPid + 1, c);
    Whole(k');
  }

  lemma ForkFails(k: Kernel, e: Mem, c: int, k': Kernel)
    requires KernelInv(k) && Calls(k) && 1 <= |FreeFrames(k.mem)| < FRAMES_PER_TASK && c == FreeFrames(k.mem)[0]
    requires e == Enlisted(k.mem, k.vars) && Inv(e)
    requires var m2 := Rollback(e, k.pcbOf[k.sched.cur], FreeFrames(e));
      k' == k.(mem := m2.(ram := Del(m2.ram, Member(c, TASK_LIST))))
    requires Inv(k'.mem) && VarsOk(k'.mem, k'.vars)
    ensures KernelInv(k')
  {
    assert FreeFrames(e) == FreeFrames(k.mem);
    RollbackPages(e, k.pcbOf[k.sched.cur]);
    SameTied(k, k');
    FailureLinks(k, e, c);
    Whole(k');
  }

  lemma ForkCallKeeps(k: Kernel, k': Kernel)
    requires KernelInv(k) && Calls(k) && Allowed(k, CallFork) && k' == KernelStep(k, CallFork)
    ensures KernelInv(k')
  {
    var t := k.pcbOf[k.sched.cur];
    ForkStepIs(k, t, k');
    if FreeFrames(k.mem) != [] {
      var e := Enlisted(k.mem, k.vars);
      TableForkKeeps(k.mem, k.vars, t);
      SameVars(k.mem, LinkedFork(k.mem, k.vars, t).0, k.vars);
      LinkedForkCases(k.mem, k.vars, t, e);
      ForkOutcome(k, e, k');
    }
  }

  lemma ForkOutcome(k: Kernel, e: Mem, k': Kernel)
    requires KernelInv(k) && Calls(k) && FreeFrames(k.mem) != [] && e == Enlisted(k.mem, k.vars) && Inv(e)
    requires var t := k.pcbOf[k.sched.cur];
      k' == AfterFork(k, LinkedFork(k.mem, k.vars, t).0, LinkedFork(k.mem, k.vars, t).1)
    requires Inv(k'.mem) && VarsOk(k'.mem, k'.vars)
    ensures KernelInv(k')
  {
    var c := FreeFrames(k.mem)[0];
    OutcomeIs(k, k.pcbOf[k.sched.cur], e, c, k');
    if |FreeFrames(k.mem)| >= FRAMES_PER_TASK { ForkSucceeds(k, e, c, k'); } else { ForkFails(k, e, c, k'); }
  }

  lemma OutcomeIs(k: Kernel, t: int, e: Mem, c: int, k': Kernel)
    requires Sized(k.mem) && t in k.mem.dir && FreeFrames(k.mem) != [] && c == FreeFrames(k.mem)[0]
    requires e == Enlisted(k.mem, k.vars)
    requires k' == AfterFork(k, LinkedFork(k.mem, k.vars, t).0, LinkedFork(k.mem, k.vars, t).1)
    ensures FRAMES_PER_TASK <= |FreeFrames(k.mem)| ==>
      && k'.mem == Fork(e, t).0.(ram := JoinFamily(Fork(e, t).0.ram, c, t))
      && k' == k.(mem := k'.mem, sched := S.Fork(k.sched), pcbOf := k.pcbOf[k.sched.lastPid + 1 := c])
    ensures |FreeFrames(k.mem)| < FRAMES_PER_TASK ==>
      var m2 := Rollback(e, t, FreeFrames(e)); k' == k.(mem := m2.(ram := Del(m2.ram, Member(c, TASK_LIST))))
  {
    assert FreeFrames(e) == FreeFrames(k.mem);
    var m', r := LinkedFork(k.mem, k.vars, t).0, LinkedFork(k.mem, k.vars, t).1;
    LinkedForkCases(k.mem, k.vars, t, e);
    AfterForkIs(k, m', r);
  }

  lemma AfterForkIs(k: Kernel, m': Mem, r: Forked)
    ensures r.Child? ==>
      AfterFork(k, m', r) == k.(mem := m', sched := S.Fork(k.sched), pcbOf := k.pcbOf[k.sched.lastPid + 1 := r.pcb])
    ensures r.Failed? ==> AfterFork(k, m', r) == k.(mem := m')
  {
  }
}
