/** What every tick, key and call does to the scheduler, in full, and what a sleeping reader waits for. */
module SchedulingCalls {
  import opened Sequences
  import opened Scheduling
  import opened SchedulingInvariant
  import opened SchedulingTheorems

  function Lesser(a: int, b: int): int { if a < b then a else b }

  /**
   * Which steps are possible: a woken reader only finishes its read, idle makes no call, and all others do anything.
   */
  lemma PossibleSteps(s: Sched, op: Op)
    ensures s.cur in s.woken ==> (Enabled(s, op) <==> op.OpResume?)
    ensures s.cur !in s.woken ==> (Enabled(s, op) <==>
      op.OpTick? || op.OpKey? || (s.cur != s.idle && !op.OpResume? && (op.OpRead? ==> op.max > 0)))
    ensures !Enabled(s, op) ==> Step(s, op) == s
  {
  }

  /** The first ready task runs, or idle, with ten ticks. */
  predicate Dispatched(s: Sched, s': Sched) {
    s'.rem == 10 &&
    if s.ready == [] then s'.cur == s.idle && s'.ready == []
    else s'.cur == s.ready[0] && s'.ready == s.ready[1..]
  }

  // ---------- the clock ----------

  /**
   * A task alone starts a new quantum at each tick. Otherwise ticks only count, and the one that ends the quantum gives
   * the processor to the first ready task and puts the other last.
   */
  lemma TickEffect(s: Sched)
    requires Enabled(s, OpTick)
    ensures var s' := Step(s, OpTick);
      && (s.ready == [] ==> s' == s.(rem := 10))
      && (s.ready != [] && s.rem > 1 ==> s' == s.(rem := s.rem - 1))
      && (s.ready != [] && s.rem <= 1 ==>
        s' == s.(cur := s.ready[0], ready := s.ready[1..] + [s.cur], rem := 10))
  {
    assert s.ready == [] ==> (s.ready + [s.cur])[1..] == [];
    assert s.ready != [] ==> (s.ready + [s.cur])[1..] == s.ready[1..] + [s.cur];
  }

  lemma {:induction false} AloneForTicks(s: Sched, n: nat)
    requires s.cur !in s.woken && s.ready == []
    ensures Run(s, TickOps(n)) == if n == 0 then s else s.(rem := 10)
    decreases n
  {
    if n > 0 {
      TickEffect(s);
      AloneForTicks(s.(rem := 10), n - 1);
    }
  }

  /** So it has nine more ticks before its first child runs, however long it was alone. */
  lemma AloneThenFork(s: Sched, n: nat, k: nat)
    requires s.cur !in s.woken && s.cur != s.idle && s.ready == [] && 0 < n && k < 10
    ensures var s' := Run(s, TickOps(n) + ([OpFork] + TickOps(k)));
      s'.cur == s.cur && s'.rem == 10 - k && s'.ready == [s.lastPid + 1]
  {
    AloneForTicks(s, n);
    RunTwice(s, TickOps(n), [OpFork] + TickOps(k));
    ForkThenTicks(s.(rem := 10), k);
  }

  lemma ForkThenTicks(s: Sched, k: nat)
    requires s.cur !in s.woken && s.cur != s.idle && s.ready == [] && s.rem == 10 && k < 10
    ensures var s' := Run(s, [OpFork] + TickOps(k));
      s'.cur == s.cur && s'.rem == 10 - k && s'.ready == [s.lastPid + 1]
  {
    RunTwice(s, [OpFork], TickOps(k));
    RunOne(s, OpFork);
    ForkedAlone(s);
    TicksCount(Fork(s), k);
  }

  lemma ForkedAlone(s: Sched)
    requires s.cur !in s.woken && s.cur != s.idle && s.ready == []
    ensures Step(s, OpFork) == Fork(s) && Fork(s).cur == s.cur && Fork(s).rem == s.rem && Fork(s).woken == s.woken
    ensures Fork(s).ready == [s.lastPid + 1]
  {
  }

  // ---------- fork and exit ----------

  /** fork: a new PID, last of the ready tasks and of its parent's children, with no children and nothing pending. */
  lemma ForkEffect(s: Sched)
    requires SInv(s) && Enabled(s, OpFork)
    ensures var s', c := Step(s, OpFork), s.lastPid + 1;
      && c !in s.live && c !in s.parent
      && s' == s.(lastPid := c, live := s.live + {c}, ready := s.ready + [c], parent := s.parent[c := s.cur],
        pending := s'.pending, kidsB := s'.kidsB, kidsU := s'.kidsU, need := s'.need)
      && Kids(s'.kidsU, s.cur) == Kids(s.kidsU, s.cur) + [c] && Kids(s'.kidsB, s.cur) == Kids(s.kidsB, s.cur)
      && Kids(s'.kidsU, c) == [] && Kids(s'.kidsB, c) == [] && Get(s'.pending, c, 0) == 0
    ensures forall p :: p != s.lastPid + 1 ==> ForkSpares(s, p)
  {
    CurIsAwake(s);
    ForkIsNew(s);
    forall p | p != s.lastPid + 1 ensures ForkSpares(s, p) { SparedByFork(s, p); }
  }

  lemma ForkIsNew(s: Sched)
    requires SInv(s) && Enabled(s, OpFork)
    ensures s.cur != s.lastPid + 1 && s.lastPid + 1 !in s.live && s.lastPid + 1 !in s.parent
    ensures Step(s, OpFork) == Fork(s)
  {
    CurIsAwake(s);
  }

  /** A fork changes no list of another task's children, nor what another task has pending or waits for. */
  ghost predicate ForkSpares(s: Sched, p: int) {
    var s' := Step(s, OpFork);
    && Get(s'.pending, p, 0) == Get(s.pending, p, 0) && Get(s'.need, p, 0) == Get(s.need, p, 0)
    && Kids(s'.kidsB, p) == Kids(s.kidsB, p) && (p != s.cur ==> Kids(s'.kidsU, p) == Kids(s.kidsU, p))
  }

  lemma SparedByFork(s: Sched, p: int)
    requires p != s.lastPid + 1
    ensures ForkSpares(s, p)
  {
  }

  /** exit: the caller is gone, and another task runs. Its family is not told. */
  lemma ExitEffect(s: Sched)
    requires Enabled(s, OpExit)
    ensures var s' := Step(s, OpExit);
      Dispatched(s, s') && s' == s.(live := s.live - {s.cur}, cur := s'.cur, ready := s'.ready, rem := s'.rem)
  {
  }

  /** The first task forked has PID 101. */
  lemma FirstPid()
    ensures Step(BOOT_SCHED, OpFork).live == {0, 1, 101} && Step(BOOT_SCHED, OpFork).ready == [101]
  {
  }

  // ---------- block and unblock ----------

  /** q' is q with one x taken out. */
  ghost predicate Without(q: seq<int>, q': seq<int>, x: int) {
    exists i :: 0 <= i < |q| && q[i] == x && q' == q[..i] + q[i + 1..]
  }

  lemma RemovedIs(q: seq<int>, x: int)
    requires x in q
    ensures Without(q, Remove(q, x), x)
  {
    assert q[Position(q, x)] == x;
  }

  /** Only the lists of p's children are different. */
  ghost predicate OtherKidsStay(s: Sched, s': Sched, p: int) {
    forall r :: r != p ==> Kids(s'.kidsB, r) == Kids(s.kidsB, r) && Kids(s'.kidsU, r) == Kids(s.kidsU, r)
  }

  /** block: a pending unblock is used up; or the caller sleeps, as the last of its parent's blocked children. */
  lemma BlockEffect(s: Sched)
    requires SInv(s) && Enabled(s, OpBlock)
    ensures var s' := Step(s, OpBlock);
      if Get(s.pending, s.cur, 0) > 0 then
        && s' == s.(pending := s'.pending) && Get(s'.pending, s.cur, 0) == Get(s.pending, s.cur, 0) - 1
        && forall p :: p != s.cur ==> Get(s'.pending, p, 0) == Get(s.pending, p, 0)
      else
        && Dispatched(s, s')
        && s' == s.(cur := s'.cur, ready := s'.ready, rem := s'.rem, blocked := s.blocked + [s.cur],
          kidsB := s'.kidsB, kidsU := s'.kidsU)
        && (if s.cur in s.parent then
          var p := s.parent[s.cur];
          && Kids(s'.kidsB, p) == Kids(s.kidsB, p) + [s.cur] && Without(Kids(s.kidsU, p), Kids(s'.kidsU, p), s.cur)
          && OtherKidsStay(s, s', p)
        else
          s'.kidsB == s.kidsB && s'.kidsU == s.kidsU)
  {
    if s.cur in s.parent {
      CurIsAwake(s);
      ChildLists(s, s.cur);
      RemovedIs(Kids(s.kidsU, s.parent[s.cur]), s.cur);
    }
  }

  lemma WakeEffect(s: Sched, pid: int)
    requires SInv(s) && pid in Kids(s.kidsB, s.cur) && pid in s.blocked
    ensures var s' := WakeChild(s, pid);
      && s' == s.(ready := s.ready + [pid], blocked := s'.blocked, kidsB := s'.kidsB, kidsU := s'.kidsU)
      && Without(s.blocked, s'.blocked, pid) && Without(Kids(s.kidsB, s.cur), Kids(s'.kidsB, s.cur), pid)
      && Kids(s'.kidsU, s.cur) == Kids(s.kidsU, s.cur) + [pid] && OtherKidsStay(s, s', s.cur)
  {
    RemovedIs(s.blocked, pid);
    RemovedIs(Kids(s.kidsB, s.cur), pid);
  }

  lemma LaterEffect(s: Sched, pid: int)
    ensures var s' := UnblockLater(s, pid);
      && s' == s.(pending := s'.pending) && Get(s'.pending, pid, 0) == Get(s.pending, pid, 0) + 1
      && forall p :: p != pid ==> Get(s'.pending, p, 0) == Get(s.pending, p, 0)
  {
  }

  /** What unblock comes to. */
  lemma UnblockIs(s: Sched, pid: int)
    requires SInv(s) && Enabled(s, OpUnblock(pid))
    ensures var child := pid in s.parent && s.parent[pid] == s.cur;
      && Unblock(s, pid).1 == (if child then 0 else -1)
      && (pid in Kids(s.kidsB, s.cur) <==> child && pid in s.blocked)
      && Step(s, OpUnblock(pid)) ==
        if !child then s else if pid in s.blocked then WakeChild(s, pid) else UnblockLater(s, pid)
  {
    UnblockFinds(s, pid);
    assert Family(s.kidsB, s.parent, s.blocked, true, s.cur);
    assert Family(s.kidsU, s.parent, s.blocked, false, s.cur);
  }

  /**
   * unblock: a child asleep in block is woken, the last of the ready tasks; one that is not has one more unblock
   * pending; and the PID of no child is an error. The caller runs on.
   */
  lemma UnblockEffect(s: Sched, pid: int)
    requires SInv(s) && Enabled(s, OpUnblock(pid))
    ensures var s', r, child := Step(s, OpUnblock(pid)), Unblock(s, pid).1, pid in s.parent && s.parent[pid] == s.cur;
      && r == (if child then 0 else -1)
      && (!child ==> s' == s)
      && (child && pid in s.blocked ==>
        && s' == s.(ready := s.ready + [pid], blocked := s'.blocked, kidsB := s'.kidsB, kidsU := s'.kidsU)
        && Without(s.blocked, s'.blocked, pid) && Without(Kids(s.kidsB, s.cur), Kids(s'.kidsB, s.cur), pid)
        && Kids(s'.kidsU, s.cur) == Kids(s.kidsU, s.cur) + [pid] && OtherKidsStay(s, s', s.cur))
      && (child && pid !in s.blocked ==>
        && s' == s.(pending := s'.pending) && Get(s'.pending, pid, 0) == Get(s.pending, pid, 0) + 1
        && forall p :: p != pid ==> Get(s'.pending, p, 0) == Get(s.pending, p, 0))
  {
    UnblockIs(s, pid);
    if pid in Kids(s.kidsB, s.cur) { WakeEffect(s, pid); } else { LaterEffect(s, pid); }
  }

  // ---------- the keyboard and read ----------

  /**
   * A key: dropped when 256 characters are stored, and stored otherwise. Then the first sleeping reader, and no other,
   * is woken if at least as many characters are there as it waits for.
   */
  lemma KeyEffect(s: Sched, c: char)
    requires Enabled(s, OpKey(c))
    ensures var s' := Step(s, OpKey(c));
      && (|s.buf| >= 256 ==> s' == s)
      && (|s.buf| < 256 ==>
        if s.kbd != [] && |s.buf| + 1 >= Get(s.need, s.kbd[0], 0) then
          s' == s.(buf := s.buf + [c], kbd := s.kbd[1..], ready := s.ready + [s.kbd[0]], woken := s.woken + {s.kbd[0]})
        else
          s' == s.(buf := s.buf + [c]))
  {
  }

  /**
   * read: the lesser of max, 256 and what is stored is handed out at once, the oldest first; or, with nothing stored,
   * the caller sleeps until the lesser of max and 256 characters are there.
   */
  lemma ReadEffect(s: Sched, max: int)
    requires Enabled(s, OpRead(max))
    ensures var s', n, k := Step(s, OpRead(max)), Lesser(max, 256), Lesser(Lesser(max, 256), |s.buf|);
      && Handed(s, OpRead(max)) == s.buf[..k]
      && (s.buf != [] ==> s' == s.(buf := s.buf[k..]))
      && (s.buf == [] ==>
        && Dispatched(s, s') && Get(s'.need, s.cur, 0) == n
        && (forall p :: p != s.cur ==> Get(s'.need, p, 0) == Get(s.need, p, 0))
        && s' == s.(cur := s'.cur, ready := s'.ready, rem := s'.rem, kbd := s.kbd + [s.cur], need := s'.need))
  {
  }

  /** The end of a read that slept: as many characters as it waited for, or all there are if they are fewer. */
  lemma ResumeEffect(s: Sched)
    requires SInv(s) && Enabled(s, OpResume)
    ensures var s', k := Step(s, OpResume), Lesser(Get(s.need, s.cur, 0), |s.buf|);
      0 <= k && Handed(s, OpResume) == s.buf[..k] && s' == s.(buf := s.buf[k..], woken := s.woken - {s.cur})
  {
  }

  lemma FlushEffect(s: Sched)
    requires Enabled(s, OpFlush)
    ensures Step(s, OpFlush) == s.(buf := [])
  {
  }

  // ---------- a reader over a whole run ----------

  /** t sleeps in read until there are n characters. */
  ghost predicate WaitsFor(s: Sched, t: int, n: int) {
    t in s.kbd && Get(s.need, t, 0) == n
  }

  /** t has been woken, and is to take n characters. */
  ghost predicate MayTake(s: Sched, t: int, n: int) {
    t in s.woken && Get(s.need, t, 0) == n
  }

  /** This step is a key that leaves at least n characters in the buffer, with t the first sleeper. */
  predicate FillsFor(s: Sched, op: Op, t: int, n: int) {
    Enabled(s, op) && op.OpKey? && |s.buf| < 256 && |s.buf| + 1 >= n && s.kbd != [] && s.kbd[0] == t
  }

  /** t finishes its read now: it gets as many of n characters as there are, the oldest ones. */
  predicate TakesNow(s: Sched, op: Op, t: int, n: int) {
    Enabled(s, op) && op.OpResume? && s.cur == t && 0 <= n && Handed(s, op) == s.buf[..Lesser(n, |s.buf|)]
  }

  lemma SleeperIsApart(s: Sched, t: int)
    requires SInv(s) && t in s.kbd
    ensures t != s.cur && t != s.lastPid + 1 && t !in s.woken && (t == s.kbd[0] ==> t !in s.kbd[1..])
  {
    IdleAndDead(s, t);
    OnePlaceEach(s, t);
    QueuesDistinct(s);
  }

  lemma WokenIsReady(s: Sched, t: int)
    requires SInv(s) && t in s.woken
    ensures t == s.cur || t in s.ready
    ensures t in s.live && t != s.lastPid + 1 && t !in s.kbd
  {
    if t in s.kbd { SleeperIsApart(s, t); }
    IdleAndDead(s, t);
  }

  lemma KeyForSleeper(s: Sched, c: char, t: int, n: int)
    requires SInv(s) && WaitsFor(s, t, n) && Enabled(s, OpKey(c))
    ensures var s' := Step(s, OpKey(c));
      if FillsFor(s, OpKey(c), t, n) then MayTake(s', t, n) && t !in s'.kbd && t in s'.ready && |s'.buf| >= n
      else WaitsFor(s', t, n)
  {
    SleeperIsApart(s, t);
    KeyEffect(s, c);
    if s.kbd[0] != t { assert s.kbd == [s.kbd[0]] + s.kbd[1..]; }
  }

  /** A sleeping reader goes on sleeping, or is woken because there are enough characters. */
  lemma StepOfSleeper(s: Sched, op: Op, t: int, n: int)
    requires SInv(s) && WaitsFor(s, t, n)
    ensures var s' := Step(s, op);
      if FillsFor(s, op, t, n) then MayTake(s', t, n) && t !in s'.kbd && t in s'.ready && |s'.buf| >= n
      else WaitsFor(s', t, n)
  {
    SleeperIsApart(s, t);
    PossibleSteps(s, op);
    if Enabled(s, op) {
      match op
      case OpTick => TickEffect(s);
      case OpKey(c) => KeyForSleeper(s, c, t, n);
      case OpFork => ForkEffect(s);
      case OpExit => ExitEffect(s);
      case OpBlock => BlockEffect(s);
      case OpUnblock(pid) => UnblockEffect(s, pid);
      case OpRead(max) => ReadEffect(s, max);
      case OpFlush =>
      case OpResume => ResumeEffect(s);
    }
  }

  /** A woken reader finishes its read as its next step, and until then stays as it is. */
  lemma StepOfWoken(s: Sched, op: Op, t: int, n: int)
    requires SInv(s) && MayTake(s, t, n)
    ensures var s' := Step(s, op);
      if Enabled(s, op) && s.cur == t then TakesNow(s, op, t, n) && t !in s'.woken && s'.cur == t
      else MayTake(s', t, n)
  {
    WokenIsReady(s, t);
    PossibleSteps(s, op);
    if Enabled(s, op) {
      match op
      case OpTick => TickEffect(s);
      case OpKey(c) => KeyEffect(s, c);
      case OpFork => ForkEffect(s);
      case OpExit => ExitEffect(s);
      case OpBlock => BlockEffect(s);
      case OpUnblock(pid) => UnblockEffect(s, pid);
      case OpRead(max) => ReadEffect(s, max);
      case OpFlush =>
      case OpResume => ResumeEffect(s);
    }
  }

  /** A key of the run leaves enough characters for t. */
  predicate IsFilled(s: Sched, ops: seq<Op>, t: int, n: int)
    decreases |ops|
  {
    ops != [] && (FillsFor(s, ops[0], t, n) || IsFilled(Step(s, ops[0]), ops[1..], t, n))
  }

  ghost predicate WaitsThroughout(s: Sched, ops: seq<Op>, t: int, n: int)
    decreases |ops|
  {
    WaitsFor(s, t, n) && (ops != [] ==> WaitsThroughout(Step(s, ops[0]), ops[1..], t, n))
  }

  /** Over a whole run a reader sleeps until a key leaves as many characters as it waits for: then, and not before. */
  lemma {:induction false} SleepsUntilFilled(s: Sched, ops: seq<Op>, t: int, n: int)
    requires SInv(s) && WaitsFor(s, t, n)
    ensures WaitsThroughout(s, ops, t, n) <==> !IsFilled(s, ops, t, n)
    decreases |ops|
  {
    if ops != [] {
      StepOfSleeper(s, ops[0], t, n);
      StepKeeps(s, ops[0]);
      if !FillsFor(s, ops[0], t, n) { SleepsUntilFilled(Step(s, ops[0]), ops[1..], t, n); }
    }
  }

  ghost predicate FilledAt(s: Sched, ops: seq<Op>, t: int, n: int, i: nat) {
    i < |ops| && FillsFor(Run(s, ops[..i]), ops[i], t, n)
  }

  ghost predicate TakenAt(s: Sched, ops: seq<Op>, t: int, n: int, k: nat) {
    k < |ops| && TakesNow(Run(s, ops[..k]), ops[k], t, n)
  }

  lemma TakenLater(s: Sched, ops: seq<Op>, t: int, n: int, k: nat)
    requires ops != [] && TakenAt(Step(s, ops[0]), ops[1..], t, n, k)
    ensures TakenAt(s, ops, t, n, k + 1)
  {
    RunPrefix(s, ops, k);
  }

  lemma FilledLater(s: Sched, ops: seq<Op>, t: int, n: int, i: nat)
    requires ops != [] && FilledAt(Step(s, ops[0]), ops[1..], t, n, i)
    ensures FilledAt(s, ops, t, n, i + 1)
  {
    RunPrefix(s, ops, i);
  }

  /** A woken reader that is not to take characters any more has taken them. */
  lemma {:induction false} WokenTakes(s: Sched, ops: seq<Op>, t: int, n: int) returns (k: nat)
    requires SInv(s) && MayTake(s, t, n) && t !in Run(s, ops).woken
    ensures TakenAt(s, ops, t, n, k)
    decreases |ops|
  {
    StepOfWoken(s, ops[0], t, n);
    StepKeeps(s, ops[0]);
    if Enabled(s, ops[0]) && s.cur == t {
      k := 0;
      assert ops[..0] == [];
    } else {
      k := WokenTakes(Step(s, ops[0]), ops[1..], t, n);
      TakenLater(s, ops, t, n, k);
      k := k + 1;
    }
  }

  /** t is served over the run: a key at i leaves n characters for it, and at k it takes them. */
  ghost predicate ServedAt(s: Sched, ops: seq<Op>, t: int, n: int, i: nat, k: nat) {
    i < k && FilledAt(s, ops, t, n, i) && TakenAt(s, ops, t, n, k)
  }

  /**
   * A read that sleeps, from its call to its end: whenever the caller neither sleeps nor is woken any more, a key has
   * left the lesser of max and 256 characters while it was the first sleeper, and after that it took as many of them as
   * were left, once.
   */
  lemma ReadIsServed(s: Sched, max: int, ops: seq<Op>) returns (i: nat, k: nat)
    requires SInv(s) && Enabled(s, OpRead(max)) && s.buf == []
    requires s.cur !in Run(Step(s, OpRead(max)), ops).kbd && s.cur !in Run(Step(s, OpRead(max)), ops).woken
    ensures ServedAt(Step(s, OpRead(max)), ops, s.cur, Lesser(max, 256), i, k)
  {
    ReadEffect(s, max);
    StepKeeps(s, OpRead(max));
    i, k := SleeperTakes(Step(s, OpRead(max)), ops, s.cur, Lesser(max, 256));
  }

  lemma FilledNow(s: Sched, ops: seq<Op>, t: int, n: int)
    requires ops != [] && FillsFor(s, ops[0], t, n)
    ensures FilledAt(s, ops, t, n, 0)
  {
    assert ops[..0] == [];
  }

  lemma {:induction false} SleeperTakes(s: Sched, ops: seq<Op>, t: int, n: int) returns (i: nat, k: nat)
    requires SInv(s) && WaitsFor(s, t, n) && t !in Run(s, ops).kbd && t !in Run(s, ops).woken
    ensures ServedAt(s, ops, t, n, i, k)
    decreases |ops|
  {
    StepOfSleeper(s, ops[0], t, n);
    StepKeeps(s, ops[0]);
    if FillsFor(s, ops[0], t, n) {
      i := 0;
      k := WokenTakes(Step(s, ops[0]), ops[1..], t, n);
      FilledNow(s, ops, t, n);
    } else {
      i, k := SleeperTakes(Step(s, ops[0]), ops[1..], t, n);
      FilledLater(s, ops, t, n, i);
      i := i + 1;
    }
    TakenLater(s, ops, t, n, k);
    k := k + 1;
  }
}
