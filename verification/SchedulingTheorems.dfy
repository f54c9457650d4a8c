/** What the scheduler, block/unblock and the keyboard promise over whole runs. */
module SchedulingTheorems {
  import opened Sequences
  import opened Scheduling
  import opened SchedulingInvariant

  // ---------- one place for every task ----------

  /**
   * A live task other than idle is running, ready, blocked or waiting for the keyboard: exactly one of these, and once.
   */
  lemma OnePlaceEach(s: Sched, t: int)
    requires SInv(s) && t in s.live && t != s.idle
    ensures t == s.cur || t in s.ready || t in s.blocked || t in s.kbd
    ensures t == s.cur ==> t !in s.ready && t !in s.blocked && t !in s.kbd
    ensures t in s.ready ==> t !in s.blocked && t !in s.kbd
    ensures t in s.blocked ==> t !in s.kbd
  {
    assert Spots(s)[t] == 1;
    assert t in s.ready <==> t in multiset(s.ready);
    assert t in s.blocked <==> t in multiset(s.blocked);
    assert t in s.kbd <==> t in multiset(s.kbd);
  }

  /** Idle is running, ready once, or dormant; it never sleeps. A task that is not live is nowhere. */
  lemma IdleAndDead(s: Sched, t: int)
    requires SInv(s)
    ensures s.idle !in s.blocked && s.idle !in s.kbd && (s.idle == s.cur ==> s.idle !in s.ready)
    ensures t !in s.live ==> t != s.cur && t !in s.ready && t !in s.blocked && t !in s.kbd
  {
    assert s.idle in s.ready <==> s.idle in multiset(s.ready);
    assert t in s.ready <==> t in multiset(s.ready);
    assert t in s.blocked <==> t in multiset(s.blocked);
    assert t in s.kbd <==> t in multiset(s.kbd);
    assert t !in s.live ==> t !in Spots(s);
  }

  lemma Twice(q: seq<int>, i: int, j: int)
    requires 0 <= i < j < |q| && q[i] == q[j]
    ensures multiset(q)[q[i]] >= 2
  {
    assert q == q[..i] + [q[i]] + q[i + 1..j] + [q[j]] + q[j + 1..];
  }

  /** No queue holds a task twice. */
  lemma QueuesDistinct(s: Sched)
    requires SInv(s)
    ensures Distinct(s.ready) && Distinct(s.blocked) && Distinct(s.kbd)
  {
    forall t ensures multiset(s.ready)[t] <= 1 && multiset(s.blocked)[t] <= 1 && multiset(s.kbd)[t] <= 1 {
      assert t in Spots(s) ==> t in s.live;
      assert Spots(s)[t] <= 1;
    }
    forall i, j | 0 <= i < j < |s.ready| ensures s.ready[i] != s.ready[j] {
      if s.ready[i] == s.ready[j] { Twice(s.ready, i, j); }
    }
    forall i, j | 0 <= i < j < |s.blocked| ensures s.blocked[i] != s.blocked[j] {
      if s.blocked[i] == s.blocked[j] { Twice(s.blocked, i, j); }
    }
    forall i, j | 0 <= i < j < |s.kbd| ensures s.kbd[i] != s.kbd[j] {
      if s.kbd[i] == s.kbd[j] { Twice(s.kbd, i, j); }
    }
  }

  // ---------- no lost wake-up ----------

  /**
   * When no woken reader is still to read, the first sleeper lacks characters and the buffer has room for the next key.
   */
  lemma SleeperLacksCharacters(s: Sched, c: char)
    requires SInv(s) && s.kbd != [] && s.woken == {}
    ensures |s.buf| < Get(s.need, s.kbd[0], 0) && |s.buf| < KEYBOARD_BUF_SIZE
    ensures Key(s, c).buf == s.buf + [c]
    ensures |s.buf| + 1 == Get(s.need, s.kbd[0], 0) ==>
      Key(s, c).kbd == s.kbd[1..] && Key(s, c).ready == s.ready + [s.kbd[0]]
  {
    NobodyPromised([s.cur] + s.ready, s.need);
  }

  lemma {:induction false} NobodyPromised(q: seq<int>, need: map<int, int>)
    ensures WokenNeed(q, {}, need) == 0
  {
    if q != [] { NobodyPromised(q[1..], need); }
  }

  // ---------- bounded waiting ----------

  /** How many clock ticks a ready task can still wait. */
  function Rank(s: Sched, t: int): int
    requires t in s.ready
  {
    Position(s.ready, t) * 10 + s.rem
  }

  /** The clock ticks of a run that are delivered. */
  function Ticks(s: Sched, ops: seq<Op>): nat
    decreases |ops|
  {
    if ops == [] then 0
    else (if ops[0].OpTick? && Enabled(s, ops[0]) then 1 else 0) + Ticks(Step(s, ops[0]), ops[1..])
  }

  lemma {:induction false} PositionAppend(q: seq<int>, t: int, x: int)
    requires t in q
    ensures t in q + [x] && Position(q + [x], t) == Position(q, t)
  {
    if q[0] != t {
      assert (q + [x])[1..] == q[1..] + [x];
      PositionAppend(q[1..], t, x);
    }
  }

  /** t runs in s', or its rank has gone down by at least `gain`. */
  ghost predicate Nearer(s: Sched, s': Sched, t: int, gain: int)
    requires t in s.ready
  {
    s'.cur == t || (t in s'.ready && Rank(s', t) <= Rank(s, t) - gain)
  }

  /** After a dispatch a ready task is running, or it is one place further and the quantum is full. */
  lemma DispatchRank(s: Sched, t: int)
    requires t in s.ready
    ensures Nearer(s, SchedNext(s), t, s.rem)
  {
    if s.ready[0] != t { assert t in s.ready[1..]; }
  }

  lemma AppendRank(s: Sched, s': Sched, t: int, x: int)
    requires t in s.ready && s'.ready == s.ready + [x] && s'.rem == s.rem
    ensures t in s'.ready && Rank(s', t) == Rank(s, t)
  {
    PositionAppend(s.ready, t, x);
  }

  lemma TickRank(s: Sched, t: int)
    requires t in s.ready && 1 <= s.rem
    ensures Nearer(s, Tick(s), t, 1)
  {
    var s1 := s.(rem := s.rem - 1);
    if !(s1.rem > 0 && s1.ready != []) {
      var s2 := s1.(ready := s1.ready + [s1.cur]);
      AppendRank(s1, s2, t, s1.cur);
      DispatchRank(s2, t);
    }
  }

  lemma UnblockRank(s: Sched, pid: int, t: int)
    requires t in s.ready
    ensures Nearer(s, Unblock(s, pid).0, t, 0)
  {
    if pid in Kids(s.kidsB, s.cur) { AppendRank(s, Unblock(s, pid).0, t, pid); }
  }

  lemma ReadRank(s: Sched, max: int, t: int)
    requires t in s.ready && 1 <= s.rem
    ensures Nearer(s, Read(s, max), t, 0)
  {
    DispatchRank(s.(need := s.need[s.cur := Min(max, KEYBOARD_BUF_SIZE)], kbd := s.kbd + [s.cur]), t);
  }

  lemma BlockRank(s: Sched, t: int)
    requires t in s.ready && 1 <= s.rem
    ensures Nearer(s, Block(s), t, 0)
  {
    DispatchRank(Sleep(s), t);
  }

  lemma KeyRank(s: Sched, c: char, t: int)
    requires t in s.ready
    ensures Nearer(s, Key(s, c), t, 0)
  {
    if Key(s, c).ready != s.ready { AppendRank(s, Key(s, c), t, s.kbd[0]); }
  }

  /** No step moves a ready task back, and a tick always moves it forward. */
  lemma StepRank(s: Sched, op: Op, t: int)
    requires t in s.ready && 1 <= s.rem
    ensures Nearer(s, Step(s, op), t, if op.OpTick? && Enabled(s, op) then 1 else 0)
  {
    if Enabled(s, op) {
      match op
      case OpTick => TickRank(s, t);
      case OpFork => AppendRank(s, Fork(s), t, s.lastPid + 1);
      case OpExit => DispatchRank(s.(live := s.live - {s.cur}), t);
      case OpBlock => BlockRank(s, t);
      case OpUnblock(pid) => UnblockRank(s, pid, t);
      case OpRead(max) => ReadRank(s, max, t);
      case OpKey(c) => KeyRank(s, c, t);
      case OpFlush =>
      case OpResume =>
    }
  }

  /**
   * Bounded waiting: whatever else happens, a ready task runs before as many ticks have been delivered as its rank
   * says.
   */
  lemma {:induction false} BoundedWaiting(s: Sched, ops: seq<Op>, t: int)
    requires s.rem <= QUANTUM && 1 <= s.rem && t in s.ready && Ticks(s, ops) >= Rank(s, t)
    ensures exists n :: 0 <= n <= |ops| && Run(s, ops[..n]).cur == t
    decreases |ops|
  {
    var s1 := Step(s, ops[0]);
    StepRank(s, ops[0], t);
    if s1.cur == t {
      RunPrefix(s, ops, 0);
      assert Run(s, ops[..1]).cur == t;
    } else {
      StepQuantum(s, ops[0]);
      BoundedWaiting(s1, ops[1..], t);
      var n :| 0 <= n <= |ops| - 1 && Run(s1, ops[1..][..n]).cur == t;
      RunPrefix(s, ops, n);
      assert Run(s, ops[..n + 1]).cur == t;
    }
  }

  lemma RunPrefix(s: Sched, ops: seq<Op>, n: nat)
    requires n < |ops|
    ensures Run(s, ops[..n + 1]) == Run(Step(s, ops[0]), ops[1..][..n])
  {
    assert ops[..n + 1][1..] == ops[1..][..n];
    assert ops[..n + 1][0] == ops[0];
  }

  /** With k tasks before it in the queue a task waits at most 10 * (k + 1) ticks. */
  lemma WaitsTenTicksEach(s: Sched, ops: seq<Op>, t: int)
    requires SInv(s) && 1 <= s.rem && t in s.ready && Ticks(s, ops) >= 10 * (Position(s.ready, t) + 1)
    ensures exists n :: 0 <= n <= |ops| && Run(s, ops[..n]).cur == t
  {
    BoundedWaiting(s, ops, t);
  }

  // ---------- block and unblock ----------

  function Count(b: bool): nat { if b then 1 else 0 }

  /** The running task unblocks its child c with success. */
  predicate UnblocksChild(s: Sched, op: Op, c: int) {
    Enabled(s, op) && op == OpUnblock(c) && Unblock(s, c).1 == 0
  }

  predicate CallsBlock(s: Sched, op: Op, c: int) {
    Enabled(s, op) && op.OpBlock? && s.cur == c
  }

  /** A block of c comes to its end: at once, paid by a pending unblock, or because c is woken. */
  predicate CompletesBlock(s: Sched, op: Op, c: int) {
    (CallsBlock(s, op, c) && Get(s.pending, c, 0) > 0) || (UnblocksChild(s, op, c) && c in s.blocked)
  }

  function Unblocks(s: Sched, ops: seq<Op>, c: int): nat
    decreases |ops|
  {
    if ops == [] then 0 else Count(UnblocksChild(s, ops[0], c)) + Unblocks(Step(s, ops[0]), ops[1..], c)
  }

  function BlockCalls(s: Sched, ops: seq<Op>, c: int): nat
    decreases |ops|
  {
    if ops == [] then 0 else Count(CallsBlock(s, ops[0], c)) + BlockCalls(Step(s, ops[0]), ops[1..], c)
  }

  function Completions(s: Sched, ops: seq<Op>, c: int): nat
    decreases |ops|
  {
    if ops == [] then 0 else Count(CompletesBlock(s, ops[0], c)) + Completions(Step(s, ops[0]), ops[1..], c)
  }

  /**
   * A child is in its parent's list of blocked children exactly when it sleeps in block, and then nothing is pending.
   */
  lemma ChildLists(s: Sched, c: int)
    requires SInv(s) && c in s.parent
    ensures c in Kids(s.kidsB, s.parent[c]) <==> c in s.blocked
    ensures c in Kids(s.kidsU, s.parent[c]) <==> c !in s.blocked
    ensures Get(s.pending, c, 0) > 0 ==> c !in s.blocked
  {
    assert Family(s.kidsB, s.parent, s.blocked, true, s.parent[c]);
    assert Family(s.kidsU, s.parent, s.blocked, false, s.parent[c]);
  }

  /** Unblocking a child that sleeps in read does not wake it: it only adds a pending unblock. */
  lemma UnblockOfReader(s: Sched, c: int)
    requires SInv(s) && c in s.parent && s.parent[c] == s.cur && c in s.kbd && c in s.live
    ensures Unblock(s, c) == (s.(pending := s.pending[c := Get(s.pending, c, 0) + 1]), 0)
  {
    OnePlaceEach(s, c);
    ChildLists(s, c);
  }

  /** Unblock finds exactly the caller's children. */
  lemma UnblockFinds(s: Sched, pid: int)
    requires SInv(s)
    ensures Unblock(s, pid).1 == 0 <==> pid in s.parent && s.parent[pid] == s.cur
    ensures Unblock(s, pid).1 != 0 ==> Unblock(s, pid) == (s, -1)
  {
    assert Family(s.kidsB, s.parent, s.blocked, true, s.cur);
    assert Family(s.kidsU, s.parent, s.blocked, false, s.cur);
  }

  /** The books of a child: what one step adds to its unblocks, its block calls and its completed blocks. */
  ghost predicate Booked(s: Sched, s': Sched, c: int, unblocks: int, calls: int, completions: int) {
    && unblocks == Get(s'.pending, c, 0) - Get(s.pending, c, 0) + completions
    && calls == Count(c in s'.blocked) - Count(c in s.blocked) + completions
  }

  lemma BlockBooks(s: Sched, c: int)
    requires SInv(s) && c in s.parent && s.cur != s.idle && s.cur !in s.woken
    ensures var op := OpBlock;
      Booked(s, Block(s), c, 0, Count(CallsBlock(s, op, c)), Count(CompletesBlock(s, op, c)))
  {
    CurIsAwake(s);
    ChildLists(s, c);
  }

  lemma UnblockBooks(s: Sched, pid: int, c: int)
    requires SInv(s) && c in s.parent && s.cur != s.idle && s.cur !in s.woken
    ensures var op := OpUnblock(pid);
      Booked(s, Unblock(s, pid).0, c, Count(UnblocksChild(s, op, c)), 0, Count(CompletesBlock(s, op, c)))
  {
    ChildLists(s, c);
    UnblockFinds(s, pid);
    if pid in Kids(s.kidsB, s.cur) {
      assert Family(s.kidsB, s.parent, s.blocked, true, s.cur);
      WakeBlocked(s, pid);
    }
  }

  lemma OtherBooks(s: Sched, op: Op, c: int)
    requires SInv(s) && c in s.parent && Enabled(s, op) && !op.OpBlock? && !op.OpUnblock?
    ensures Booked(s, Apply(s, op), c, 0, 0, 0)
  {
    if !op.OpFork? { OtherFields(s, op); }
  }

  lemma StepBooks(s: Sched, op: Op, c: int)
    requires SInv(s) && c in s.parent
    ensures c in Step(s, op).parent
    ensures Booked(s, Step(s, op), c, Count(UnblocksChild(s, op, c)), Count(CallsBlock(s, op, c)),
      Count(CompletesBlock(s, op, c)))
  {
    if Enabled(s, op) {
      if op.OpBlock? { BlockBooks(s, c); }
      else if op.OpUnblock? { UnblockBooks(s, op.pid, c); }
      else { OtherBooks(s, op, c); ParentsStay(s, op); }
    }
  }

  lemma ParentsStay(s: Sched, op: Op)
    requires !op.OpBlock? && !op.OpUnblock?
    ensures forall c :: c in s.parent ==> c in Apply(s, op).parent
  {
    if !op.OpFork? { OtherFields(s, op); }
  }

  /**
   * Block and unblock are a counting semaphore. Over any run, the successful unblocks of a child are what its pending
   * count has grown by plus its completed blocks, and its block calls are its completed blocks plus one while it
   * sleeps.
   */
  lemma {:induction false} Semaphore(s: Sched, ops: seq<Op>, c: int)
    requires SInv(s) && c in s.parent
    ensures Booked(s, Run(s, ops), c, Unblocks(s, ops, c), BlockCalls(s, ops, c), Completions(s, ops, c))
    decreases |ops|
  {
    if ops != [] {
      StepBooks(s, ops[0], c);
      StepKeeps(s, ops[0]);
      Semaphore(Step(s, ops[0]), ops[1..], c);
    }
  }

  /**
   * For a child from its fork on: unblocks = pending + completed blocks, block calls = completed blocks + 1 if it
   * sleeps.
   */
  lemma SemaphoreFromFork(s: Sched, ops: seq<Op>)
    requires SInv(s) && Enabled(s, OpFork)
    ensures var c, s' := s.lastPid + 1, Run(Fork(s), ops);
      && Unblocks(Fork(s), ops, c) == Get(s'.pending, c, 0) + Completions(Fork(s), ops, c)
      && BlockCalls(Fork(s), ops, c) == Completions(Fork(s), ops, c) + Count(c in s'.blocked)
  {
    var c := s.lastPid + 1;
    StepKeeps(s, OpFork);
    assert c !in s.blocked by { assert c in s.blocked ==> c in Spots(s); }
    Semaphore(Fork(s), ops, c);
  }

  // ---------- the stream of characters, and the readers in order ----------

  /** The character that a step puts into the buffer. */
  function Accepted(s: Sched, op: Op): seq<char> {
    if Enabled(s, op) && op.OpKey? && |s.buf| < KEYBOARD_BUF_SIZE then [op.c] else []
  }

  /** The characters that a step hands to the running task, or throws away on a flush. */
  function Handed(s: Sched, op: Op): seq<char> {
    if !Enabled(s, op) then []
    else match op
      case OpRead(max) => Taken(s, Min(max, KEYBOARD_BUF_SIZE))
      case OpResume => Taken(s, Get(s.need, s.cur, 0))
      case OpFlush => s.buf
      case _ => []
  }

  function AllAccepted(s: Sched, ops: seq<Op>): seq<char>
    decreases |ops|
  {
    if ops == [] then [] else Accepted(s, ops[0]) + AllAccepted(Step(s, ops[0]), ops[1..])
  }

  function AllHanded(s: Sched, ops: seq<Op>): seq<char>
    decreases |ops|
  {
    if ops == [] then [] else Handed(s, ops[0]) + AllHanded(Step(s, ops[0]), ops[1..])
  }

  lemma Chain<T>(q: seq<T>, a: seq<T>, h: seq<T>, q1: seq<T>, a1: seq<T>, h1: seq<T>, q2: seq<T>)
    requires q + a == h + q1 && q1 + a1 == h1 + q2
    ensures q + (a + a1) == (h + h1) + q2
  {
    assert q + (a + a1) == (q + a) + a1;
    assert (h + q1) + a1 == h + (q1 + a1);
    assert h + (h1 + q2) == (h + h1) + q2;
  }

  lemma StepStream(s: Sched, op: Op)
    ensures s.buf + Accepted(s, op) == Handed(s, op) + Step(s, op).buf
  {
    if Enabled(s, op) {
      match op
      case OpUnblock(pid) =>
      case OpRead(max) => if Taken(s, Min(max, KEYBOARD_BUF_SIZE)) != [] {
        assert Read(s, max).buf == s.buf[|Handed(s, op)|..];
      }
      case OpResume => assert Resume(s).buf == s.buf[|Handed(s, op)|..];
      case _ =>
    }
  }

  /** Every accepted character is handed out or thrown away once, in order of arrival, or is still in the buffer. */
  lemma {:induction false} StreamFidelity(s: Sched, ops: seq<Op>)
    ensures s.buf + AllAccepted(s, ops) == AllHanded(s, ops) + Run(s, ops).buf
    decreases |ops|
  {
    if ops != [] {
      var s1 := Step(s, ops[0]);
      StepStream(s, ops[0]);
      StreamFidelity(s1, ops[1..]);
      Chain(s.buf, Accepted(s, ops[0]), Handed(s, ops[0]), s1.buf,
        AllAccepted(s1, ops[1..]), AllHanded(s1, ops[1..]), Run(s1, ops[1..]).buf);
    }
  }

  /** The task that a step puts to sleep on the keyboard. */
  function Sleeps(s: Sched, op: Op): seq<int> {
    if Enabled(s, op) && op.OpRead? && Taken(s, Min(op.max, KEYBOARD_BUF_SIZE)) == [] then [s.cur] else []
  }

  /** The reader that a step wakes. */
  function Wakes(s: Sched, op: Op): seq<int> {
    if Enabled(s, op) && op.OpKey? && |s.buf| < KEYBOARD_BUF_SIZE && Served(s.(buf := s.buf + [op.c])) then [s.kbd[0]]
      else []
  }

  function AllSleeps(s: Sched, ops: seq<Op>): seq<int>
    decreases |ops|
  {
    if ops == [] then [] else Sleeps(s, ops[0]) + AllSleeps(Step(s, ops[0]), ops[1..])
  }

  function AllWakes(s: Sched, ops: seq<Op>): seq<int>
    decreases |ops|
  {
    if ops == [] then [] else Wakes(s, ops[0]) + AllWakes(Step(s, ops[0]), ops[1..])
  }

  lemma StepReadersInOrder(s: Sched, op: Op)
    ensures s.kbd + Sleeps(s, op) == Wakes(s, op) + Step(s, op).kbd
  {
    if Enabled(s, op) {
      match op
      case OpUnblock(pid) =>
      case OpKey(c) => if Wakes(s, op) != [] { assert s.kbd == [s.kbd[0]] + s.kbd[1..]; }
      case OpBlock =>
      case _ =>
    }
  }

  /** Readers leave the keyboard queue in the order in which they joined it. */
  lemma {:induction false} ReadersInOrder(s: Sched, ops: seq<Op>)
    ensures s.kbd + AllSleeps(s, ops) == AllWakes(s, ops) + Run(s, ops).kbd
    decreases |ops|
  {
    if ops != [] {
      var s1 := Step(s, ops[0]);
      StepReadersInOrder(s, ops[0]);
      ReadersInOrder(s1, ops[1..]);
      Chain(s.kbd, Sleeps(s, ops[0]), Wakes(s, ops[0]), s1.kbd,
        AllSleeps(s1, ops[1..]), AllWakes(s1, ops[1..]), Run(s1, ops[1..]).kbd);
    }
  }

  // ---------- exit and families ----------

  /** No live family has a dead member: whatever the lists of children lead to is a live PCB. */
  ghost predicate FamiliesAlive(s: Sched) {
    forall c :: c in s.parent ==> c in s.live && s.parent[c] in s.live
  }

  ghost predicate HasFamily(s: Sched, t: int) {
    t in s.parent || exists c :: c in s.parent && s.parent[c] == t
  }

  /** Exit does not unlink the task from its family, so families stay alive exactly until a task that has one exits. */
  lemma ExitLeavesFamily(s: Sched, op: Op)
    requires SInv(s) && FamiliesAlive(s)
    ensures FamiliesAlive(Step(s, op)) <==> !(op.OpExit? && Enabled(s, op) && HasFamily(s, s.cur))
  {
    assert s.cur in Spots(s);
    if Enabled(s, op) && !op.OpExit? { SameParents(s, op); }
    if op.OpExit? && Enabled(s, op) {
      var s' := Step(s, op);
      assert s'.parent == s.parent && s'.live == s.live - {s.cur};
      if c :| c in s.parent && s.parent[c] == s.cur { assert s'.parent[c] !in s'.live; }
    }
  }

  lemma SameParents(s: Sched, op: Op)
    requires Enabled(s, op) && !op.OpExit?
    ensures Step(s, op).live == s.live + if op.OpFork? then {s.lastPid + 1} else {}
    ensures Step(s, op).parent == if op.OpFork? then s.parent[s.lastPid + 1 := s.cur] else s.parent
  {
    match op
    case OpUnblock(pid) => assert Unblock(s, pid).0.parent == s.parent;
    case OpBlock => assert Sleep(s).parent == s.parent && Sleep(s).live == s.live;
    case _ =>
  }

  // ---------- idle ----------

  /** A tick takes the processor from a task and gives it to idle, with that task ready, exactly when idle is next. */
  lemma IdleRunsBeforeOthers(s: Sched)
    requires s.cur != s.idle && Enabled(s, OpTick)
    ensures var s' := Step(s, OpTick);
      s'.cur == s'.idle && s'.ready != [] <==> s.rem <= 1 && s.ready != [] && s.ready[0] == s.idle
  {
  }

  function TickOps(n: nat): (ops: seq<Op>)
    ensures |ops| == n
  {
    if n == 0 then [] else [OpTick] + TickOps(n - 1)
  }

  /** While others are ready and the quantum lasts, ticks only count. */
  lemma {:induction false} TicksCount(s: Sched, n: nat)
    requires s.cur !in s.woken && s.ready != [] && n < s.rem
    ensures Run(s, TickOps(n)) == s.(rem := s.rem - n)
    decreases n
  {
    if n > 0 {
      assert TickOps(n)[1..] == TickOps(n - 1) && TickOps(n)[0] == OpTick;
      TicksCount(s.(rem := s.rem - 1), n - 1);
    }
  }

  /** With the last tick of the quantum the first ready task runs, and the other is the last one ready. */
  lemma QuantumEnds(s: Sched)
    requires s.cur !in s.woken && s.ready != [] && s.rem == QUANTUM
    ensures Run(s, TickOps(QUANTUM)) == s.(cur := s.ready[0], ready := s.ready[1..] + [s.cur], rem := QUANTUM)
  {
    var s9 := s.(rem := 1);
    TicksCount(s, QUANTUM - 1);
    TicksJoin(QUANTUM - 1);
    RunTwice(s, TickOps(QUANTUM - 1), [OpTick]);
    assert (s9.ready + [s.cur])[1..] == s.ready[1..] + [s.cur];
    assert Run(s9, [OpTick]) == Run(Step(s9, OpTick), [OpTick][1..]);
  }

  lemma {:induction false} TicksJoin(n: nat)
    ensures TickOps(n + 1) == TickOps(n) + [OpTick]
  {
    if n > 0 { TicksJoin(n - 1); }
  }

  lemma {:induction false} RunTwice(s: Sched, a: seq<Op>, b: seq<Op>)
    ensures Run(s, a + b) == Run(Run(s, a), b)
    decreases |a|
  {
    if a == [] {
      assert a + b == b;
    } else {
      assert (a + b)[1..] == a[1..] + b;
      RunTwice(Step(s, a[0]), a[1..], b);
    }
  }

  /** The first task sleeps in read, a key wakes it, and 21 steps later idle runs while it is ready. */
  function IdleRun(): seq<Op> {
    [OpRead(1), OpKey('a')] + (TickOps(QUANTUM) + ([OpResume] + TickOps(QUANTUM)))
  }

  /** The first two steps: idle runs, and the first task is ready. */
  lemma SleepsAndWakes() returns (s: Sched)
    ensures s == Run(BOOT_SCHED, [OpRead(1), OpKey('a')])
    ensures s.cur == IDLE_PID == s.idle && s.ready == [INIT_PID] && s.woken == {INIT_PID} && s.rem == QUANTUM
  {
    var s1 := BOOT_SCHED.(need := map[INIT_PID := 1], kbd := [INIT_PID], cur := IDLE_PID, rem := QUANTUM);
    assert Step(BOOT_SCHED, OpRead(1)) == s1 by { assert Taken(BOOT_SCHED, 1) == []; }
    s := Step(s1, OpKey('a'));
    assert s1.(buf := s1.buf + ['a']).buf == ['a'];
    assert s.ready == [] + [INIT_PID];
    assert [OpRead(1), OpKey('a')][1..] == [OpKey('a')];
    RunOne(s1, OpKey('a'));
  }

  lemma RunOne(s: Sched, op: Op)
    ensures Run(s, [op]) == Step(s, op)
  {
    assert Run(Step(s, op), [op][1..]) == Step(s, op);
  }

  lemma IdleRunsAfterBoot()
    ensures var s := Run(BOOT_SCHED, IdleRun()); s.cur == s.idle && s.ready == [INIT_PID]
  {
    var s2 := SleepsAndWakes();
    var s3 := s2.(cur := INIT_PID, ready := [IDLE_PID], rem := QUANTUM);
    var s4 := Step(s3, OpResume);
    RunTwice(BOOT_SCHED, [OpRead(1), OpKey('a')], TickOps(QUANTUM) + ([OpResume] + TickOps(QUANTUM)));
    RunTwice(s2, TickOps(QUANTUM), [OpResume] + TickOps(QUANTUM));
    QuantumEnds(s2);
    assert s2.ready[1..] + [s2.cur] == [IDLE_PID];
    RunTwice(s3, [OpResume], TickOps(QUANTUM));
    RunOne(s3, OpResume);
    QuantumEnds(s4);
    assert s4.ready[1..] + [s4.cur] == [INIT_PID];
  }
}
