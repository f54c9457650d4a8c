/** Every step keeps the queues, the readers and the families consistent. */
module SchedulingInvariant {
  import opened Sequences
  import opened Scheduling

  // ---------- places ----------

  ghost function Queued(s: Sched): multiset<int> {
    multiset(s.ready) + multiset(s.blocked) + multiset(s.kbd)
  }

  /** As Placed, when nobody holds the processor. */
  ghost predicate Waiting(s: Sched) {
    && (forall t :: t in s.live && t != s.idle ==> Queued(s)[t] == 1)
    && (forall t :: t in Queued(s) ==> t in s.live)
    && Queued(s)[s.idle] <= 1
    && s.idle !in s.blocked && s.idle !in s.kbd
    && s.idle in s.live
    && (forall t :: t in s.live ==> t <= s.lastPid)
  }

  lemma FirstOf(q: seq<int>)
    requires q != []
    ensures multiset(q) == multiset{q[0]} + multiset(q[1..])
  {
    assert q == [q[0]] + q[1..];
  }

  lemma RemoveBag(q: seq<int>, t: int)
    ensures multiset(Remove(q, t)) == multiset(q) - multiset{t}
  {
    if t in q {
      var i := Position(q, t);
      assert q == q[..i] + [t] + q[i + 1..];
    }
  }

  lemma SchedNextPlaces(s: Sched)
    requires Waiting(s)
    ensures Placed(SchedNext(s))
  {
    if s.ready == [] {
      assert Spots(SchedNext(s)) == Queued(s) + multiset{s.idle};
    } else {
      FirstOf(s.ready);
      assert Spots(SchedNext(s)) == Queued(s);
    }
  }

  lemma {:induction false} TickPlaces(s: Sched)
    requires Placed(s)
    ensures Placed(Tick(s))
  {
    var s1 := s.(rem := s.rem - 1);
    assert Spots(s1) == Spots(s);
    var s2 := s1.(ready := s1.ready + [s1.cur]);
    assert Queued(s2) == Spots(s);
    SchedNextPlaces(s2);
  }

  lemma ForkPlaces(s: Sched)
    requires Placed(s)
    ensures Placed(Fork(s))
  {
    var c := s.lastPid + 1;
    assert Spots(Fork(s)) == Spots(s) + multiset{c};
    assert c !in s.live && c !in Spots(s);
  }

  lemma ExitPlaces(s: Sched)
    requires Placed(s) && s.cur != s.idle
    ensures Placed(Exit(s))
  {
    var s1 := s.(live := s.live - {s.cur});
    assert Queued(s1) == Spots(s) - multiset{s.cur};
    assert s.cur in Spots(s);
    SchedNextPlaces(s1);
  }

  lemma SleepQueued(s: Sched)
    requires Placed(s) && s.cur != s.idle
    ensures Waiting(Sleep(s))
  {
    assert Queued(Sleep(s)) == Spots(s);
  }

  lemma BlockPlaces(s: Sched)
    requires Placed(s) && s.cur != s.idle
    ensures Placed(Block(s))
  {
    if Get(s.pending, s.cur, 0) > 0 {
      SameSpots(s, Block(s));
    } else {
      SleepQueued(s);
      SchedNextPlaces(Sleep(s));
    }
  }

  lemma SameSpots(s: Sched, s': Sched)
    requires Placed(s) && Spots(s') == Spots(s) && s'.live == s.live && s'.idle == s.idle && s'.lastPid == s.lastPid
    requires s.idle !in s'.blocked && s.idle !in s'.kbd
    ensures Placed(s')
  {
  }

  lemma UnblockPlaces(s: Sched, pid: int)
    requires Placed(s) && Families(s)
    ensures Placed(Unblock(s, pid).0)
  {
    var s' := Unblock(s, pid).0;
    if pid in Kids(s.kidsB, s.cur) {
      assert Family(s.kidsB, s.parent, s.blocked, true, s.cur);
      assert pid in s.blocked;
      assert pid in multiset(s.blocked);
      RemoveBag(s.blocked, pid);
      assert s.idle in s'.blocked ==> s.idle in multiset(s'.blocked);
      assert Spots(s') == Spots(s);
    }
    SameSpots(s, s');
  }

  lemma FirstReaderPlaces(s: Sched, s': Sched)
    requires Placed(s) && s.kbd != [] && s'.kbd == s.kbd[1..] && s'.ready == s.ready + [s.kbd[0]]
    requires s'.blocked == s.blocked
    requires s'.cur == s.cur && s'.live == s.live && s'.idle == s.idle && s'.lastPid == s.lastPid
    ensures Placed(s')
  {
    FirstOf(s.kbd);
    assert s.idle in s.kbd[1..] ==> s.idle in s.kbd;
    assert Spots(s') == Spots(s);
    SameSpots(s, s');
  }

  lemma KeyPlaces(s: Sched, c: char)
    requires Placed(s)
    ensures Placed(Key(s, c))
  {
    if |s.buf| < KEYBOARD_BUF_SIZE {
      var s1 := s.(buf := s.buf + [c]);
      SameSpots(s, s1);
      if Served(s1) { FirstReaderPlaces(s1, WakeFirst(s1)); }
    }
  }

  lemma ReadPlaces(s: Sched, max: int)
    requires Placed(s) && s.cur != s.idle
    ensures Placed(Read(s, max))
  {
    var n := Min(max, KEYBOARD_BUF_SIZE);
    if Taken(s, n) != [] {
      assert Spots(Read(s, max)) == Spots(s);
    } else {
      var s1 := s.(need := s.need[s.cur := n], kbd := s.kbd + [s.cur]);
      assert Queued(s1) == Spots(s);
      SchedNextPlaces(s1);
    }
  }

  lemma StepPlaces(s: Sched, op: Op)
    requires Placed(s) && Families(s)
    ensures Placed(Step(s, op))
  {
    if Enabled(s, op) {
      match op
      case OpTick => TickPlaces(s);
      case OpKey(c) => KeyPlaces(s, c);
      case OpFork => ForkPlaces(s);
      case OpExit => ExitPlaces(s);
      case OpBlock => BlockPlaces(s);
      case OpUnblock(pid) => UnblockPlaces(s, pid);
      case OpRead(max) => ReadPlaces(s, max);
      case OpFlush => assert Spots(Flush(s)) == Spots(s);
      case OpResume => assert Spots(Resume(s)) == Spots(s);
    }
  }

  // ---------- readers ----------

  lemma {:induction false} NeedAppend(q: seq<int>, t: int, woken: set<int>, need: map<int, int>)
    ensures WokenNeed(q + [t], woken, need) == WokenNeed(q, woken, need) + if t in woken then Get(need, t, 0) else 0
  {
    if q != [] {
      assert (q + [t])[1..] == q[1..] + [t];
      NeedAppend(q[1..], t, woken, need);
    }
  }

  lemma {:induction false} NeedSame(q: seq<int>, w1: set<int>, n1: map<int, int>, w2: set<int>, n2: map<int, int>)
    requires forall t :: t in q ==> (t in w1 <==> t in w2) && (t in w1 ==> Get(n1, t, 0) == Get(n2, t, 0))
    ensures WokenNeed(q, w1, n1) == WokenNeed(q, w2, n2)
  {
    if q != [] { NeedSame(q[1..], w1, n1, w2, n2); }
  }

  lemma {:induction false} NeedNonNegative(q: seq<int>, woken: set<int>, need: map<int, int>)
    requires forall t :: t in woken ==> 1 <= Get(need, t, 0)
    ensures WokenNeed(q, woken, need) >= 0
  {
    if q != [] { NeedNonNegative(q[1..], woken, need); }
  }

  lemma FirstNeed(t: int, q: seq<int>, woken: set<int>, need: map<int, int>)
    ensures WokenNeed([t] + q, woken, need) == (if t in woken then Get(need, t, 0) else 0) + WokenNeed(q, woken, need)
  {
    assert ([t] + q)[1..] == q;
  }

  /** A dispatch changes neither what is promised nor who is asleep. */
  lemma SchedNextReaders(s: Sched)
    requires |s.buf| <= KEYBOARD_BUF_SIZE
    requires forall t :: t in s.kbd || t in s.woken ==> 1 <= Get(s.need, t, 0) <= KEYBOARD_BUF_SIZE
    requires forall t :: t in s.woken ==> t in s.ready
    requires s.kbd != [] ==> |s.buf| < Get(s.need, s.kbd[0], 0) + WokenNeed(s.ready, s.woken, s.need)
    ensures Readers(SchedNext(s))
  {
    var s' := SchedNext(s);
    if s.ready == [] {
      FirstNeed(s.idle, [], s.woken, s.need);
    } else {
      assert s.ready == [s.ready[0]] + s.ready[1..];
    }
  }

  lemma TickReaders(s: Sched)
    requires Readers(s) && s.cur !in s.woken
    ensures Readers(Tick(s))
  {
    FirstNeed(s.cur, s.ready, s.woken, s.need);
    NeedAppend(s.ready, s.cur, s.woken, s.need);
    var s1 := s.(rem := s.rem - 1);
    if !(s1.rem > 0 && s1.ready != []) { SchedNextReaders(s1.(ready := s1.ready + [s1.cur])); }
  }

  /** A task joins the ready queue that is not a woken reader. */
  lemma JoinReaders(s: Sched, t: int)
    requires Readers(s) && t !in s.woken
    ensures Readers(s.(ready := s.ready + [t]))
  {
    assert [s.cur] + (s.ready + [t]) == ([s.cur] + s.ready) + [t];
    NeedAppend([s.cur] + s.ready, t, s.woken, s.need);
  }

  /** The running task leaves the processor for a place that is not the ready queue. */
  lemma LeaveReaders(s: Sched, s1: Sched)
    requires Readers(s) && s.cur !in s.woken
    requires s1.buf == s.buf && s1.woken == s.woken && s1.need == s.need && s1.kbd == s.kbd && s1.ready == s.ready
    ensures Readers(SchedNext(s1))
  {
    FirstNeed(s.cur, s.ready, s.woken, s.need);
    SchedNextReaders(s1);
  }

  lemma ReadReaders(s: Sched, max: int)
    requires Placed(s) && Readers(s) && s.cur !in s.woken && max > 0
    ensures Readers(Read(s, max))
  {
    var n := Min(max, KEYBOARD_BUF_SIZE);
    if Taken(s, n) == [] {
      assert s.cur !in s.ready && s.cur !in s.kbd by {
        assert s.cur in s.ready ==> s.cur in multiset(s.ready);
        assert s.cur in s.kbd ==> s.cur in multiset(s.kbd);
        assert Spots(s)[s.cur] == 1;
      }
      var need := s.need[s.cur := n];
      FirstNeed(s.cur, s.ready, s.woken, s.need);
      NeedSame(s.ready, s.woken, s.need, s.woken, need);
      NeedNonNegative(s.ready, s.woken, s.need);
      SchedNextReaders(s.(need := need, kbd := s.kbd + [s.cur]));
    }
  }

  lemma OneSpot(s: Sched, t: int)
    requires Placed(s) && t in s.kbd
    ensures t != s.cur && t !in s.ready
  {
    assert t in multiset(s.kbd);
    FirstOf(s.kbd);
    assert Spots(s)[t] == 1;
    assert t in s.ready ==> t in multiset(s.ready);
    assert t in s.kbd[1..] ==> t in multiset(s.kbd[1..]);
  }

  lemma KeyReaders(s: Sched, c: char)
    requires Placed(s) && Readers(s)
    ensures Readers(Key(s, c))
  {
    if |s.buf| < KEYBOARD_BUF_SIZE {
      var q := [s.cur] + s.ready;
      NeedNonNegative(q, s.woken, s.need);
      if s.kbd != [] && |s.buf| + 1 >= Get(s.need, s.kbd[0], 0) {
        var k := s.kbd[0];
        OneSpot(s, k);
        assert k !in q;
        NeedSame(q, s.woken, s.need, s.woken + {k}, s.need);
        NeedAppend(q, k, s.woken + {k}, s.need);
        assert q + [k] == [s.cur] + (s.ready + [k]);
      }
    }
  }

  lemma ResumeReaders(s: Sched)
    requires Placed(s) && Readers(s) && s.cur in s.woken
    ensures Readers(Resume(s))
  {
    assert s.cur !in s.ready by {
      assert s.cur in s.ready ==> s.cur in multiset(s.ready);
      assert s.cur in Spots(s);
    }
    FirstNeed(s.cur, s.ready, s.woken, s.need);
    FirstNeed(s.cur, s.ready, s.woken - {s.cur}, s.need);
    NeedSame(s.ready, s.woken, s.need, s.woken - {s.cur}, s.need);
    NeedNonNegative(s.ready, s.woken, s.need);
  }

  lemma StepReaders(s: Sched, op: Op)
    requires SInv(s)
    ensures Readers(Step(s, op))
  {
    if Enabled(s, op) {
      match op
      case OpTick => TickReaders(s);
      case OpKey(c) => KeyReaders(s, c);
      case OpFork => ForkReaders(s);
      case OpExit => LeaveReaders(s, s.(live := s.live - {s.cur}));
      case OpBlock => BlockReaders(s);
      case OpUnblock(pid) => UnblockReaders(s, pid);
      case OpRead(max) => ReadReaders(s, max);
      case OpFlush => NeedNonNegative([s.cur] + s.ready, s.woken, s.need);
      case OpResume => ResumeReaders(s);
    }
  }

  lemma ForkReaders(s: Sched)
    requires SInv(s)
    ensures Readers(Fork(s))
  {
    var c := s.lastPid + 1;
    WokenAreLive(s);
    KbdAreLive(s);
    assert c !in s.live;
    NeedSame([s.cur] + s.ready, s.woken, s.need, s.woken, Fork(s).need);
    JoinReaders(s.(need := Fork(s).need), c);
  }

  lemma KbdAreLive(s: Sched)
    requires SInv(s)
    ensures forall t :: t in s.kbd ==> t in s.live
  {
    forall t | t in s.kbd ensures t in s.live {
      assert t in multiset(s.kbd);
      assert t in Spots(s);
    }
  }

  lemma WokenAreLive(s: Sched)
    requires SInv(s)
    ensures forall t :: t in s.woken ==> t in s.live && t !in s.blocked
  {
    forall t | t in s.woken ensures t in s.live && t !in s.blocked {
      assert t == s.cur || t in multiset(s.ready);
      assert t in Spots(s);
      assert t in s.blocked ==> t in multiset(s.blocked);
    }
  }

  lemma BlockReaders(s: Sched)
    requires SInv(s) && s.cur !in s.woken
    ensures Readers(Block(s))
  {
    if Get(s.pending, s.cur, 0) <= 0 { LeaveReaders(s, Sleep(s)); }
  }

  lemma UnblockReaders(s: Sched, pid: int)
    requires SInv(s)
    ensures Readers(Unblock(s, pid).0)
  {
    if pid in Kids(s.kidsB, s.cur) {
      WokenAreLive(s);
      assert Family(s.kidsB, s.parent, s.blocked, true, s.cur);
      JoinReaders(s, pid);
    }
  }

  // ---------- families ----------

  lemma CurIsAwake(s: Sched)
    requires Placed(s) && s.cur != s.idle
    ensures s.cur !in s.blocked && s.cur in s.live
  {
    assert s.cur in Spots(s);
    assert s.cur in s.blocked ==> s.cur in multiset(s.blocked);
  }

  lemma RemoveDistinct(q: seq<int>, t: int)
    requires Distinct(q)
    ensures Distinct(Remove(q, t))
    ensures forall x :: x in Remove(q, t) <==> x in q && x != t
  {
    if t in q {
      var i := Position(q, t);
      assert q == q[..i] + [t] + q[i + 1..];
    }
  }

  lemma ForkFamily(s: Sched, p: int)
    requires Placed(s) && Families(s) && s.cur != s.idle
    ensures Family(Fork(s).kidsB, Fork(s).parent, Fork(s).blocked, true, p)
    ensures Family(Fork(s).kidsU, Fork(s).parent, Fork(s).blocked, false, p)
  {
    var c := s.lastPid + 1;
    CurIsAwake(s);
    assert c !in s.blocked by { assert c in s.blocked ==> c in Spots(s); }
    assert Family(s.kidsB, s.parent, s.blocked, true, p);
    assert Family(s.kidsU, s.parent, s.blocked, false, p);
  }

  lemma ForkFamilies(s: Sched)
    requires Placed(s) && Families(s) && s.cur != s.idle
    ensures Families(Fork(s))
  {
    CurIsAwake(s);
    forall p
      ensures Family(Fork(s).kidsB, Fork(s).parent, Fork(s).blocked, true, p)
      ensures Family(Fork(s).kidsU, Fork(s).parent, Fork(s).blocked, false, p)
    {
      ForkFamily(s, p);
    }
    assert s.lastPid + 1 !in s.blocked by { assert s.lastPid + 1 in s.blocked ==> s.lastPid + 1 in Spots(s); }
  }

  lemma SleepFamily(s: Sched, p: int)
    requires Families(s) && s.cur !in s.blocked
    ensures Family(Sleep(s).kidsB, s.parent, Sleep(s).blocked, true, p)
    ensures Family(Sleep(s).kidsU, s.parent, Sleep(s).blocked, false, p)
  {
    assert Family(s.kidsB, s.parent, s.blocked, true, p);
    assert Family(s.kidsU, s.parent, s.blocked, false, p);
    RemoveDistinct(Kids(s.kidsU, p), s.cur);
  }

  lemma SleepFamilies(s: Sched)
    requires Families(s) && s.cur !in s.blocked && Get(s.pending, s.cur, 0) <= 0
    ensures Families(Sleep(s))
  {
    forall p
      ensures Family(Sleep(s).kidsB, s.parent, Sleep(s).blocked, true, p)
      ensures Family(Sleep(s).kidsU, s.parent, Sleep(s).blocked, false, p)
    {
      SleepFamily(s, p);
    }
  }

  /** The families do not depend on who runs, who is ready, or what was typed. */
  lemma SameFamilies(s: Sched, s': Sched)
    requires Families(s) && s'.kidsB == s.kidsB && s'.kidsU == s.kidsU && s'.parent == s.parent
    requires s'.blocked == s.blocked && s'.pending == s.pending && s'.lastPid == s.lastPid
    ensures Families(s')
  {
  }

  lemma BlockFamilies(s: Sched)
    requires Placed(s) && Families(s) && s.cur != s.idle
    ensures Families(Block(s))
  {
    CurIsAwake(s);
    if Get(s.pending, s.cur, 0) <= 0 { SleepFamilies(s); }
    SleptFamilies(s);
  }

  lemma SleptFamilies(s: Sched)
    requires Families(s)
    requires Get(s.pending, s.cur, 0) <= 0 ==> Families(Sleep(s))
    ensures Families(Block(s))
  {
    if Get(s.pending, s.cur, 0) > 0 {
      FewerPending(s, s.cur);
    } else {
      SameFamilies(Sleep(s), SchedNext(Sleep(s)));
    }
  }

  lemma FewerPending(s: Sched, c: int)
    requires Families(s) && Get(s.pending, c, 0) > 0
    ensures Families(s.(pending := s.pending[c := s.pending[c] - 1]))
  {
  }

  lemma WakeBlocked(s: Sched, pid: int)
    requires Placed(s) && pid in s.blocked
    ensures forall k :: k in Remove(s.blocked, pid) <==> k in s.blocked && k != pid
  {
    var r := Remove(s.blocked, pid);
    RemoveBag(s.blocked, pid);
    assert pid in multiset(s.blocked);
    assert Spots(s)[pid] == 1;
    forall k ensures k in r <==> k in s.blocked && k != pid {
      assert k in r <==> k in multiset(r);
      assert k in s.blocked <==> k in multiset(s.blocked);
    }
  }

  lemma UnblockFamily(s: Sched, pid: int, p: int)
    requires Placed(s) && Families(s) && pid in Kids(s.kidsB, s.cur)
    ensures var s' := Unblock(s, pid).0;
      Family(s'.kidsB, s'.parent, s'.blocked, true, p) && Family(s'.kidsU, s'.parent, s'.blocked, false, p)
  {
    assert Family(s.kidsB, s.parent, s.blocked, true, s.cur);
    assert Family(s.kidsB, s.parent, s.blocked, true, p);
    assert Family(s.kidsU, s.parent, s.blocked, false, p);
    WakeBlocked(s, pid);
    RemoveDistinct(Kids(s.kidsB, s.cur), pid);
  }

  lemma UnblockFamilies(s: Sched, pid: int)
    requires Placed(s) && Families(s)
    ensures Families(Unblock(s, pid).0)
  {
    var s' := Unblock(s, pid).0;
    assert Family(s.kidsB, s.parent, s.blocked, true, s.cur);
    assert Family(s.kidsU, s.parent, s.blocked, false, s.cur);
    if pid in Kids(s.kidsB, s.cur) {
      WakeBlocked(s, pid);
      forall p
        ensures Family(s'.kidsB, s'.parent, s'.blocked, true, p) && Family(s'.kidsU, s'.parent, s'.blocked, false, p)
      {
        UnblockFamily(s, pid, p);
      }
    }
  }

  lemma OtherFamilies(s: Sched, op: Op)
    requires Families(s) && !op.OpFork? && !op.OpBlock? && !op.OpUnblock?
    ensures Families(Apply(s, op))
  {
    OtherFields(s, op);
    SameFamilies(s, Apply(s, op));
  }

  lemma OtherFields(s: Sched, op: Op)
    requires !op.OpFork? && !op.OpBlock? && !op.OpUnblock?
    ensures SameKin(s, Apply(s, op))
  {
    match op
    case OpTick => TickKin(s);
    case OpKey(c) => KeyKin(s, c);
    case OpExit => assert SameKin(s, Exit(s));
    case OpRead(max) => assert SameKin(s, Read(s, max));
    case OpFlush => assert SameKin(s, Flush(s));
    case OpResume => assert SameKin(s, Resume(s));
  }

  ghost predicate SameKin(s: Sched, s': Sched) {
    && s'.kidsB == s.kidsB && s'.kidsU == s.kidsU && s'.parent == s.parent
    && s'.blocked == s.blocked && s'.pending == s.pending && s'.lastPid == s.lastPid
  }

  lemma TickKin(s: Sched)
    ensures SameKin(s, Tick(s))
  {
  }

  lemma KeyKin(s: Sched, c: char)
    ensures SameKin(s, Key(s, c))
  {
  }

  lemma StepFamilies(s: Sched, op: Op)
    requires Placed(s) && Families(s)
    ensures Families(Step(s, op))
  {
    if Enabled(s, op) {
      match op
      case OpFork => ForkFamilies(s);
      case OpBlock => BlockFamilies(s);
      case OpUnblock(pid) => UnblockFamilies(s, pid);
      case _ => OtherFamilies(s, op);
    }
  }

  // ---------- runs ----------

  lemma StepQuantum(s: Sched, op: Op)
    requires s.rem <= QUANTUM
    ensures Step(s, op).rem <= QUANTUM
    ensures 1 <= s.rem ==> 1 <= Step(s, op).rem
  {
  }

  lemma Together(s: Sched)
    requires Placed(s) && Readers(s) && Families(s) && s.rem <= QUANTUM
    ensures SInv(s)
  {
  }

  lemma StepKeeps(s: Sched, op: Op)
    requires SInv(s)
    ensures SInv(Step(s, op))
  {
    StepPlaces(s, op);
    StepReaders(s, op);
    StepFamilies(s, op);
    StepQuantum(s, op);
    Together(Step(s, op));
  }

  lemma {:induction false} RunKeeps(s: Sched, ops: seq<Op>)
    requires SInv(s)
    ensures SInv(Run(s, ops))
    decreases |ops|
  {
    if ops != [] {
      StepKeeps(s, ops[0]);
      RunKeeps(Step(s, ops[0]), ops[1..]);
    }
  }

  lemma BootKeeps()
    ensures SInv(BOOT_SCHED)
  {
  }
}
