/**
 * The scheduler, block/unblock and the keyboard as they run, in place. The PCBs' list nodes live in an explicit store
 * of `next` and `prev` pointers, which list_add_tail and list_del update as they do on the heap.
 */
module Scheduler {
  import opened Machine
  import opened Sequences
  import opened Rings
  import opened Scheduling
  import opened SchedulingInvariant
  import opened SchedulingTheorems
  import opened Keyboard

  /** The list_head variables of the kernel: the queues, and the four members of each task_struct. */
  datatype Node =
    | ReadyQueue
    | BlockedQueue
    | KbdQueue
    | ListOf(pid: int)
    | SiblingOf(pid: int)
    | KidsBlocked(pid: int)
    | KidsUnblocked(pid: int)

  /** The other members of a task_struct that scheduling uses. */
  datatype Pcb = Pcb(pid: int, quantum: int, pendingUnblocks: int, parent: Option<int>, kbdCharsNeeded: int)

  // ---------- the rings that a state stands for ----------

  ghost function ListNodes(q: seq<int>): (nodes: seq<Node>)
    ensures |nodes| == |q| && forall i :: 0 <= i < |q| ==> nodes[i] == ListOf(q[i])
  {
    seq(|q|, i requires 0 <= i < |q| => ListOf(q[i]))
  }

  ghost function SiblingNodes(q: seq<int>): (nodes: seq<Node>)
    ensures |nodes| == |q| && forall i :: 0 <= i < |q| ==> nodes[i] == SiblingOf(q[i])
  {
    seq(|q|, i requires 0 <= i < |q| => SiblingOf(q[i]))
  }

  lemma NodesAppended(q: seq<int>, p: int)
    ensures ListNodes(q + [p]) == ListNodes(q) + [ListOf(p)]
    ensures SiblingNodes(q + [p]) == SiblingNodes(q) + [SiblingOf(p)]
  {
  }

  lemma NodesCut(q: seq<int>, k: int)
    requires 0 <= k < |q|
    ensures ListNodes(q[..k] + q[k + 1..]) == ListNodes(q)[..k] + ListNodes(q)[k + 1..]
    ensures SiblingNodes(q[..k] + q[k + 1..]) == SiblingNodes(q)[..k] + SiblingNodes(q)[k + 1..]
  {
  }

  ghost function RingOf(s: Sched, h: Node): seq<Node> {
    match h
    case ReadyQueue => ListNodes(s.ready)
    case BlockedQueue => ListNodes(s.blocked)
    case KbdQueue => ListNodes(s.kbd)
    case KidsBlocked(p) => SiblingNodes(Kids(s.kidsB, p))
    case KidsUnblocked(p) => SiblingNodes(Kids(s.kidsU, p))
    case _ => []
  }

  ghost function HeadsOf(pids: set<int>): set<Node> {
    {ReadyQueue, BlockedQueue, KbdQueue} + (set p | p in pids :: KidsBlocked(p)) +
      (set p | p in pids :: KidsUnblocked(p))
  }

  ghost function RingsOf(s: Sched, pids: set<int>): Rings<Node> {
    map h | h in HeadsOf(pids) :: RingOf(s, h)
  }

  /** The store holds the rings of the state, and a PCB in no queue has null links. */
  ghost predicate Wired(l: Links<Node>, s: Sched, pids: set<int>) {
    && Separate(RingsOf(s, pids)) && AllRings(l, RingsOf(s, pids))
    && forall p :: p in pids && ListOf(p) !in Nodes(RingsOf(s, pids)) ==>
         ListOf(p) in l.next && l.next[ListOf(p)] == None && ListOf(p) in l.prev && l.prev[ListOf(p)] == None
  }

  /** s' differs from s, as far as lists go, in the ring of h only. */
  ghost predicate RingChanged(s: Sched, s': Sched, pids: set<int>, h: Node, nodes: seq<Node>) {
    && h in HeadsOf(pids) && RingOf(s', h) == nodes
    && forall g :: g in HeadsOf(pids) && g != h ==> RingOf(s', g) == RingOf(s, g)
  }

  lemma RingsChanged(s: Sched, s': Sched, pids: set<int>, h: Node, nodes: seq<Node>)
    requires RingChanged(s, s', pids, h, nodes)
    ensures RingsOf(s', pids) == RingsOf(s, pids)[h := nodes]
  {
  }

  lemma WiredAppended(l: Links<Node>, l': Links<Node>, s: Sched, s': Sched, pids: set<int>, h: Node, n: Node)
    requires Wired(l, s, pids) && RingChanged(s, s', pids, h, RingOf(s, h) + [n]) && n !in Nodes(RingsOf(s, pids))
    requires l' == Inserted(l, n, At(h, RingOf(s, h), |RingOf(s, h)|), h)
    ensures Wired(l', s', pids)
  {
    var r := RingsOf(s, pids);
    RingsChanged(s, s', pids, h, RingOf(s, h) + [n]);
    SeparateAppended(r, h, n);
    AllAppended(l, r, h, n);
    AppendedNodes(r, h, n);
    InNodes(r, h, |r[h]|);
    InNodes(r, h, 0);
  }

  lemma WiredDeleted(l: Links<Node>, l': Links<Node>, s: Sched, s': Sched, pids: set<int>, h: Node, k: int)
    requires Wired(l, s, pids) && h in HeadsOf(pids) && 0 <= k < |RingOf(s, h)|
    requires RingChanged(s, s', pids, h, RingOf(s, h)[..k] + RingOf(s, h)[k + 1..])
    requires l' == TakenOut(l, RingOf(s, h)[k], At(h, RingOf(s, h), k), At(h, RingOf(s, h), k + 2))
    ensures Wired(l', s', pids)
    ensures RingOf(s, h)[k] !in Nodes(RingsOf(s', pids))
  {
    var r := RingsOf(s, pids);
    RingsChanged(s, s', pids, h, RingOf(s, h)[..k] + RingOf(s, h)[k + 1..]);
    SeparateDeleted(r, h, k);
    AllDeleted(l, r, h, k);
    DeletedNodes(r, h, k);
    InNodes(r, h, k);
    InNodes(r, h, k + 2);
  }

  /** A task in no queue has its list node in no ring. */
  lemma Unqueued(s: Sched, pids: set<int>, p: int)
    requires p !in s.ready && p !in s.blocked && p !in s.kbd
    ensures ListOf(p) !in Nodes(RingsOf(s, pids))
  {
  }

  lemma WiredSame(l: Links<Node>, s: Sched, s': Sched, pids: set<int>)
    requires Wired(l, s, pids)
    requires s'.ready == s.ready && s'.blocked == s.blocked && s'.kbd == s.kbd && s'.kidsB == s.kidsB
    requires s'.kidsU == s.kidsU
    ensures Wired(l, s', pids)
  {
    assert RingsOf(s', pids) == RingsOf(s, pids);
  }

  lemma LinksAt(l: Links<Node>, s: Sched, pids: set<int>, h: Node, i: int)
    requires Wired(l, s, pids) && h in HeadsOf(pids) && 0 <= i <= |RingOf(s, h)|
    ensures Follows(l, At(h, RingOf(s, h), i), At(h, RingOf(s, h), i + 1))
  {
    assert Ring(l, h, RingsOf(s, pids)[h]);
  }

  predicate IsQueue(h: Node) {
    h.ReadyQueue? || h.BlockedQueue? || h.KbdQueue?
  }

  ghost function QueueOf(s: Sched, h: Node): seq<int> {
    match h
    case ReadyQueue => s.ready
    case BlockedQueue => s.blocked
    case KbdQueue => s.kbd
    case _ => []
  }

  ghost function WithQueue(s: Sched, h: Node, q: seq<int>): Sched {
    match h
    case ReadyQueue => s.(ready := q)
    case BlockedQueue => s.(blocked := q)
    case KbdQueue => s.(kbd := q)
    case _ => s
  }

  lemma QueueChanged(s: Sched, pids: set<int>, h: Node, q: seq<int>)
    requires IsQueue(h)
    ensures RingChanged(s, WithQueue(s, h, q), pids, h, ListNodes(q)) && RingOf(s, h) == ListNodes(QueueOf(s, h))
  {
  }

  /** After INIT_LIST_HEAD every head points to itself, and a new PCB is in no queue. */
  function BootPointers(): map<Node, Option<Node>> {
    map[ReadyQueue := Some(ReadyQueue), BlockedQueue := Some(BlockedQueue), KbdQueue := Some(KbdQueue),
        KidsBlocked(IDLE_PID) := Some(KidsBlocked(IDLE_PID)), KidsUnblocked(IDLE_PID) := Some(KidsUnblocked(IDLE_PID)),
        KidsBlocked(INIT_PID) := Some(KidsBlocked(INIT_PID)), KidsUnblocked(INIT_PID) := Some(KidsUnblocked(INIT_PID)),
        ListOf(IDLE_PID) := None, ListOf(INIT_PID) := None]
  }

  lemma AllSelf(l: Links<Node>, r: Rings<Node>)
    requires forall h :: h in r ==>
      r[h] == [] && h in l.next && l.next[h] == Some(h) && h in l.prev && l.prev[h] == Some(h)
    ensures AllRings(l, r) && Separate(r) && Nodes(r) == r.Keys
  {
  }

  lemma BootHead(h: Node)
    requires h in HeadsOf({IDLE_PID, INIT_PID})
    ensures h in BootPointers() && BootPointers()[h] == Some(h)
  {
  }

  lemma BootRing(h: Node)
    ensures RingOf(BOOT_SCHED, h) == []
  {
  }

  lemma BootRings(l: Links<Node>)
    requires l == Links(BootPointers(), BootPointers())
    ensures var r := RingsOf(BOOT_SCHED, {IDLE_PID, INIT_PID});
      AllRings(l, r) && Separate(r) && Nodes(r) == r.Keys
  {
    var r := RingsOf(BOOT_SCHED, {IDLE_PID, INIT_PID});
    forall h | h in r ensures r[h] == [] && h in l.next && l.next[h] == Some(h) && h in l.prev && l.prev[h] == Some(h) {
      BootHead(h);
      BootRing(h);
    }
    AllSelf(l, r);
  }

  lemma BootWired(l: Links<Node>)
    requires l == Links(BootPointers(), BootPointers())
    ensures Wired(l, BOOT_SCHED, {IDLE_PID, INIT_PID})
  {
    BootRings(l);
    assert l.next[ListOf(IDLE_PID)] == None && l.next[ListOf(INIT_PID)] == None;
  }

  /** A task at place k of a queue has links that are not null, and what taking it out makes of the lists. */
  lemma InQueue(l: Links<Node>, s: Sched, pids: set<int>, h: Node, k: int)
    requires Wired(l, s, pids) && IsQueue(h) && 0 <= k < |QueueOf(s, h)|
    ensures h in HeadsOf(pids) && RingOf(s, h) == ListNodes(QueueOf(s, h))
    ensures var n := ListOf(QueueOf(s, h)[k]);
      n in l.prev && l.prev[n].Some? && n in l.next && l.next[n].Some?
    ensures var q := QueueOf(s, h)[..k] + QueueOf(s, h)[k + 1..];
      RingChanged(s, WithQueue(s, h, q), pids, h, RingOf(s, h)[..k] + RingOf(s, h)[k + 1..])
  {
    var q := QueueOf(s, h);
    QueueChanged(s, pids, h, q[..k] + q[k + 1..]);
    NodesCut(q, k);
    LinksAt(l, s, pids, h, k);
    LinksAt(l, s, pids, h, k + 1);
    assert At(h, RingOf(s, h), k + 1) == ListOf(q[k]);
  }

  /** The list links of a PCB are both null exactly when its task is in no queue. */
  lemma NullLinksMeanUnqueued(l: Links<Node>, s: Sched, pids: set<int>, p: int)
    requires Wired(l, s, pids) && p in pids
    ensures ListOf(p) in l.next && ListOf(p) in l.prev
    ensures l.next[ListOf(p)] == None && l.prev[ListOf(p)] == None <==> p !in s.ready && p !in s.blocked && p !in s.kbd
  {
    if p in s.ready {
      InQueue(l, s, pids, ReadyQueue, Position(s.ready, p));
    } else if p in s.blocked {
      InQueue(l, s, pids, BlockedQueue, Position(s.blocked, p));
    } else if p in s.kbd {
      InQueue(l, s, pids, KbdQueue, Position(s.kbd, p));
    } else {
      Unqueued(s, pids, p);
    }
  }

  /** What the state says about a PCB. */
  ghost function PcbOf(s: Sched, p: int): Pcb {
    Pcb(p, QUANTUM, Get(s.pending, p, 0), if p in s.parent then Some(s.parent[p]) else None, Get(s.need, p, 0))
  }

  /** The PCBs say what the state says. */
  ghost predicate Shown(pcbs: map<int, Pcb>, s: Sched) {
    && (forall p :: p in s.live ==> p in pcbs)
    && (forall p :: p in pcbs ==> pcbs[p] == PcbOf(s, p) && p <= s.lastPid)
    && (forall p :: p in s.parent ==> p in pcbs && s.parent[p] in pcbs)
  }

  lemma ShownSame(pcbs: map<int, Pcb>, s: Sched, s': Sched)
    requires Shown(pcbs, s) && s'.live <= s.live && s'.pending == s.pending && s'.parent == s.parent
    requires s'.need == s.need
    requires s'.lastPid == s.lastPid
    ensures Shown(pcbs, s')
  {
  }

  lemma NextIs(pcbs: map<int, Pcb>, s: Sched, s1: Sched)
    requires Shown(pcbs, s) && s1 == s.(ready := SchedNext(s).ready)
    requires s.idle in pcbs && (forall p :: p in s.ready ==> p in pcbs)
    ensures SchedNext(s) == s1.(cur := SchedNext(s).cur, rem := QUANTUM) && SchedNext(s).cur in pcbs && Shown(pcbs, s1)
  {
    ShownSame(pcbs, s, s1);
  }

  lemma WokenSteps(s: Sched, s1: Sched, s2: Sched, pid: int)
    requires pid in s.blocked
    requires var h, to := KidsBlocked(s.cur), KidsUnblocked(s.cur);
      s1 == WithKids(WithKids(s, h, Remove(KidsOf(s, h), pid)), to, KidsOf(s, to) + [pid])
    requires var k := Position(s.blocked, pid);
      s2 == s1.(blocked := s.blocked[..k] + s.blocked[k + 1..], ready := s.ready + [pid])
    ensures s2 == WakeChild(s, pid)
    ensures s2 == s.(kidsB := s2.kidsB, kidsU := s2.kidsU, blocked := s2.blocked, ready := s2.ready)
    ensures s1.blocked == s.blocked && s1.ready == s.ready
  {
  }

  lemma PendingIs(pcbs: map<int, Pcb>, s: Sched, pid: int, n: int, s': Sched)
    requires Shown(pcbs, s) && pid in pcbs && n == pcbs[pid].pendingUnblocks + 1 && s' == UnblockLater(s, pid)
    ensures s' == s.(pending := s.pending[pid := n])
  {
  }

  lemma ShownGrown(pcbs: map<int, Pcb>, s: Sched, s': Sched)
    requires Shown(pcbs, s) && s'.live <= s.live + pcbs.Keys && s'.pending == s.pending && s'.parent == s.parent
    requires s'.need == s.need && s'.lastPid == s.lastPid
    ensures Shown(pcbs, s')
  {
  }

  lemma QueuedAreKnown(pcbs: map<int, Pcb>, s: Sched)
    requires Placed(s) && Shown(pcbs, s)
    ensures s.cur in pcbs && (forall p :: p in s.ready ==> p in pcbs)
    ensures (forall p :: p in s.blocked ==> p in pcbs) && (forall p :: p in s.kbd ==> p in pcbs)
  {
    forall p ensures p in s.ready || p in s.blocked || p in s.kbd || p == s.cur ==> p in s.live {
      assert p in s.ready ==> p in multiset(s.ready);
      assert p in s.blocked ==> p in multiset(s.blocked);
      assert p in s.kbd ==> p in multiset(s.kbd);
      assert p in Spots(s) ==> p in s.live;
    }
  }

  /** The running task is in no queue. */
  lemma CurUnqueued(s: Sched)
    requires SInv(s)
    ensures s.cur !in s.ready && s.cur !in s.blocked && s.cur !in s.kbd
  {
    assert Spots(s)[s.cur] <= 1 by { assert s.cur in Spots(s); }
    assert s.cur in s.ready ==> s.cur in multiset(s.ready);
    assert s.cur in s.blocked ==> s.cur in multiset(s.blocked);
    assert s.cur in s.kbd ==> s.cur in multiset(s.kbd);
  }

  predicate IsKids(h: Node) {
    h.KidsBlocked? || h.KidsUnblocked?
  }

  ghost function KidsOf(s: Sched, h: Node): seq<int> {
    match h
    case KidsBlocked(p) => Kids(s.kidsB, p)
    case KidsUnblocked(p) => Kids(s.kidsU, p)
    case _ => []
  }

  ghost function WithKids(s: Sched, h: Node, q: seq<int>): Sched {
    match h
    case KidsBlocked(p) => s.(kidsB := s.kidsB[p := q])
    case KidsUnblocked(p) => s.(kidsU := s.kidsU[p := q])
    case _ => s
  }

  lemma KidsChanged(s: Sched, pids: set<int>, h: Node, q: seq<int>)
    requires IsKids(h) && h.pid in pids
    ensures RingChanged(s, WithKids(s, h, q), pids, h, SiblingNodes(q)) && RingOf(s, h) == SiblingNodes(KidsOf(s, h))
  {
  }

  lemma InKids(l: Links<Node>, s: Sched, pids: set<int>, h: Node, c: int)
    requires Wired(l, s, pids) && IsKids(h) && h.pid in pids && c in KidsOf(s, h)
    ensures var k := Position(KidsOf(s, h), c);
      && h in HeadsOf(pids) && k < |RingOf(s, h)| && RingOf(s, h)[k] == SiblingOf(c)
      && RingChanged(s, WithKids(s, h, Remove(KidsOf(s, h), c)), pids, h, RingOf(s, h)[..k] + RingOf(s, h)[k + 1..])
  {
    var q, k := KidsOf(s, h), Position(KidsOf(s, h), c);
    KidsChanged(s, pids, h, Remove(q, c));
    NodesCut(q, k);
  }

  lemma BlockKnows(pcbs: map<int, Pcb>, s: Sched)
    requires SInv(s) && Shown(pcbs, s) && Enabled(s, OpBlock)
    ensures s.cur !in s.ready && s.cur !in s.blocked && s.cur !in s.kbd && (forall p :: p in s.ready ==> p in pcbs)
    ensures s.cur in s.parent ==> s.cur in Kids(s.kidsU, s.parent[s.cur])
    ensures Step(s, OpBlock) == Block(s) && SInv(Block(s))
  {
    StepKeeps(s, OpBlock);
    CurUnqueued(s);
    QueuedAreKnown(pcbs, s);
    if s.cur in s.parent { ChildLists(s, s.cur); }
  }

  lemma KeyKnows(pcbs: map<int, Pcb>, s: Sched, c: char)
    requires SInv(s) && Shown(pcbs, s) && Enabled(s, OpKey(c))
    ensures s.kbd != [] ==>
      s.kbd[0] in pcbs && s.kbd[0] !in s.kbd[1..] && s.kbd[0] !in s.ready && s.kbd[0] !in s.blocked
    ensures Step(s, OpKey(c)) == Key(s, c) && SInv(Key(s, c))
  {
    StepKeeps(s, OpKey(c));
    QueuedAreKnown(pcbs, s);
    QueuesDistinct(s);
    if s.kbd != [] {
      assert s.kbd[0] in multiset(s.kbd);
      assert s.kbd[0] in Spots(s);
      IdleAndDead(s, s.kbd[0]);
      OnePlaceEach(s, s.kbd[0]);
    }
  }

  lemma ReadKnows(pcbs: map<int, Pcb>, s: Sched, max: int)
    requires SInv(s) && Shown(pcbs, s) && Enabled(s, OpRead(max))
    ensures s.cur !in s.ready && s.cur !in s.blocked && s.cur !in s.kbd && (forall p :: p in s.ready ==> p in pcbs)
    ensures Step(s, OpRead(max)) == Read(s, max) && SInv(Read(s, max))
    ensures Handed(s, OpRead(max)) == Taken(s, Min(max, KEYBOARD_BUF_SIZE))
  {
    StepKeeps(s, OpRead(max));
    CurUnqueued(s);
    QueuedAreKnown(pcbs, s);
  }

  /** The children of the running task are known, and the blocked ones are in `blocked`. */
  lemma UnblockKnows(pcbs: map<int, Pcb>, s: Sched, pid: int)
    requires SInv(s) && Shown(pcbs, s)
    ensures pid in Kids(s.kidsB, s.cur) ==> pid in s.blocked && pid in pcbs
    ensures pid in Kids(s.kidsU, s.cur) ==> pid in pcbs
  {
    assert Family(s.kidsB, s.parent, s.blocked, true, s.cur);
    assert Family(s.kidsU, s.parent, s.blocked, false, s.cur);
    QueuedAreKnown(pcbs, s);
  }

  // ---------- a new task ----------

  /** INIT_LIST_HEAD of both lists of children; the list node is a copy of the parent's. */
  function Opened(l: Links<Node>, c: int, parent: int): Links<Node>
    requires ListOf(parent) in l.next && ListOf(parent) in l.prev
  {
    Links(
      l.next[ListOf(c) := l.next[ListOf(parent)]]
        [KidsBlocked(c) := Some(KidsBlocked(c))][KidsUnblocked(c) := Some(KidsUnblocked(c))],
      l.prev[ListOf(c) := l.prev[ListOf(parent)]]
        [KidsBlocked(c) := Some(KidsBlocked(c))][KidsUnblocked(c) := Some(KidsUnblocked(c))])
  }

  /** The state with the child's PCB made, before it is in any list. */
  ghost function Born(s: Sched): Sched {
    var c := s.lastPid + 1;
    s.(lastPid := c, parent := s.parent[c := s.cur], pending := s.pending[c := 0], kidsB := s.kidsB[c := []],
       kidsU := s.kidsU[c := []], need := s.need[c := Get(s.need, s.cur, 0)])
  }

  /** A PID that no task has had, in no list. */
  ghost predicate Unused(s: Sched, pids: set<int>, c: int) {
    && c !in pids && c !in s.ready && c !in s.blocked && c !in s.kbd
    && (forall h :: h in HeadsOf(pids) && IsKids(h) ==> c !in KidsOf(s, h))
  }

  lemma NewNodes(s: Sched, pids: set<int>, c: int)
    requires Unused(s, pids, c)
    ensures ListOf(c) !in Nodes(RingsOf(s, pids)) && SiblingOf(c) !in Nodes(RingsOf(s, pids))
    ensures KidsBlocked(c) !in Nodes(RingsOf(s, pids)) && KidsUnblocked(c) !in Nodes(RingsOf(s, pids))
  {
    forall h, i | h in RingsOf(s, pids) && 0 <= i < |RingOf(s, h)|
      ensures RingOf(s, h)[i] != SiblingOf(c) && RingOf(s, h)[i] != ListOf(c)
      ensures !IsKids(RingOf(s, h)[i])
    {
      if IsKids(h) { assert RingOf(s, h)[i] == SiblingOf(KidsOf(s, h)[i]); }
    }
  }

  lemma BornRings(s: Sched, pids: set<int>)
    requires var c := s.lastPid + 1; c !in pids
    ensures var c := s.lastPid + 1;
      RingsOf(Born(s), pids + {c}) == RingsOf(s, pids)[KidsBlocked(c) := []][KidsUnblocked(c) := []]
  {
    var c := s.lastPid + 1;
    assert HeadsOf(pids + {c}) == HeadsOf(pids) + {KidsBlocked(c), KidsUnblocked(c)};
    forall h | h in HeadsOf(pids) ensures RingOf(Born(s), h) == RingOf(s, h) {
      assert h != KidsBlocked(c) && h != KidsUnblocked(c);
    }
  }

  /** The lists of children of the new task are two more rings. */
  lemma RingsOpened(l: Links<Node>, l': Links<Node>, r: Rings<Node>, c: int, parent: int)
    requires Separate(r) && AllRings(l, r) && KidsBlocked(c) !in Nodes(r) && KidsUnblocked(c) !in Nodes(r)
    requires ListOf(c) !in Nodes(r)
    requires ListOf(parent) in l.next && ListOf(parent) in l.prev && l' == Opened(l, c, parent)
    ensures var r' := r[KidsBlocked(c) := []][KidsUnblocked(c) := []];
      AllRings(l', r') && Separate(r') && Nodes(r') == Nodes(r) + {KidsBlocked(c), KidsUnblocked(c)}
  {
    LinksRestrict(l, l', r);
    AllOpened(l', r, KidsBlocked(c));
    AllOpened(l', r[KidsBlocked(c) := []], KidsUnblocked(c));
  }

  lemma WiredBorn(l: Links<Node>, s: Sched, pids: set<int>, c: int)
    requires Wired(l, s, pids) && s.cur in pids && c == s.lastPid + 1 && Unused(s, pids, c)
    requires s.cur !in s.ready && s.cur !in s.blocked && s.cur !in s.kbd
    ensures ListOf(s.cur) in l.next && ListOf(s.cur) in l.prev
    ensures Wired(Opened(l, c, s.cur), Born(s), pids + {c})
    ensures SiblingOf(c) !in Nodes(RingsOf(Born(s), pids + {c})) && ListOf(c) !in Nodes(RingsOf(Born(s), pids + {c}))
  {
    Unqueued(s, pids, s.cur);
    NewNodes(s, pids, c);
    BornRings(s, pids);
    RingsOpened(l, Opened(l, c, s.cur), RingsOf(s, pids), c, s.cur);
    WiredNow(l, s, Born(s), pids, c);
  }

  lemma WiredNow(l: Links<Node>, s: Sched, s': Sched, pids: set<int>, c: int)
    requires Wired(l, s, pids) && s.cur in pids && ListOf(s.cur) !in Nodes(RingsOf(s, pids))
    requires var r, l' := RingsOf(s', pids + {c}), Opened(l, c, s.cur);
      AllRings(l', r) && Separate(r) && Nodes(r) == Nodes(RingsOf(s, pids)) + {KidsBlocked(c), KidsUnblocked(c)}
    ensures Wired(Opened(l, c, s.cur), s', pids + {c})
  {
  }

  lemma BornKnows(l: Links<Node>, pcbs: map<int, Pcb>, s: Sched, c: int, child: Pcb, s': Sched)
    requires Wired(l, s, pcbs.Keys) && Shown(pcbs, s) && s.cur in pcbs && c == s.lastPid + 1 && Unused(s, pcbs.Keys, c)
    requires s.cur !in s.ready && s.cur !in s.blocked && s.cur !in s.kbd && s' == Born(s)
    requires child == Pcb(c, QUANTUM, 0, Some(s.cur), pcbs[s.cur].kbdCharsNeeded)
    ensures ListOf(s.cur) in l.next && ListOf(s.cur) in l.prev
    ensures Wired(Opened(l, c, s.cur), s', pcbs[c := child].Keys) && Shown(pcbs[c := child], s')
    ensures pcbs[c := child].Keys == pcbs.Keys + {c}
    ensures var r := RingsOf(s', pcbs[c := child].Keys); SiblingOf(c) !in Nodes(r) && ListOf(c) !in Nodes(r)
    ensures s'.cur == s.cur && s'.idle == s.idle && s'.rem == s.rem && s'.lastPid == c
  {
    WiredBorn(l, s, pcbs.Keys, c);
    ShownBorn(pcbs, s);
    assert pcbs[c := child].Keys == pcbs.Keys + {c};
  }

  lemma ForkIs(s: Sched, c: int)
    requires c == s.lastPid + 1 && s.cur != c
    ensures var b := WithKids(Born(s), KidsUnblocked(s.cur), Kids(Born(s).kidsU, s.cur) + [c]);
      Fork(s) == b.(ready := s.ready + [c], live := s.live + {c}) && b.ready == s.ready && b.live == s.live
  {
  }

  lemma ForkKnows(pcbs: map<int, Pcb>, s: Sched)
    requires SInv(s) && Shown(pcbs, s) && Enabled(s, OpFork)
    ensures s.cur !in s.ready && s.cur !in s.blocked && s.cur !in s.kbd && Unused(s, pcbs.Keys, s.lastPid + 1)
    ensures Step(s, OpFork) == Fork(s) && SInv(Fork(s))
  {
    var c := s.lastPid + 1;
    StepKeeps(s, OpFork);
    CurUnqueued(s);
    IdleAndDead(s, c);
    NewInNoFamily(s, c);
  }

  lemma NewInNoFamily(s: Sched, c: int)
    requires Families(s) && c > s.lastPid
    ensures forall h :: IsKids(h) ==> c !in KidsOf(s, h)
  {
    forall h | IsKids(h) ensures c !in KidsOf(s, h) {
      assert Family(s.kidsB, s.parent, s.blocked, true, h.pid);
      assert Family(s.kidsU, s.parent, s.blocked, false, h.pid);
    }
  }

  lemma ShownBorn(pcbs: map<int, Pcb>, s: Sched)
    requires Shown(pcbs, s) && s.cur in pcbs
    ensures var c := s.lastPid + 1;
      Shown(pcbs[c := Pcb(c, QUANTUM, 0, Some(s.cur), pcbs[s.cur].kbdCharsNeeded)], Born(s))
  {
  }

  class Scheduler {
    var links: Links<Node>
    var pcbs: map<int, Pcb>
    var current: int
    var idleTask: int
    var remainingQuantum: int
    var pidGlobal: int
    const buffer: KeyboardBuffer
    /** The state that all of this stands for. */
    ghost var s: Sched

    /** What booting leaves: the empty queues of init_sched, the idle task and the first task. */
    constructor ()
      ensures Valid() && s == BOOT_SCHED && fresh(buffer) && fresh(buffer.buf)
    {
      links := Links(BootPointers(), BootPointers());
      pcbs := map[IDLE_PID := Pcb(IDLE_PID, QUANTUM, 0, None, 0), INIT_PID := Pcb(INIT_PID, QUANTUM, 0, None, 0)];
      current, idleTask := INIT_PID, IDLE_PID;
      remainingQuantum, pidGlobal := 0, FIRST_PID;
      buffer := new KeyboardBuffer();
      s := BOOT_SCHED;
      new;
      BootKeeps();
      BootWired(links);
      assert pcbs.Keys == {IDLE_PID, INIT_PID};
    }

    /** The lists are the state's. */
    ghost predicate ListsOk()
      reads this`links, this`pcbs, this`s
    {
      Wired(links, s, pcbs.Keys)
    }

    /** The PCBs say what the state says. */
    ghost predicate PcbsOk()
      reads this`pcbs, this`s
    {
      Shown(pcbs, s)
    }

    ghost predicate GlobalsOk()
      reads this`current, this`idleTask, this`remainingQuantum, this`pidGlobal, this`pcbs, this`s
    {
      && current == s.cur && current in pcbs && idleTask == s.idle && idleTask in pcbs
      && remainingQuantum == s.rem && pidGlobal == s.lastPid
    }

    ghost predicate BufferOk()
      reads this`s, buffer, buffer.buf
    {
      buffer.Valid() && buffer.Contents() == s.buf
    }

    ghost predicate Valid()
      reads this, buffer, buffer.buf
    {
      ListsOk() && PcbsOk() && GlobalsOk() && BufferOk() && SInv(s)
    }

    // ---------- list.c on the store ----------

    /** list_add_tail */
    method ListAddTail(n: Node, h: Node)
      requires h in links.prev && links.prev[h].Some? && n != h && links.prev[h] != Some(n)
      modifies this`links
      ensures links == Inserted(old(links), n, old(links).prev[h].value, h)
    {
      var prev := links.prev[h].value;
      links := links.(prev := links.prev[h := Some(n)]);
      links := links.(next := links.next[n := Some(h)]);
      links := links.(prev := links.prev[n := Some(prev)]);
      links := links.(next := links.next[prev := Some(n)]);
    }

    /** list_del */
    method ListDel(n: Node)
      requires n in links.prev && links.prev[n].Some? && n in links.next && links.next[n].Some?
      modifies this`links
      ensures links == TakenOut(old(links), n, old(links).prev[n].value, old(links).next[n].value)
    {
      var prev, next := links.prev[n].value, links.next[n].value;
      links := links.(prev := links.prev[next := Some(prev)]);
      links := links.(next := links.next[prev := Some(next)]);
      links := links.(next := links.next[n := None]);
      links := links.(prev := links.prev[n := None]);
    }

    /** A node that is in no list becomes the last of a list; the state becomes s'. */
    method AddLast(n: Node, h: Node, ghost s': Sched)
      requires ListsOk() && n !in Nodes(RingsOf(s, pcbs.Keys))
      requires RingChanged(s, s', pcbs.Keys, h, RingOf(s, h) + [n])
      modifies this`links, this`s
      ensures ListsOk() && s == s'
    {
      ghost var l := links;
      LinksAt(links, s, pcbs.Keys, h, |RingOf(s, h)|);
      InNodes(RingsOf(s, pcbs.Keys), h, |RingOf(s, h)|);
      InNodes(RingsOf(s, pcbs.Keys), h, 0);
      ListAddTail(n, h);
      WiredAppended(l, links, s, s', pcbs.Keys, h, n);
      s := s';
    }

    /** The node at place k of a list leaves it; the state becomes s'. */
    method TakeOut(n: Node, ghost h: Node, ghost k: int, ghost s': Sched)
      requires ListsOk() && h in HeadsOf(pcbs.Keys) && 0 <= k < |RingOf(s, h)| && n == RingOf(s, h)[k]
      requires RingChanged(s, s', pcbs.Keys, h, RingOf(s, h)[..k] + RingOf(s, h)[k + 1..])
      modifies this`links, this`s
      ensures ListsOk() && s == s' && n !in Nodes(RingsOf(s', pcbs.Keys))
    {
      ghost var l := links;
      LinksAt(links, s, pcbs.Keys, h, k);
      LinksAt(links, s, pcbs.Keys, h, k + 1);
      ListDel(n);
      WiredDeleted(l, links, s, s', pcbs.Keys, h, k);
      s := s';
    }

    /** The first half of update_process_state_rr: a task that is in a queue, at place k of h, leaves it. */
    method LeaveQueue(p: int, ghost h: Node, ghost k: int)
      requires ListsOk() && IsQueue(h) && p in pcbs
      requires 0 <= k ==> k < |QueueOf(s, h)| && QueueOf(s, h)[k] == p
      requires k < 0 ==> p !in s.ready && p !in s.blocked && p !in s.kbd
      modifies this`links, this`s
      ensures ListsOk()
      ensures s == if k < 0 then old(s) else WithQueue(old(s), h, QueueOf(old(s), h)[..k] + QueueOf(old(s), h)[k + 1..])
      ensures ListOf(p) !in Nodes(RingsOf(s, pcbs.Keys))
    {
      ghost var q := QueueOf(s, h);
      if k < 0 { Unqueued(s, pcbs.Keys, p); } else { InQueue(links, s, pcbs.Keys, h, k); }
      if !(links.prev[ListOf(p)] == None && links.next[ListOf(p)] == None) {
        TakeOut(ListOf(p), h, k, WithQueue(s, h, q[..k] + q[k + 1..]));
      }
    }

    /** The second half: it becomes the last of a queue. */
    method JoinQueue(p: int, h: Node)
      requires ListsOk() && IsQueue(h) && ListOf(p) !in Nodes(RingsOf(s, pcbs.Keys))
      modifies this`links, this`s
      ensures ListsOk() && s == WithQueue(old(s), h, QueueOf(old(s), h) + [p])
    {
      ghost var q := QueueOf(s, h) + [p];
      QueueChanged(s, pcbs.Keys, h, q);
      NodesAppended(QueueOf(s, h), p);
      AddLast(ListOf(p), h, WithQueue(s, h, q));
    }

    /** update_process_state_rr, for a task at place k of h, or in no queue when k is negative */
    method UpdateProcessState(p: int, dst: Node, ghost h: Node, ghost k: int)
      requires ListsOk() && IsQueue(h) && IsQueue(dst) && p in pcbs
      requires 0 <= k ==> k < |QueueOf(s, h)| && QueueOf(s, h)[k] == p
      requires k < 0 ==> p !in s.ready && p !in s.blocked && p !in s.kbd
      modifies this`links, this`s
      ensures ListsOk()
      ensures var s1 := if k < 0 then old(s)
        else WithQueue(old(s), h, QueueOf(old(s), h)[..k] + QueueOf(old(s), h)[k + 1..]);
        s == WithQueue(s1, dst, QueueOf(s1, dst) + [p])
    {
      LeaveQueue(p, h, k);
      JoinQueue(p, dst);
    }

    /** list_first and list_del: the first task of a queue leaves it. */
    method TakeFirst(h: Node) returns (p: int)
      requires ListsOk() && IsQueue(h) && QueueOf(s, h) != []
      modifies this`links, this`s
      ensures ListsOk() && p == QueueOf(old(s), h)[0] && s == WithQueue(old(s), h, QueueOf(old(s), h)[1..])
    {
      ghost var q := QueueOf(s, h);
      LinksAt(links, s, pcbs.Keys, h, 0);
      InQueue(links, s, pcbs.Keys, h, 0);
      var lf := links.next[h].value;
      assert q[..0] + q[0 + 1..] == q[1..];
      TakeOut(lf, h, 0, WithQueue(s, h, q[1..]));
      return lf.pid;
    }

    /** list_empty */
    method QueueEmpty(h: Node) returns (empty: bool)
      requires ListsOk() && IsQueue(h)
      ensures empty <==> QueueOf(s, h) == []
    {
      LinksAt(links, s, pcbs.Keys, h, 0);
      empty := links.next[h] == Some(h);
    }

    // ---------- sched.c ----------

    /** The first half of sched_next_rr: the first ready task leaves the queue, or idle is chosen. */
    method PickNext() returns (next: int)
      requires ListsOk() && idleTask == s.idle
      modifies this`links, this`s
      ensures ListsOk() && next == SchedNext(old(s)).cur && s == old(s).(ready := SchedNext(old(s)).ready)
    {
      var empty := QueueEmpty(ReadyQueue);
      next := idleTask;
      if !empty {
        next := TakeFirst(ReadyQueue);
      }
    }

    /** The second half: the chosen task gets the processor and a full quantum. */
    method Dispatch(next: int)
      requires ListsOk() && PcbsOk() && GlobalsOk() && next in pcbs
      modifies this`current, this`remainingQuantum, this`s
      ensures ListsOk() && PcbsOk() && GlobalsOk() && s == old(s).(cur := next, rem := QUANTUM)
    {
      ghost var s' := s.(cur := next, rem := QUANTUM);
      WiredSame(links, s, s', pcbs.Keys);
      ShownSame(pcbs, s, s');
      remainingQuantum := pcbs[next].quantum;
      if pcbs[current].pid != pcbs[next].pid {
        current := next;
      }
      s := s';
    }

    /** sched_next_rr: the first ready task gets the processor and a full quantum, or idle does. */
    method SchedNextRR()
      requires ListsOk() && PcbsOk() && GlobalsOk() && (forall p :: p in s.ready ==> p in pcbs)
      modifies this`current, this`remainingQuantum, this`links, this`s
      ensures ListsOk() && PcbsOk() && GlobalsOk() && s == SchedNext(old(s))
    {
      ghost var s0 := s;
      var next := PickNext();
      NextIs(pcbs, s0, s);
      Dispatch(next);
    }

    /** Moves the running task to the end of a queue and runs the next one. */
    method Yield(dst: Node)
      requires ListsOk() && PcbsOk() && GlobalsOk() && IsQueue(dst)
      requires s.cur !in s.ready && s.cur !in s.blocked && s.cur !in s.kbd && (forall p :: p in s.ready ==> p in pcbs)
      modifies this`current, this`remainingQuantum, this`links, this`s
      ensures ListsOk() && PcbsOk() && GlobalsOk()
      ensures s == SchedNext(WithQueue(old(s), dst, QueueOf(old(s), dst) + [old(s).cur]))
    {
      UpdateProcessState(current, dst, ReadyQueue, -1);
      ShownSame(pcbs, old(s), s);
      SchedNextRR();
    }

    /** schedule, without its effect on the invariant */
    method RoundRobin()
      requires ListsOk() && PcbsOk() && GlobalsOk()
      requires s.cur !in s.ready && s.cur !in s.blocked && s.cur !in s.kbd && (forall p :: p in s.ready ==> p in pcbs)
      modifies this`current, this`remainingQuantum, this`links, this`s
      ensures ListsOk() && PcbsOk() && GlobalsOk() && s == Tick(old(s))
    {
      ghost var s1 := s.(rem := s.rem - 1);
      WiredSame(links, s, s1, pcbs.Keys);
      ShownSame(pcbs, s, s1);
      remainingQuantum := remainingQuantum - 1;
      s := s1;
      var empty := QueueEmpty(ReadyQueue);
      if !(remainingQuantum > 0 && !empty) {
        Yield(ReadyQueue);
      }
    }

    /** schedule, called on every clock tick */
    method Schedule()
      requires Valid() && Enabled(s, OpTick)
      modifies this`current, this`remainingQuantum, this`links, this`s
      ensures Valid() && s == Step(old(s), OpTick)
    {
      StepKeeps(s, OpTick);
      CurUnqueued(s);
      QueuedAreKnown(pcbs, s);
      RoundRobin();
    }

    /** The scheduling part of exit: the task is gone, and it joins no queue. */
    method Leave()
      requires ListsOk() && PcbsOk() && GlobalsOk() && (forall p :: p in s.ready ==> p in pcbs)
      modifies this`current, this`remainingQuantum, this`links, this`s
      ensures ListsOk() && PcbsOk() && GlobalsOk() && s == Exit(old(s))
    {
      ghost var s1 := s.(live := s.live - {s.cur});
      WiredSame(links, s, s1, pcbs.Keys);
      ShownSame(pcbs, s, s1);
      s := s1;
      SchedNextRR();
    }

    method SysExit()
      requires Valid() && Enabled(s, OpExit)
      modifies this`current, this`remainingQuantum, this`links, this`s
      ensures Valid() && s == Step(old(s), OpExit)
    {
      StepKeeps(s, OpExit);
      QueuedAreKnown(pcbs, s);
      Leave();
    }

    /** The child's PCB: a copy of its parent's, with its own PID, parent, and empty lists of children. */
    method MakePcb(c: int)
      requires ListsOk() && PcbsOk() && GlobalsOk() && c == s.lastPid + 1 && Unused(s, pcbs.Keys, c)
      requires s.cur !in s.ready && s.cur !in s.blocked && s.cur !in s.kbd
      modifies this`links, this`pcbs, this`pidGlobal, this`s
      ensures ListsOk() && PcbsOk() && GlobalsOk() && s == Born(old(s)) && pcbs.Keys == old(pcbs).Keys + {c}
      ensures SiblingOf(c) !in Nodes(RingsOf(s, pcbs.Keys)) && ListOf(c) !in Nodes(RingsOf(s, pcbs.Keys))
    {
      var child := pcbs[current].(pid := c, quantum := QUANTUM, pendingUnblocks := 0, parent := Some(current));
      ghost var s' := Born(s);
      BornKnows(links, pcbs, s, c, child, s');
      links := Opened(links, c, current);
      pcbs := pcbs[c := child];
      pidGlobal := c;
      s := s';
    }

    /** The child becomes the last of its parent's unblocked children. */
    method JoinFamily(c: int)
      requires ListsOk() && PcbsOk() && GlobalsOk() && SiblingOf(c) !in Nodes(RingsOf(s, pcbs.Keys))
      modifies this`links, this`s
      ensures ListsOk() && PcbsOk() && GlobalsOk()
      ensures s == WithKids(old(s), KidsUnblocked(old(s).cur), Kids(old(s).kidsU, old(s).cur) + [c])
      ensures Nodes(RingsOf(s, pcbs.Keys)) == Nodes(RingsOf(old(s), pcbs.Keys)) + {SiblingOf(c)}
    {
      ghost var h, q, s0 := KidsUnblocked(current), Kids(s.kidsU, current) + [c], s;
      KidsChanged(s, pcbs.Keys, h, q);
      NodesAppended(KidsOf(s, h), c);
      RingsChanged(s, WithKids(s, h, q), pcbs.Keys, h, SiblingNodes(q));
      AppendedNodes(RingsOf(s, pcbs.Keys), h, SiblingOf(c));
      AddLast(SiblingOf(c), KidsUnblocked(current), WithKids(s, h, q));
      ShownSame(pcbs, s0, s);
    }

    method BecomeReady(c: int)
      requires ListsOk() && PcbsOk() && GlobalsOk() && c in pcbs && ListOf(c) !in Nodes(RingsOf(s, pcbs.Keys))
      modifies this`links, this`s
      ensures ListsOk() && PcbsOk() && GlobalsOk()
      ensures s == old(s).(ready := old(s).ready + [c], live := old(s).live + {c})
    {
      ghost var s0 := s;
      JoinQueue(c, ReadyQueue);
      ghost var s' := s.(live := s.live + {c});
      WiredSame(links, s, s', pcbs.Keys);
      ShownGrown(pcbs, s0, s');
      s := s';
    }

    /** The scheduling part of a fork that succeeds, without its effect on the invariant */
    method StartTask(c: int)
      requires ListsOk() && PcbsOk() && GlobalsOk() && c == s.lastPid + 1 && Unused(s, pcbs.Keys, c)
      requires s.cur !in s.ready && s.cur !in s.blocked && s.cur !in s.kbd
      modifies this`links, this`pcbs, this`pidGlobal, this`s
      ensures ListsOk() && PcbsOk() && GlobalsOk() && s == Fork(old(s))
    {
      ForkIs(s, c);
      MakePcb(c);
      JoinFamily(c);
      BecomeReady(c);
    }

    /** The scheduling part of a fork that succeeds: it returns the child's PID. */
    method SysFork() returns (pid: int)
      requires Valid() && Enabled(s, OpFork)
      modifies this`links, this`pcbs, this`pidGlobal, this`s
      ensures Valid() && s == Step(old(s), OpFork) && pid == old(s).lastPid + 1
    {
      ForkKnows(pcbs, s);
      pid := pidGlobal + 1;
      StartTask(pid);
    }

    // ---------- block and unblock ----------

    /** list_del and list_add_tail of a child's sibling node: from its parent's one list of children to the other. */
    method MoveSibling(c: int, ghost here: Node, to: Node)
      requires ListsOk() && IsKids(here) && IsKids(to) && here.pid in pcbs && to.pid in pcbs && here != to
      requires c in KidsOf(s, here)
      modifies this`links, this`s
      ensures ListsOk()
      ensures s == WithKids(WithKids(old(s), here, Remove(KidsOf(old(s), here), c)), to, KidsOf(old(s), to) + [c])
    {
      InKids(links, s, pcbs.Keys, here, c);
      TakeOut(SiblingOf(c), here, Position(KidsOf(s, here), c), WithKids(s, here, Remove(KidsOf(s, here), c)));
      ghost var q := KidsOf(s, to) + [c];
      KidsChanged(s, pcbs.Keys, to, q);
      NodesAppended(KidsOf(s, to), c);
      AddLast(SiblingOf(c), to, WithKids(s, to, q));
    }

    /** The walk of list_for_each over a list of children, looking for a PID. */
    method FindChild(h: Node, pid: int) returns (found: bool)
      requires ListsOk() && IsKids(h) && h.pid in pcbs
      ensures found <==> pid in KidsOf(s, h)
    {
      ghost var q := KidsOf(s, h);
      KidsChanged(s, pcbs.Keys, h, q);
      LinksAt(links, s, pcbs.Keys, h, 0);
      var pos := links.next[h].value;
      ghost var k := 0;
      while pos != h
        invariant 0 <= k <= |q| && pos == At(h, RingOf(s, h), k + 1)
        invariant pid !in q[..k]
        decreases |q| - k
      {
        assert pos == SiblingOf(q[k]);
        if pos.pid == pid { return true; }
        LinksAt(links, s, pcbs.Keys, h, k + 1);
        pos := links.next[pos].value;
        k := k + 1;
      }
      assert q[..k] == q;
      return false;
    }

    /** The part of block in which the caller goes to sleep. */
    method GoToSleep()
      requires ListsOk() && PcbsOk() && GlobalsOk()
      requires s.cur !in s.ready && s.cur !in s.blocked && s.cur !in s.kbd && (forall p :: p in s.ready ==> p in pcbs)
      requires s.cur in s.parent ==> s.cur in Kids(s.kidsU, s.parent[s.cur])
      modifies this`current, this`remainingQuantum, this`links, this`s
      ensures ListsOk() && PcbsOk() && GlobalsOk() && s == SchedNext(Sleep(old(s)))
    {
      ghost var s0 := s;
      if pcbs[current].parent.Some? {
        var p := pcbs[current].parent.value;
        MoveSibling(current, KidsUnblocked(p), KidsBlocked(p));
        ShownSame(pcbs, s0, s);
      }
      Yield(BlockedQueue);
    }

    /** block, without its effect on the invariant */
    method BlockCall()
      requires ListsOk() && PcbsOk() && GlobalsOk()
      requires s.cur !in s.ready && s.cur !in s.blocked && s.cur !in s.kbd && (forall p :: p in s.ready ==> p in pcbs)
      requires s.cur in s.parent ==> s.cur in Kids(s.kidsU, s.parent[s.cur])
      modifies this`current, this`remainingQuantum, this`links, this`pcbs, this`s
      ensures ListsOk() && PcbsOk() && GlobalsOk() && s == Block(old(s))
    {
      if pcbs[current].pendingUnblocks > 0 {
        SetPending(current, pcbs[current].pendingUnblocks - 1, Block(s));
      } else {
        GoToSleep();
      }
    }

    method SysBlock()
      requires Valid() && Enabled(s, OpBlock)
      modifies this`current, this`remainingQuantum, this`links, this`pcbs, this`s
      ensures Valid() && s == Step(old(s), OpBlock)
    {
      BlockKnows(pcbs, s);
      BlockCall();
    }

    method SetPending(p: int, n: int, ghost s': Sched)
      requires ListsOk() && PcbsOk() && GlobalsOk() && p in pcbs && s' == s.(pending := s.pending[p := n])
      modifies this`pcbs, this`s
      ensures ListsOk() && PcbsOk() && GlobalsOk() && s == s'
    {
      WiredSame(links, s, s', pcbs.Keys);
      assert pcbs[p := pcbs[p].(pendingUnblocks := n)].Keys == pcbs.Keys;
      pcbs := pcbs[p := pcbs[p].(pendingUnblocks := n)];
      s := s';
    }

    /** The part of unblock that wakes a child: its two nodes change lists. */
    method WakeRelinks(pid: int)
      requires ListsOk() && current == s.cur && current in pcbs && pid in pcbs && pid in Kids(s.kidsB, s.cur)
      requires pid in s.blocked
      modifies this`links, this`s
      ensures ListsOk() && s == WakeChild(old(s), pid)
    {
      ghost var s0 := s;
      MoveSibling(pid, KidsBlocked(current), KidsUnblocked(current));
      ghost var s1 := s;
      UpdateProcessState(pid, ReadyQueue, BlockedQueue, Position(s.blocked, pid));
      WokenSteps(s0, s1, s, pid);
    }

    method Wake(pid: int)
      requires ListsOk() && PcbsOk() && GlobalsOk() && pid in pcbs && pid in Kids(s.kidsB, s.cur) && pid in s.blocked
      modifies this`links, this`s
      ensures ListsOk() && PcbsOk() && GlobalsOk() && s == WakeChild(old(s), pid)
    {
      ghost var s0 := s;
      WakeRelinks(pid);
      ShownSame(pcbs, s0, s);
    }

    /** The part of unblock that leaves a child an unblock for later. */
    method AddPending(pid: int)
      requires ListsOk() && PcbsOk() && GlobalsOk() && pid in pcbs
      modifies this`pcbs, this`s
      ensures ListsOk() && PcbsOk() && GlobalsOk() && s == UnblockLater(old(s), pid)
    {
      var n := pcbs[pid].pendingUnblocks + 1;
      ghost var s' := UnblockLater(s, pid);
      PendingIs(pcbs, s, pid, n, s');
      SetPending(pid, n, s');
    }

    /** unblock, without its effect on the invariant */
    method UnblockCall(pid: int) returns (r: int)
      requires ListsOk() && PcbsOk() && GlobalsOk()
      requires pid in Kids(s.kidsB, s.cur) ==> pid in s.blocked && pid in pcbs
      requires pid in Kids(s.kidsU, s.cur) ==> pid in pcbs
      modifies this`links, this`pcbs, this`s
      ensures ListsOk() && PcbsOk() && GlobalsOk() && s == Unblock(old(s), pid).0 && r == Unblock(old(s), pid).1
    {
      var found := FindChild(KidsBlocked(current), pid);
      if found {
        Wake(pid);
        return 0;
      }
      found := FindChild(KidsUnblocked(current), pid);
      if found {
        AddPending(pid);
        return 0;
      }
      return -1;
    }

    method SysUnblock(pid: int) returns (r: int)
      requires Valid() && Enabled(s, OpUnblock(pid))
      modifies this`links, this`pcbs, this`s
      ensures Valid() && s == Step(old(s), OpUnblock(pid)) && r == Unblock(old(s), pid).1
    {
      StepKeeps(s, OpUnblock(pid));
      UnblockKnows(pcbs, s, pid);
      r := UnblockCall(pid);
    }

    // ---------- keyboard and read ----------

    /** What the state becomes when only the buffer has changed. */
    method Shows(ghost s': Sched)
      requires ListsOk() && PcbsOk() && GlobalsOk() && s' == s.(buf := s'.buf, woken := s'.woken)
      modifies this`s
      ensures ListsOk() && PcbsOk() && GlobalsOk() && s == s'
    {
      WiredSame(links, s, s', pcbs.Keys);
      ShownSame(pcbs, s, s');
      s := s';
    }

    /** The waking of the first blocked reader: list_del and update_process_state_rr. */
    method ReaderRelinks(t: int)
      requires ListsOk() && s.kbd != [] && t == s.kbd[0] && t in pcbs && t !in s.kbd[1..] && t !in s.ready
      requires t !in s.blocked
      modifies this`links, this`s
      ensures ListsOk() && s == old(s).(kbd := old(s).kbd[1..], ready := old(s).ready + [t])
    {
      var entry := TakeFirst(KbdQueue);
      UpdateProcessState(t, ReadyQueue, ReadyQueue, -1);
    }

    method WakeFirstReader(t: int)
      requires ListsOk() && PcbsOk() && GlobalsOk() && s.kbd != [] && t == s.kbd[0] && t in pcbs
      requires t !in s.kbd[1..] && t !in s.ready && t !in s.blocked
      modifies this`links, this`s
      ensures ListsOk() && PcbsOk() && GlobalsOk() && s == WakeFirst(old(s))
    {
      ghost var s0 := s;
      ReaderRelinks(t);
      ShownSame(pcbs, s0, s);
      Shows(WakeFirst(s0));
    }

    /** list_first on the queue of blocked readers */
    method FirstReader() returns (t: int)
      requires ListsOk() && s.kbd != []
      ensures t == s.kbd[0]
    {
      LinksAt(links, s, pcbs.Keys, KbdQueue, 0);
      t := links.next[KbdQueue].value.pid;
    }

    /** The second half of kbd_buf_write: the first blocked reader is woken if it now has enough characters. */
    method WakeReader()
      requires ListsOk() && PcbsOk() && GlobalsOk() && BufferOk()
      requires s.kbd != [] ==>
        s.kbd[0] in pcbs && s.kbd[0] !in s.kbd[1..] && s.kbd[0] !in s.ready && s.kbd[0] !in s.blocked
      modifies this`links, this`s
      ensures ListsOk() && PcbsOk() && GlobalsOk() && s == if Served(old(s)) then WakeFirst(old(s)) else old(s)
    {
      var empty := QueueEmpty(KbdQueue);
      if !empty {
        var t := FirstReader();
        if buffer.count >= pcbs[t].kbdCharsNeeded {
          WakeFirstReader(t);
        }
      }
    }

    /** kbd_buf_write, called by the keyboard interrupt */
    method KbdBufWrite(c: char)
      requires Valid() && Enabled(s, OpKey(c))
      modifies this`links, this`s, buffer, buffer.buf
      ensures Valid() && s == Step(old(s), OpKey(c))
    {
      KeyKnows(pcbs, s, c);
      var stored := buffer.Put(c);
      if !stored { return; }
      Shows(s.(buf := s.buf + [c]));
      WakeReader();
    }

    /** The part of read that sleeps until there are enough characters. */
    method SleepOnKeyboard(n: int)
      requires ListsOk() && PcbsOk() && GlobalsOk()
      requires s.cur !in s.ready && s.cur !in s.blocked && s.cur !in s.kbd && (forall p :: p in s.ready ==> p in pcbs)
      modifies this`current, this`remainingQuantum, this`links, this`pcbs, this`s
      ensures ListsOk() && PcbsOk() && GlobalsOk()
      ensures s == SchedNext(old(s).(need := old(s).need[old(s).cur := n], kbd := old(s).kbd + [old(s).cur]))
    {
      ghost var s1 := s.(need := s.need[s.cur := n]);
      WiredSame(links, s, s1, pcbs.Keys);
      assert pcbs[current := pcbs[current].(kbdCharsNeeded := n)].Keys == pcbs.Keys;
      pcbs := pcbs[current := pcbs[current].(kbdCharsNeeded := n)];
      s := s1;
      Yield(KbdQueue);
    }

    /**
     * read, up to the point where it sleeps or returns. The check of the user's pointer is given by its outcome; `data`
     * is what is copied to the user, and `slept` tells that the call goes on in ResumeRead.
     */
    method SysRead(isNull: bool, accessOk: bool, max: int) returns (r: int, data: seq<char>, slept: bool)
      requires Valid() && s.cur != s.idle && s.cur !in s.woken
      modifies this`current, this`remainingQuantum, this`links, this`pcbs, this`s, buffer
      ensures Valid()
      ensures isNull ==> r == -EFAULT && s == old(s)
      ensures !isNull && max < 0 ==> r == -EINVAL && s == old(s)
      ensures !isNull && max == 0 ==> r == 0 && s == Step(old(s), OpFlush)
      ensures !isNull && max > 0 && !accessOk ==> r == -EFAULT && s == old(s)
      ensures !isNull && max > 0 && accessOk ==> s == Step(old(s), OpRead(max)) && data == Handed(old(s), OpRead(max))
      ensures !isNull && max > 0 && accessOk ==> slept == (data == []) && (!slept ==> r == |data|)
    {
      r, data, slept := 0, [], false;
      if isNull { return -EFAULT, [], false; }
      if max < 0 { return -EINVAL, [], false; }
      if max == 0 {
        FlushCall();
        return;
      }
      if !accessOk { return -EFAULT, [], false; }
      data, slept := ReadCall(max);
      r := |data|;
    }

    /** read of no characters: kbd_buf_flush */
    method FlushCall()
      requires Valid() && Enabled(s, OpFlush)
      modifies this`s, buffer
      ensures Valid() && s == Step(old(s), OpFlush)
    {
      StepKeeps(s, OpFlush);
      buffer.Flush();
      Shows(s.(buf := []));
    }

    /** kbd_buf_read, as the state sees it */
    method ReadBuffer(n: int) returns (data: seq<char>)
      requires ListsOk() && PcbsOk() && GlobalsOk() && BufferOk()
      modifies this`s, buffer
      ensures ListsOk() && PcbsOk() && GlobalsOk() && BufferOk()
      ensures data == Taken(old(s), n) && s == TakeChars(old(s), n)
    {
      data := buffer.Take(n);
      Shows(TakeChars(s, n));
    }

    /** read of some characters, without its effect on the invariant */
    method ReadChars(max: int) returns (data: seq<char>, slept: bool)
      requires ListsOk() && PcbsOk() && GlobalsOk() && BufferOk()
      requires s.cur !in s.ready && s.cur !in s.blocked && s.cur !in s.kbd && (forall p :: p in s.ready ==> p in pcbs)
      modifies this`current, this`remainingQuantum, this`links, this`pcbs, this`s, buffer
      ensures ListsOk() && PcbsOk() && GlobalsOk() && BufferOk()
      ensures s == Read(old(s), max) && data == Taken(old(s), Min(max, KEYBOARD_BUF_SIZE)) && slept == (data == [])
    {
      var toRead := if max > KEYBOARD_BUF_SIZE then KEYBOARD_BUF_SIZE else max;
      data := ReadBuffer(toRead);
      slept := |data| == 0;
      if slept { SleepOnKeyboard(toRead); }
    }

    /** read of some characters, with a good pointer */
    method ReadCall(max: int) returns (data: seq<char>, slept: bool)
      requires Valid() && Enabled(s, OpRead(max))
      modifies this`current, this`remainingQuantum, this`links, this`pcbs, this`s, buffer
      ensures Valid() && s == Step(old(s), OpRead(max))
      ensures data == Handed(old(s), OpRead(max)) && slept == (data == [])
    {
      ReadKnows(pcbs, s, max);
      data, slept := ReadChars(max);
    }

    /** The end of a read that slept, run as soon as its task is given the processor. */
    method ResumeRead() returns (data: seq<char>)
      requires Valid() && Enabled(s, OpResume)
      modifies this`s, buffer
      ensures Valid() && s == Step(old(s), OpResume) && data == Handed(old(s), OpResume)
    {
      StepKeeps(s, OpResume);
      data := ReadBuffer(pcbs[current].kbdCharsNeeded);
      Shows(Resume(old(s)));
    }
  }
}
