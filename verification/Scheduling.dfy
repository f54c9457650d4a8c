/** The run queues, block/unblock and the keyboard buffer: the state, and what each call and interrupt does to it. */
module Scheduling {
  import opened Sequences

  const QUANTUM: int := 10
  const KEYBOARD_BUF_SIZE: int := 256

  /**
   * The tasks, by PID. `ready`, `blocked` and `kbd` are the three queues, first task first; `rem` is remaining_quantum.
   * `kidsB` and `kidsU` are the children_blocked and children_unblocked lists. `buf` holds the characters of the
   * keyboard buffer, oldest first; `woken` are the readers taken out of `kbd` that have not read yet.
   */
  datatype Sched = Sched(
    cur: int, idle: int, live: set<int>,
    ready: seq<int>, blocked: seq<int>, kbd: seq<int>, rem: int,
    parent: map<int, int>, pending: map<int, int>, kidsB: map<int, seq<int>>, kidsU: map<int, seq<int>>, lastPid: int,
    buf: seq<char>, need: map<int, int>, woken: set<int>)

  function Get<T>(m: map<int, T>, k: int, default: T): T {
    if k in m then m[k] else default
  }

  function Kids(m: map<int, seq<int>>, p: int): seq<int> {
    Get(m, p, [])
  }

  function Min(a: int, b: int): int {
    if a < b then a else b
  }

  /** The queue without the first occurrence of t. */
  function Remove(q: seq<int>, t: int): seq<int> {
    if t in q then q[..Position(q, t)] + q[Position(q, t) + 1..] else q
  }

  /** sched_next_rr: the first ready task runs, or idle when there is none. */
  function SchedNext(s: Sched): (s': Sched)
    ensures s' == s.(cur := s'.cur, ready := s'.ready, rem := QUANTUM)
  {
    if s.ready == [] then s.(cur := s.idle, rem := QUANTUM)
    else s.(cur := s.ready[0], ready := s.ready[1..], rem := QUANTUM)
  }

  /** schedule, on a clock tick */
  function Tick(s: Sched): Sched {
    var s1 := s.(rem := s.rem - 1);
    if s1.rem > 0 && s1.ready != [] then s1 else SchedNext(s1.(ready := s1.ready + [s1.cur]))
  }

  /**
   * What a successful fork does here: the child, a copy of its parent, is the last ready task and the last unblocked
   * child.
   */
  function Fork(s: Sched): Sched {
    var c := s.lastPid + 1;
    s.(lastPid := c, live := s.live + {c}, ready := s.ready + [c],
       parent := s.parent[c := s.cur], pending := s.pending[c := 0],
       kidsB := s.kidsB[c := []],
       kidsU := s.kidsU[c := []][s.cur := Kids(s.kidsU, s.cur) + [c]],
       need := s.need[c := Get(s.need, s.cur, 0)])
  }

  function Exit(s: Sched): Sched {
    SchedNext(s.(live := s.live - {s.cur}))
  }

  /** The caller goes to sleep in `blocked`, and to its parent's list of blocked children if it has a parent. */
  function Sleep(s: Sched): Sched {
    var s1 := s.(blocked := s.blocked + [s.cur]);
    if s.cur in s.parent then
      var p := s.parent[s.cur];
      s1.(kidsU := s.kidsU[p := Remove(Kids(s.kidsU, p), s.cur)], kidsB := s.kidsB[p := Kids(s.kidsB, p) + [s.cur]])
    else s1
  }

  function Block(s: Sched): Sched {
    if Get(s.pending, s.cur, 0) > 0 then s.(pending := s.pending[s.cur := s.pending[s.cur] - 1])
    else SchedNext(Sleep(s))
  }

  /** A child asleep in `blocked` becomes ready, and unblocked. */
  function WakeChild(s: Sched, pid: int): Sched {
    s.(kidsB := s.kidsB[s.cur := Remove(Kids(s.kidsB, s.cur), pid)],
       kidsU := s.kidsU[s.cur := Kids(s.kidsU, s.cur) + [pid]],
       blocked := Remove(s.blocked, pid), ready := s.ready + [pid])
  }

  /** A child that is not asleep there will not sleep at its next block. */
  function UnblockLater(s: Sched, pid: int): Sched {
    s.(pending := s.pending[pid := Get(s.pending, pid, 0) + 1])
  }

  function Unblock(s: Sched, pid: int): (Sched, int) {
    if pid in Kids(s.kidsB, s.cur) then (WakeChild(s, pid), 0)
    else if pid in Kids(s.kidsU, s.cur) then (UnblockLater(s, pid), 0)
    else (s, -1)
  }

  /** Whether the first reader asleep now has the characters it waits for. */
  predicate Served(s: Sched) {
    s.kbd != [] && |s.buf| >= Get(s.need, s.kbd[0], 0)
  }

  function WakeFirst(s: Sched): Sched
    requires s.kbd != []
  {
    s.(kbd := s.kbd[1..], ready := s.ready + [s.kbd[0]], woken := s.woken + {s.kbd[0]})
  }

  /**
   * kbd_buf_write: a full buffer drops the character; otherwise the first blocked reader is woken if it now has enough.
   */
  function Key(s: Sched, c: char): Sched {
    if |s.buf| >= KEYBOARD_BUF_SIZE then s
    else
      var s1 := s.(buf := s.buf + [c]);
      if Served(s1) then WakeFirst(s1) else s1
  }

  /** The characters that a read of up to n takes from the buffer. */
  function Taken(s: Sched, n: int): seq<char> {
    s.buf[..Min(if n < 0 then 0 else n, |s.buf|)]
  }

  function TakeChars(s: Sched, n: int): Sched {
    s.(buf := s.buf[|Taken(s, n)|..])
  }

  /** A read of `max` > 0 characters: served at once if there is anything, and otherwise the caller sleeps. */
  function Read(s: Sched, max: int): Sched {
    var n := Min(max, KEYBOARD_BUF_SIZE);
    if Taken(s, n) != [] then TakeChars(s, n)
    else SchedNext(s.(need := s.need[s.cur := n], kbd := s.kbd + [s.cur]))
  }

  /** The rest of a read that slept, once its task runs again. */
  function Resume(s: Sched): Sched {
    TakeChars(s.(woken := s.woken - {s.cur}), Get(s.need, s.cur, 0))
  }

  /** read with size 0 */
  function Flush(s: Sched): Sched {
    s.(buf := [])
  }

  // ---------- steps and runs ----------

  datatype Op =
    | OpTick
    | OpKey(c: char)
    | OpFork
    | OpExit
    | OpBlock
    | OpUnblock(pid: int)
    | OpRead(max: int)
    | OpFlush
    | OpResume

  /**
   * Whether a step can happen. A woken reader that gets the processor finishes its read before anything else, because
   * interrupts are off until it returns to user mode; and idle makes no system call.
   */
  predicate Enabled(s: Sched, op: Op) {
    if s.cur in s.woken then op.OpResume?
    else match op
      case OpTick => true
      case OpKey(_) => true
      case OpResume => false
      case OpRead(max) => s.cur != s.idle && max > 0
      case _ => s.cur != s.idle
  }

  function Apply(s: Sched, op: Op): Sched {
    match op
    case OpTick => Tick(s)
    case OpKey(c) => Key(s, c)
    case OpFork => Fork(s)
    case OpExit => Exit(s)
    case OpBlock => Block(s)
    case OpUnblock(pid) => Unblock(s, pid).0
    case OpRead(max) => Read(s, max)
    case OpFlush => Flush(s)
    case OpResume => Resume(s)
  }

  function Step(s: Sched, op: Op): Sched {
    if Enabled(s, op) then Apply(s, op) else s
  }

  function Run(s: Sched, ops: seq<Op>): Sched
    decreases |ops|
  {
    if ops == [] then s else Run(Step(s, ops[0]), ops[1..])
  }

  const IDLE_PID: int := 0
  const INIT_PID: int := 1
  const FIRST_PID: int := 100

  /** After booting: the first task runs, idle has not run yet, and nothing is queued. */
  const BOOT_SCHED: Sched := Sched(
    INIT_PID, IDLE_PID, {IDLE_PID, INIT_PID}, [], [], [], 0,
    map[], map[IDLE_PID := 0, INIT_PID := 0], map[IDLE_PID := [], INIT_PID := []], map[IDLE_PID := [], INIT_PID := []],
      FIRST_PID,
    [], map[], {})

  // ---------- the invariant ----------

  /** How often each task is running or queued. */
  ghost function Spots(s: Sched): multiset<int> {
    multiset{s.cur} + multiset(s.ready) + multiset(s.blocked) + multiset(s.kbd)
  }

  /** Every live task but idle is running or in one queue, once; idle at most once; a dead task never. */
  ghost predicate Placed(s: Sched) {
    && (forall t :: t in s.live && t != s.idle ==> Spots(s)[t] == 1)
    && (forall t :: t in Spots(s) ==> t in s.live)
    && Spots(s)[s.idle] <= 1
    && s.idle !in s.blocked && s.idle !in s.kbd
    && s.idle in s.live
    && (forall t :: t in s.live ==> t <= s.lastPid)
  }

  /** The needs of the woken readers in a queue. */
  function WokenNeed(q: seq<int>, woken: set<int>, need: map<int, int>): int {
    if q == [] then 0 else (if q[0] in woken then Get(need, q[0], 0) else 0) + WokenNeed(q[1..], woken, need)
  }

  /** What the woken readers that have not read yet may still take. */
  function Promised(s: Sched): int {
    WokenNeed([s.cur] + s.ready, s.woken, s.need)
  }

  /** No reader sleeps on characters that nobody else is about to take. */
  ghost predicate NoLostWakeUp(s: Sched) {
    s.kbd != [] ==> |s.buf| < Get(s.need, s.kbd[0], 0) + Promised(s)
  }

  ghost predicate Readers(s: Sched) {
    && |s.buf| <= KEYBOARD_BUF_SIZE
    && (forall t :: t in s.kbd || t in s.woken ==> 1 <= Get(s.need, t, 0) <= KEYBOARD_BUF_SIZE)
    && (forall t :: t in s.woken ==> t == s.cur || t in s.ready)
    && NoLostWakeUp(s)
  }

  /** A list of children of each task holds, once each, its children that satisfy `asleep`, or those that do not. */
  ghost predicate Family(kids: map<int, seq<int>>, parent: map<int, int>, blocked: seq<int>, asleep: bool, p: int) {
    && Distinct(Kids(kids, p))
    && forall c :: c in Kids(kids, p) <==> c in parent && parent[c] == p && ((c in blocked) == asleep)
  }

  /** Each child is in one list of its parent, the blocked one exactly when it sleeps in `blocked`. */
  ghost predicate Families(s: Sched) {
    && (forall p :: Family(s.kidsB, s.parent, s.blocked, true, p))
    && (forall p :: Family(s.kidsU, s.parent, s.blocked, false, p))
    && (forall c :: c in s.parent ==> c <= s.lastPid && s.parent[c] <= s.lastPid)
    && (forall c :: c in s.pending ==> c <= s.lastPid && 0 <= s.pending[c])
    && (forall c :: c in s.blocked ==> Get(s.pending, c, 0) == 0)
  }

  ghost predicate SInv(s: Sched) {
    Placed(s) && Readers(s) && Families(s) && s.rem <= QUANTUM
  }
}
