/**
 * The memory calls with the words that their list operations write. Lists lead into the frames of PCBs that have been
 * freed, and those frames may hold anything by now: this module says when a call writes only where nothing of a task is
 * kept.
 */
module LinkedMemory {
  import opened Machine
  import opened Memory
  import opened MemoryInvariant
  import opened TaskLife
  import opened MemoryRuns
  import opened Reclaim
  import opened Balance
  import opened PcbLists
  import opened Sequences

  /** The kernel's list heads, word by word, `list_tasks` among them, and the frame of the idle task's PCB. */
  datatype Vars = Vars(tasks: Place, heads: set<Place>, idlePcb: int)

  /** The words of a task_struct that list operations and unblock write. */
  predicate LinkWord(i: int) {
    LIST <= i <= SIBILING + 1 || TASK_LIST <= i <= TASK_LIST + 1
  }

  ghost predicate VarsOk(m: Mem, v: Vars) {
    && v.tasks in v.heads && Plus(v.tasks, 1) in v.heads
    && (forall p :: p in v.heads ==> p.frame in m.boot.pinned && p.frame !in m.boot.code && p.frame != v.idlePcb)
    && v.idlePcb in m.boot.pinned && v.idlePcb !in m.boot.code
  }

  /** A write there is harmless: a list head of the kernel, a list word of a PCB in use, or a frame that nobody uses. */
  ghost predicate Harmless(m: Mem, v: Vars, p: Place) {
    if p.frame in m.own then
      match m.own[p.frame]
      case Pcb(_) => LinkWord(p.index)
      case Pinned => p in v.heads || (p.frame == v.idlePcb && LinkWord(p.index))
      case Leaked => true
      case _ => false
    else m.boot.lastKernel <= p.frame < TOTAL_PAGES
  }

  ghost predicate AllHarmless(m: Mem, v: Vars, hits: set<Place>) {
    forall p :: p in hits ==> Harmless(m, v, p)
  }

  /** Frames that hold a directory, a table, data, code or a shared page. */
  ghost predicate HoldsMemory(m: Mem, f: int) {
    f in m.own && !m.own[f].Pcb? && m.own[f] != Leaked && (m.own[f] == Pinned ==> f in m.boot.code)
  }

  /** m' is m but for words that hold nothing of a task's memory. */
  ghost predicate Alike(m: Mem, m': Mem) {
    && m' == m.(ram := m'.ram) && |m'.ram| == |m.ram|
    && forall f :: HoldsMemory(m, f) ==> PageAt(m', f) == PageAt(m, f)
  }

  lemma AlikeChains(m: Mem, m1: Mem, m2: Mem)
    requires Alike(m, m1) && Alike(m1, m2)
    ensures Alike(m, m2)
  {
    forall f | HoldsMemory(m, f) ensures PageAt(m2, f) == PageAt(m, f) {
      assert HoldsMemory(m1, f);
    }
  }

  lemma HarmlessHoldsNothing(m: Mem, v: Vars, p: Place)
    requires VarsOk(m, v) && Harmless(m, v, p)
    ensures !HoldsMemory(m, p.frame)
  {
  }

  lemma WithinIsAlike(m: Mem, ram': seq<Page>, hits: set<Place>)
    requires Core(m) && Within(m.ram, ram', hits) && forall p :: p in hits ==> !HoldsMemory(m, p.frame)
    ensures Alike(m, m.(ram := ram'))
  {
    forall f | HoldsMemory(m, f) ensures PageAt(m.(ram := ram'), f) == PageAt(m, f) {
      assert forall p: Place :: p in hits ==> p.frame != f;
      SamePage(m.ram, ram', hits, f);
    }
  }

  lemma HarmlessIsAlike(m: Mem, v: Vars, ram': seq<Page>, hits: set<Place>)
    requires Core(m) && VarsOk(m, v) && Within(m.ram, ram', hits)
    requires forall p :: p in hits ==> Harmless(m, v, p) || (p.frame in m.own && m.own[p.frame].Pcb?)
    ensures Alike(m, m.(ram := ram'))
  {
    forall p: Place | p in hits ensures !HoldsMemory(m, p.frame) {
      if Harmless(m, v, p) { HarmlessHoldsNothing(m, v, p); }
    }
    WithinIsAlike(m, ram', hits);
  }

  lemma AlikeTables(m: Mem, m': Mem)
    requires Core(m) && Alike(m, m')
    ensures forall s :: s in m.dir ==> TableFrame(m', s) == TableFrame(m, s) && Tab(m', s) == Tab(m, s)
    ensures forall s, i ::
      s in m.dir && 0 <= i < PT_ENTRIES && Tab(m, s)[i].present ==>
        PageAt(m', Tab(m, s)[i].base) == PageAt(m, Tab(m, s)[i].base)
  {
    forall s | s in m.dir ensures TableFrame(m', s) == TableFrame(m, s) && Tab(m', s) == Tab(m, s) {
      TaskFrames(m, s);
      assert HoldsMemory(m, m.dir[s]) && HoldsMemory(m, TableFrame(m, s));
    }
    forall s, i | s in m.dir && 0 <= i < PT_ENTRIES && Tab(m, s)[i].present
      ensures PageAt(m', Tab(m, s)[i].base) == PageAt(m, Tab(m, s)[i].base)
    {
      UserFrame(m, s, i);
      assert HoldsMemory(m, Tab(m, s)[i].base);
    }
  }

  /** Harmless writes keep the invariant of memory. */
  lemma AlikeKeeps(m: Mem, m': Mem)
    requires Inv(m) && Alike(m, m')
    ensures Inv(m')
  {
    AlikeTables(m, m');
    TablesKeep(m, m');
  }

  /** The invariant depends on the contents of directories and tables only. */
  lemma TablesKeep(m: Mem, m': Mem)
    requires Inv(m) && m' == m.(ram := m'.ram) && |m'.ram| == |m.ram|
    requires forall s :: s in m.dir ==> TableFrame(m', s) == TableFrame(m, s) && Tab(m', s) == Tab(m, s)
    ensures Inv(m')
  {
    ClaimsFramed(m, m');
    forall s | s in m'.dir ensures TableOk(m', Tab(m', s)) { assert TableOk(m, Tab(m, s)); }
    forall k | 0 <= k < NUM_SHARED_PAGES ensures SharedOk(m', k) && MarkedInUse(m', k) {
      assert SharedOk(m, k) && MarkedInUse(m, k);
      SameMappings(m, m', m.shFrame[k]);
    }
  }

  // ---------- fork ----------

  /** The list part of alloc_pcb, for a PCB in frame c. */
  function Enlist(ram: seq<Page>, c: int, tasks: Place): (ram': seq<Page>)
    ensures |ram'| == |ram|
  {
    AddTail(InitHead(ram, Member(c, TASK_LIST)), Member(c, TASK_LIST), tasks)
  }

  /** The child's own family words. */
  function NewFamily(ram: seq<Page>, c: int, t: int): (ram': seq<Page>)
    ensures |ram'| == |ram|
  {
    var ram1 := Put(ram, Member(c, PARENT), Pointer(Member(t, 0)));
    InitHead(InitHead(ram1, Member(c, CHILDREN_BLOCKED)), Member(c, CHILDREN_UNBLOCKED))
  }

  /** The child has no children, and is the last of its parent's unblocked ones. */
  function LinkChild(ram: seq<Page>, c: int, t: int): (ram': seq<Page>)
    ensures |ram'| == |ram|
  {
    AddTail(NewFamily(ram, c, t), Member(c, SIBILING), Member(t, CHILDREN_UNBLOCKED))
  }

  /** The family part of fork. No unblock is pending at first. */
  function JoinFamily(ram: seq<Page>, c: int, t: int): (ram': seq<Page>)
    ensures |ram'| == |ram|
  {
    Put(LinkChild(ram, c, t), Member(c, PENDING_UNBLOCKS), ZERO_WORD)
  }

  lemma JoinIsLink(ram: seq<Page>, c: int, t: int, q: Place)
    requires q != Member(c, PENDING_UNBLOCKS)
    ensures WordAt(JoinFamily(ram, c, t), q) == WordAt(LinkChild(ram, c, t), q)
  {
    WordAfterPut(LinkChild(ram, c, t), Member(c, PENDING_UNBLOCKS), ZERO_WORD, q);
  }

  lemma JoinStaysWithin(ram: seq<Page>, c: int, t: int)
    ensures Within(ram, JoinFamily(ram, c, t),
      FamilyHits(c) + AddTailHits(NewFamily(ram, c, t), Member(c, SIBILING), Member(t, CHILDREN_UNBLOCKED)))
  {
    var ram1 := NewFamily(ram, c, t);
    var hits := AddTailHits(ram1, Member(c, SIBILING), Member(t, CHILDREN_UNBLOCKED));
    NewFamilyStaysWithin(ram, c, t);
    AddTailStaysWithin(ram1, Member(c, SIBILING), Member(t, CHILDREN_UNBLOCKED));
    WithinChains(ram, ram1, LinkChild(ram, c, t), FamilyHits(c), hits);
    PutStaysWithin(LinkChild(ram, c, t), ram, Member(c, PENDING_UNBLOCKS), ZERO_WORD, FamilyHits(c) + hits);
  }

  lemma InitReads(ram: seq<Page>, h: Place, q: Place)
    requires h.frame < |ram| && Plus(h, 1).frame < |ram|
    ensures WordAt(InitHead(ram, h), q) == if q == h || q == Plus(h, 1) then Pointer(h) else WordAt(ram, q)
  {
  }

  /** What alloc_pcb's list operation leaves to be read outside the new PCB. */
  lemma EnlistWords(ram: seq<Page>, c: int, tasks: Place, q: Place)
    requires |ram| == TOTAL_PAGES && 0 <= c < TOTAL_PAGES && q.frame != c && Plus(tasks, 1).frame != c
    requires Plus(tasks, 1).frame < |ram| && Prev(ram, tasks).frame < |ram|
    ensures WordAt(Enlist(ram, c, tasks), q) ==
      if q == Prev(ram, tasks) || q == Plus(tasks, 1) then Pointer(Member(c, TASK_LIST)) else WordAt(ram, q)
  {
    var n := Member(c, TASK_LIST);
    var ram1 := InitHead(ram, n);
    InitStaysWithin(ram, n);
    assert WordAt(ram1, Plus(tasks, 1)) == WordAt(ram, Plus(tasks, 1));
    AddTailReads(ram1, n, tasks, q);
  }

  /** The words of a new task, and that no other word changes. */
  lemma NewFamilyReads(ram: seq<Page>, c: int, t: int, q: Place)
    requires 0 <= c < |ram| <= TOTAL_PAGES
    ensures WordAt(NewFamily(ram, c, t), q) ==
      if q == Member(c, CHILDREN_UNBLOCKED) || q == Member(c, CHILDREN_UNBLOCKED + 1) then
        Pointer(Member(c, CHILDREN_UNBLOCKED))
      else if q == Member(c, CHILDREN_BLOCKED) || q == Member(c, CHILDREN_BLOCKED + 1) then
        Pointer(Member(c, CHILDREN_BLOCKED))
      else if q == Member(c, PARENT) then Pointer(Member(t, 0))
      else WordAt(ram, q)
  {
    var ram1 := Put(ram, Member(c, PARENT), Pointer(Member(t, 0)));
    var ram2 := InitHead(ram1, Member(c, CHILDREN_BLOCKED));
    WordAfterPut(ram, Member(c, PARENT), Pointer(Member(t, 0)), q);
    InitReads(ram1, Member(c, CHILDREN_BLOCKED), q);
    InitReads(ram2, Member(c, CHILDREN_UNBLOCKED), q);
  }

  /** What the family part of fork leaves to be read. */
  lemma JoinReadsAt(ram: seq<Page>, c: int, t: int, q: Place)
    requires 0 <= c < |ram| <= TOTAL_PAGES && 0 <= t < |ram| && t != c
    requires Prev(ram, Member(t, CHILDREN_UNBLOCKED)).frame < |ram|
    ensures var last := Prev(ram, Member(t, CHILDREN_UNBLOCKED));
      WordAt(JoinFamily(ram, c, t), q) ==
        if q == Member(c, PENDING_UNBLOCKS) then ZERO_WORD
        else if q == last then Pointer(Member(c, SIBILING))
        else if q == Member(c, SIBILING + 1) then Pointer(last)
        else if q == Member(c, SIBILING) then Pointer(Member(t, CHILDREN_UNBLOCKED))
        else if q == Member(t, CHILDREN_UNBLOCKED + 1) then Pointer(Member(c, SIBILING))
        else WordAt(NewFamily(ram, c, t), q)
  {
    var head := Member(t, CHILDREN_UNBLOCKED);
    NewFamilyReads(ram, c, t, Plus(head, 1));
    assert Prev(NewFamily(ram, c, t), head) == Prev(ram, head);
    AddTailReads(NewFamily(ram, c, t), Member(c, SIBILING), head, q);
    WordAfterPut(LinkChild(ram, c, t), Member(c, PENDING_UNBLOCKS), ZERO_WORD, q);
  }

  /** Memory when fork has its first frame, the PCB, and has linked it into list_tasks. */
  function Enlisted(m: Mem, v: Vars): Mem
    requires Sized(m) && FreeFrames(m) != []
  {
    m.(ram := Enlist(m.ram, FreeFrames(m)[0], v.tasks))
  }

  /**
   * fork, with its list operations: list_add_tail in alloc_pcb, and then list_add_tail of the sibling or list_del in
   * free_pcb.
   */
  function LinkedFork(m: Mem, v: Vars, t: int): (Mem, Forked)
    requires Sized(m) && t in m.dir
  {
    if FreeFrames(m) == [] then Fork(m, t)
    else
      var c, m1 := FreeFrames(m)[0], Enlisted(m, v);
      var m2, r := Fork(m1, t).0, Fork(m1, t).1;
      (m2.(ram := if r.Child? then JoinFamily(m2.ram, c, t) else Del(m2.ram, Member(c, TASK_LIST))), r)
  }

  /**
   * The list operations of fork after alloc_pcb, when they happen, write only where it is harmless; m is what alloc_pcb
   * leaves.
   */
  ghost predicate LaterIsSafe(m: Mem, v: Vars, t: int)
    requires Sized(m) && t in m.dir && FreeFrames(m) != []
  {
    var c, m2, r := FreeFrames(m)[0], Fork(m, t).0, Fork(m, t).1;
    && (r.Child? ==>
          AllHarmless(m2, v, AddTailHits(NewFamily(m2.ram, c, t), Member(c, SIBILING), Member(t, CHILDREN_UNBLOCKED))))
    && (r.Failed? ==> AllHarmless(m2, v, DelHits(m2.ram, Member(c, TASK_LIST))))
  }

  /** Each of fork's list operations, when it happens, writes only where it is harmless. */
  ghost predicate ForkIsSafe(m: Mem, v: Vars, t: int)
    requires Sized(m) && t in m.dir
  {
    FreeFrames(m) != [] ==>
      var node := Member(FreeFrames(m)[0], TASK_LIST);
      AllHarmless(m, v, AddTailHits(InitHead(m.ram, node), node, v.tasks)) && LaterIsSafe(Enlisted(m, v), v, t)
  }

  /**
   * With 23 free frames, the caller's last unblocked child must not be in a frame that the new child gets for its
   * memory; with fewer, the caller's neighbours in list_tasks count.
   */
  ghost predicate LaterGuard(m: Mem, v: Vars, t: int)
    requires Sized(m) && FreeFrames(m) != []
  {
    var fs := FreeFrames(m);
    if |fs| >= FRAMES_PER_TASK then
      var last := Prev(m.ram, Member(t, CHILDREN_UNBLOCKED));
      if last.frame == fs[0] then LinkWord(last.index) else last.frame !in fs[..FRAMES_PER_TASK] && Harmless(m, v, last)
    else
      && Harmless(m, v, Plus(Next(m.ram, Member(t, TASK_LIST)), 1))
      && Harmless(m, v, Prev(m.ram, Member(t, TASK_LIST)))
  }

  /** What can be seen of that before the call: where the last node of list_tasks is, and LaterGuard. */
  ghost predicate ForkGuard(m: Mem, v: Vars, t: int)
    requires Sized(m) && t in m.dir
  {
    FreeFrames(m) != [] ==> Harmless(m, v, Prev(m.ram, v.tasks)) && LaterGuard(Enlisted(m, v), v, t)
  }

  lemma MemberOf(m: Mem, f: int, k: Index)
    requires 0 <= f < TOTAL_PAGES && k < PT_ENTRIES - 1
    ensures Member(f, k).frame == f && Plus(Member(f, k), 1) == Member(f, k + 1)
  {
  }

  /**
   * Only the frame of the PCB and kernel words can be written by the first list operation if its last node is harmless.
   */
  lemma EnlistIsAlike(m: Mem, v: Vars)
    requires Inv(m) && VarsOk(m, v) && FreeFrames(m) != []
    ensures var c := FreeFrames(m)[0];
      AllHarmless(m, v, AddTailHits(InitHead(m.ram, Member(c, TASK_LIST)), Member(c, TASK_LIST), v.tasks)) <==>
        Harmless(m, v, Prev(m.ram, v.tasks))
    ensures Harmless(m, v, Prev(m.ram, v.tasks)) ==> Alike(m, Enlisted(m, v)) && Inv(Enlisted(m, v))
  {
    var c := FreeFrames(m)[0];
    var n := Member(c, TASK_LIST);
    assert c in FreeFrames(m);
    var ram1, hits := InitHead(m.ram, n), AddTailHits(InitHead(m.ram, n), n, v.tasks);
    KernelWords(m, v);
    assert Harmless(m, v, n) && Harmless(m, v, Plus(n, 1));
    InitStaysWithin(m.ram, n);
    assert WordAt(ram1, Plus(v.tasks, 1)) == WordAt(m.ram, Plus(v.tasks, 1));
    if Harmless(m, v, Prev(m.ram, v.tasks)) {
      AddTailStaysWithin(ram1, n, v.tasks);
      WithinChains(m.ram, ram1, Enlist(m.ram, c, v.tasks), {n, Plus(n, 1)}, hits);
      HarmlessIsAlike(m, v, Enlist(m.ram, c, v.tasks), {n, Plus(n, 1)} + hits);
      AlikeKeeps(m, Enlisted(m, v));
    }
  }

  lemma KernelWords(m: Mem, v: Vars)
    requires Core(m) && VarsOk(m, v)
    ensures forall p :: p in v.heads ==>
      Harmless(m, v, p) && p.frame in m.own && m.own[p.frame] == Pinned && p.frame < TOTAL_PAGES
    ensures v.idlePcb in m.own && m.own[v.idlePcb] == Pinned && 0 <= v.idlePcb < TOTAL_PAGES
  {
    forall p | p in v.heads
      ensures Harmless(m, v, p) && p.frame in m.own && m.own[p.frame] == Pinned && p.frame < TOTAL_PAGES
    {
      assert Claim(m, Pinned, p.frame);
    }
    assert Claim(m, Pinned, v.idlePcb);
  }

  /** What a fork on the frames g owns and leaves unwritten. */
  lemma ForkOwns(m: Mem, t: int, g: Grant, f: int)
    requires Inv(m) && t in m.dir && Affords(m, g)
    ensures var m' := Inherit(Birth(m, t, g), t, g.pcb, FIRST_SHARED);
      && m'.own == m.own + ChildOwners(g) && m'.boot == m.boot && |m'.ram| == |m.ram|
      && (f !in Granted(g) ==> PageAt(m', f) == PageAt(m, f))
      && PageAt(m', g.pcb) == PageAt(m, t)
  {
    BirthKeeps(m, t, g);
    BirthWrites(m, t, g);
    InGrant(g, g.table);
    InheritKeeps(Birth(m, t, g), t, g.pcb, FIRST_SHARED);
    InheritPages(Birth(m, t, g), t, g.pcb, FIRST_SHARED, g.pcb);
    if f !in Granted(g) { InheritPages(Birth(m, t, g), t, g.pcb, FIRST_SHARED, f); }
  }

  /** A fork that succeeds writes the frames it takes only, and the child's PCB starts as a copy of its parent's. */
  lemma ForkPages(m: Mem, t: int, f: int)
    requires Inv(m) && t in m.dir && FRAMES_PER_TASK <= |FreeFrames(m)|
    ensures var m', fs := Fork(m, t).0, FreeFrames(m);
      && |m'.ram| == |m.ram| && PageAt(m', fs[0]) == PageAt(m, t)
      && (f !in fs[..FRAMES_PER_TASK] ==> PageAt(m', f) == PageAt(m, f))
  {
    var fs := FreeFrames(m);
    FreeAffords(m);
    GrantIsLowest(fs);
    ForkOwns(m, t, LowestGrant(fs), f);
  }

  /** A fork that succeeds takes nothing from anybody. */
  lemma ForkAdds(m: Mem, t: int, m': Mem, f: int)
    requires Inv(m) && t in m.dir && FRAMES_PER_TASK <= |FreeFrames(m)| && m' == Fork(m, t).0
    ensures m'.shFrame == m.shFrame && m'.shMark == m.shMark && m'.boot == m.boot
    ensures f in m.own ==> f in m'.own && m'.own[f] == m.own[f]
    ensures f in m'.own && f !in m.own ==> f in FreeFrames(m)[..FRAMES_PER_TASK]
  {
    var g := LowestGrant(FreeFrames(m));
    FreeAffords(m);
    ForkOwns(m, t, g, f);
    BirthKeeps(m, t, g);
    InheritKeeps(Birth(m, t, g), t, g.pcb, FIRST_SHARED);
    ChildOwnersAre(g);
    InGrant(g, f);
    GrantIsLowest(FreeFrames(m));
  }

  /** The words of the child that are set for its own family. */
  function FamilyHits(c: int): set<Place> {
    {Member(c, PARENT), Member(c, PENDING_UNBLOCKS), Member(c, CHILDREN_BLOCKED), Plus(Member(c, CHILDREN_BLOCKED), 1),
     Member(c, CHILDREN_UNBLOCKED), Plus(Member(c, CHILDREN_UNBLOCKED), 1)}
  }

  lemma NewFamilyStaysWithin(ram: seq<Page>, c: int, t: int)
    ensures Within(ram, NewFamily(ram, c, t), FamilyHits(c))
  {
    var hits := FamilyHits(c);
    var ram1 := Put(ram, Member(c, PARENT), Pointer(Member(t, 0)));
    var ram2 := InitHead(ram1, Member(c, CHILDREN_BLOCKED));
    var ram3 := InitHead(ram2, Member(c, CHILDREN_UNBLOCKED));
    PutStaysWithin(ram, ram, Member(c, PARENT), Pointer(Member(t, 0)), hits);
    InitStaysWithin(ram1, Member(c, CHILDREN_BLOCKED));
    InitStaysWithin(ram2, Member(c, CHILDREN_UNBLOCKED));
    assert Within(ram, ram2, hits);
    assert Within(ram, ram3, hits);
  }

  lemma GrantOwners(m: Mem, m2: Mem, v: Vars, g: Grant, p: Place)
    requires Affords(m, g) && m2.own == m.own + ChildOwners(g) && m2.boot == m.boot
    ensures p.frame == g.pcb ==>
      (Harmless(m2, v, p) <==> LinkWord(p.index)) && p.frame in m2.own && m2.own[p.frame].Pcb?
    ensures p.frame != g.pcb && p.frame in Granted(g) ==> !Harmless(m2, v, p)
    ensures p.frame !in Granted(g) ==> (Harmless(m2, v, p) <==> Harmless(m, v, p))
    ensures p.frame !in Granted(g) && p.frame in m.own ==> p.frame in m2.own && m2.own[p.frame] == m.own[p.frame]
  {
    ChildOwnersAre(g);
    InGrant(g, p.frame);
    if p.frame in g.data {
      var i := Position(g.data, p.frame);
      assert g.data[i] == p.frame;
    }
  }

  /** The sibling's list operation is harmless exactly when the caller's last child is where it does no harm. */
  lemma JoinIsSafe(m: Mem, v: Vars, t: int, g: Grant)
    requires Inv(m) && VarsOk(m, v) && t in m.dir && Affords(m, g)
    ensures var m2, last := Inherit(Birth(m, t, g), t, g.pcb, FIRST_SHARED), Prev(m.ram, Member(t, CHILDREN_UNBLOCKED));
      AllHarmless(m2, v, AddTailHits(NewFamily(m2.ram, g.pcb, t), Member(g.pcb, SIBILING),
        Member(t, CHILDREN_UNBLOCKED))) <==>
        if last.frame == g.pcb then LinkWord(last.index) else last.frame !in Granted(g) && Harmless(m, v, last)
  {
    var m2 := Inherit(Birth(m, t, g), t, g.pcb, FIRST_SHARED);
    InGrant(g, g.pcb);
    TaskFrames(m, t);
    ForkOwns(m, t, g, t);
    JoinReads(m, m2, g.pcb, t);
    JoinHits(m, m2, v, t, g, Prev(m.ram, Member(t, CHILDREN_UNBLOCKED)));
  }

  /** The caller's last child is the one it had before the call. */
  lemma JoinReads(m: Mem, m2: Mem, c: int, t: int)
    requires Sized(m) && |m2.ram| == |m.ram| && 0 <= t < TOTAL_PAGES && 0 <= c < TOTAL_PAGES && t != c
    requires PageAt(m2, t) == PageAt(m, t)
    ensures Prev(NewFamily(m2.ram, c, t), Member(t, CHILDREN_UNBLOCKED)) == Prev(m.ram, Member(t, CHILDREN_UNBLOCKED))
  {
    var q := Plus(Member(t, CHILDREN_UNBLOCKED), 1);
    NewFamilyStaysWithin(m2.ram, c, t);
    assert q !in FamilyHits(c);
    assert WordAt(NewFamily(m2.ram, c, t), q) == WordAt(m2.ram, q) == WordAt(m.ram, q);
  }

  lemma JoinHits(m: Mem, m2: Mem, v: Vars, t: int, g: Grant, last: Place)
    requires Inv(m) && t in m.dir && Affords(m, g) && m2.own == m.own + ChildOwners(g) && m2.boot == m.boot
    ensures var head, node := Member(t, CHILDREN_UNBLOCKED), Member(g.pcb, SIBILING);
      AllHarmless(m2, v, {Plus(head, 1), node, Plus(node, 1), last}) <==>
        if last.frame == g.pcb then LinkWord(last.index) else last.frame !in Granted(g) && Harmless(m, v, last)
  {
    var head, node := Member(t, CHILDREN_UNBLOCKED), Member(g.pcb, SIBILING);
    InGrant(g, g.pcb);
    TaskFrames(m, t);
    MemberOf(m, t, CHILDREN_UNBLOCKED);
    MemberOf(m, g.pcb, SIBILING);
    GrantOwners(m, m2, v, g, last);
    GrantOwners(m, m2, v, g, Plus(head, 1));
    GrantOwners(m, m2, v, g, node);
    GrantOwners(m, m2, v, g, Plus(node, 1));
  }

  /** What a fork that fails owns, and the words of the PCB that it gives up. */
  lemma RollbackOwns(m: Mem, t: int)
    requires Inv(m) && t in m.dir && 1 <= |FreeFrames(m)| < FRAMES_PER_TASK
    ensures var fs := FreeFrames(m);
      var m2 := Rollback(m, t, fs);
      && m2.own == (if |fs| == 1 then m.own else m.own[fs[1] := Leaked]) && m2.boot == m.boot
      && 0 <= fs[0] < TOTAL_PAGES && PageAt(m2, fs[0]) == PageAt(m, t)
      && (|fs| >= 2 ==> fs[1] !in m.own && m.boot.lastKernel <= fs[1] < TOTAL_PAGES)
  {
    var fs := FreeFrames(m);
    assert fs[0] in fs;
    assert |fs| >= 2 ==> fs[1] in fs && fs[1] != fs[0];
    assert |fs| >= 3 ==> fs[2] in fs && fs[2] != fs[0];
  }

  /** A fork that fails writes no frame but those it took for a while. */
  lemma RollbackSpares(m: Mem, t: int, f: int)
    requires Sized(m) && t in m.dir && 1 <= |FreeFrames(m)| < FRAMES_PER_TASK && f !in FreeFrames(m)
    ensures |Rollback(m, t, FreeFrames(m)).ram| == |m.ram| && PageAt(Rollback(m, t, FreeFrames(m)), f) == PageAt(m, f)
  {
    var fs := FreeFrames(m);
    assert fs[0] in fs && (|fs| >= 2 ==> fs[1] in fs) && (|fs| >= 3 ==> fs[2] in fs);
  }

  /** list_del in the free_pcb of a failed fork follows the links that the caller has. */
  lemma GiveUpIsSafe(m: Mem, v: Vars, t: int)
    requires Inv(m) && t in m.dir && 1 <= |FreeFrames(m)| < FRAMES_PER_TASK
    ensures var m2, node := Rollback(m, t, FreeFrames(m)), Member(t, TASK_LIST);
      AllHarmless(m2, v, DelHits(m2.ram, Member(FreeFrames(m)[0], TASK_LIST))) <==>
        Harmless(m, v, Plus(Next(m.ram, node), 1)) && Harmless(m, v, Prev(m.ram, node))
  {
    var c := FreeFrames(m)[0];
    var m2 := Rollback(m, t, FreeFrames(m));
    RollbackOwns(m, t);
    RollbackPages(m, t);
    TaskFrames(m, t);
    MemberOf(m, t, TASK_LIST);
    MemberOf(m, c, TASK_LIST);
    assert c in FreeFrames(m);
    assert WordAt(m2.ram, Member(c, TASK_LIST)) == WordAt(m.ram, Member(t, TASK_LIST));
    assert WordAt(m2.ram, Member(c, TASK_LIST + 1)) == WordAt(m.ram, Member(t, TASK_LIST + 1));
    forall p: Place ensures Harmless(m2, v, p) <==> Harmless(m, v, p) {
    }
    assert Harmless(m, v, Member(c, TASK_LIST)) && Harmless(m, v, Member(c, TASK_LIST + 1));
  }

  lemma LaterGuardIsExact(m: Mem, v: Vars, t: int)
    requires Inv(m) && VarsOk(m, v) && t in m.dir && FreeFrames(m) != []
    ensures LaterIsSafe(m, v, t) <==> LaterGuard(m, v, t)
  {
    var fs := FreeFrames(m);
    if |fs| >= FRAMES_PER_TASK {
      FreeAffords(m);
      JoinIsSafe(m, v, t, LowestGrant(fs));
      GrantIsLowest(fs);
    } else {
      GiveUpIsSafe(m, v, t);
    }
  }

  /** The guard is exact: fork's list operations are harmless if and only if it holds before the call. */
  lemma ForkGuardIsExact(m: Mem, v: Vars, t: int)
    requires Inv(m) && VarsOk(m, v) && t in m.dir
    ensures ForkIsSafe(m, v, t) <==> ForkGuard(m, v, t)
  {
    if FreeFrames(m) != [] {
      EnlistIsAlike(m, v);
      if Harmless(m, v, Prev(m.ram, v.tasks)) { LaterGuardIsExact(Enlisted(m, v), v, t); }
    }
  }

  lemma FamilyIsAlike(m: Mem, v: Vars, c: int, t: int)
    requires Inv(m) && VarsOk(m, v) && c in m.own && m.own[c].Pcb?
    requires AllHarmless(m, v, AddTailHits(NewFamily(m.ram, c, t), Member(c, SIBILING), Member(t, CHILDREN_UNBLOCKED)))
    ensures Alike(m, m.(ram := JoinFamily(m.ram, c, t)))
  {
    var ram := NewFamily(m.ram, c, t);
    var hits := AddTailHits(ram, Member(c, SIBILING), Member(t, CHILDREN_UNBLOCKED));
    JoinStaysWithin(m.ram, c, t);
    HarmlessIsAlike(m, v, JoinFamily(m.ram, c, t), FamilyHits(c) + hits);
  }

  lemma DelIsAlike(m: Mem, v: Vars, e: Place)
    requires Inv(m) && VarsOk(m, v) && AllHarmless(m, v, DelHits(m.ram, e))
    ensures Alike(m, m.(ram := Del(m.ram, e))) && Inv(m.(ram := Del(m.ram, e)))
  {
    DelStaysWithin(m.ram, e);
    HarmlessIsAlike(m, v, Del(m.ram, e), DelHits(m.ram, e));
    AlikeKeeps(m, m.(ram := Del(m.ram, e)));
  }

  lemma AddTailIsAlike(m: Mem, v: Vars, n: Place, h: Place)
    requires Inv(m) && VarsOk(m, v) && AllHarmless(m, v, AddTailHits(m.ram, n, h))
    ensures Alike(m, m.(ram := AddTail(m.ram, n, h))) && Inv(m.(ram := AddTail(m.ram, n, h)))
  {
    AddTailStaysWithin(m.ram, n, h);
    HarmlessIsAlike(m, v, AddTail(m.ram, n, h), AddTailHits(m.ram, n, h));
    AlikeKeeps(m, m.(ram := AddTail(m.ram, n, h)));
  }

  lemma ForkBoot(m: Mem, t: int)
    requires Inv(m) && t in m.dir
    ensures Inv(Fork(m, t).0) && Fork(m, t).0.boot == m.boot
    ensures Fork(m, t).1.Child? ==>
      var c := Fork(m, t).1.pcb;
      FreeFrames(m) != [] && c == FreeFrames(m)[0] && c in Fork(m, t).0.own && Fork(m, t).0.own[c].Pcb?
  {
    ForkKeeps(m, t);
    var fs := FreeFrames(m);
    if |fs| >= FRAMES_PER_TASK {
      FreeAffords(m);
      ForkOwns(m, t, LowestGrant(fs), 0);
      ChildOwnersAre(LowestGrant(fs));
    } else if |fs| >= 1 {
      RollbackPages(m, t);
    }
  }

  /**
   * Under its guard, fork with its list operations is fork without them but for harmless words, before it and after it.
   */
  lemma LinkedForkIsFork(m: Mem, v: Vars, t: int)
    requires Inv(m) && VarsOk(m, v) && t in m.dir && FreeFrames(m) != [] && ForkGuard(m, v, t)
    ensures var m1 := Enlisted(m, v);
      && Alike(m, m1) && Inv(m1) && Alike(Fork(m1, t).0, LinkedFork(m, v, t).0)
      && Fork(m1, t).1 == LinkedFork(m, v, t).1
      && Inv(LinkedFork(m, v, t).0)
  {
    var m1 := Enlisted(m, v);
    EnlistIsAlike(m, v);
    LaterGuardIsExact(m1, v, t);
    LaterIsAlike(m1, v, t);
    AlikeKeeps(Fork(m1, t).0, LinkedFork(m, v, t).0);
  }

  lemma LaterIsAlike(m: Mem, v: Vars, t: int)
    requires Inv(m) && VarsOk(m, v) && t in m.dir && FreeFrames(m) != [] && LaterIsSafe(m, v, t)
    ensures var c, m2 := FreeFrames(m)[0], Fork(m, t).0;
      && Inv(m2)
      && Alike(m2, m2.(ram := if Fork(m, t).1.Child? then JoinFamily(m2.ram, c, t)
        else Del(m2.ram, Member(c, TASK_LIST))))
  {
    var c, m2 := FreeFrames(m)[0], Fork(m, t).0;
    ForkBoot(m, t);
    if Fork(m, t).1.Child? { FamilyIsAlike(m2, v, c, t); } else { DelIsAlike(m2, v, Member(c, TASK_LIST)); }
  }

  /** The outcomes of fork, case by case; e is memory after alloc_pcb. */
  lemma LinkedForkCases(m: Mem, v: Vars, t: int, e: Mem)
    requires Sized(m) && t in m.dir && FreeFrames(m) != [] && e == Enlisted(m, v) && FreeFrames(e) == FreeFrames(m)
    ensures FRAMES_PER_TASK <= |FreeFrames(m)| ==>
      var c, m2 := FreeFrames(m)[0], Fork(e, t).0;
      LinkedFork(m, v, t).0 == m2.(ram := JoinFamily(m2.ram, c, t)) && LinkedFork(m, v, t).1 == Child(c)
    ensures |FreeFrames(m)| < FRAMES_PER_TASK ==>
      var c, m2 := FreeFrames(m)[0], Rollback(e, t, FreeFrames(e));
      LinkedFork(m, v, t).0 == m2.(ram := Del(m2.ram, Member(c, TASK_LIST))) && LinkedFork(m, v, t).1 == Failed(EAGAIN)
  {
  }

  // ---------- exit ----------

  /** exit, with the list_del of its free_pcb. */
  function LinkedExit(m: Mem, t: int): Mem
    requires Sized(m) && t in m.dir
  {
    var m1 := Exit(m, t);
    m1.(ram := Del(m1.ram, Member(t, TASK_LIST)))
  }

  ghost predicate ExitIsSafe(m: Mem, v: Vars, t: int)
    requires Sized(m) && t in m.dir
  {
    AllHarmless(Exit(m, t), v, DelHits(Exit(m, t).ram, Member(t, TASK_LIST)))
  }

  /** A shared page that goes with t: it is marked, and t alone maps it. */
  ghost predicate GoesWith(m: Mem, t: int, f: int)
    requires Sized(m)
  {
    exists id :: 0 <= id < NUM_SHARED_PAGES && m.shFrame[id] == f && m.shMark[id] == 1 && forall p ::
      p in Mappings(m, f) ==> p.0 == t
  }

  /** Before the call: the place is harmless, or its frame is one that this exit gives back. */
  ghost predicate HarmlessOnceGone(m: Mem, v: Vars, t: int, p: Place)
    requires Sized(m) && t in m.dir
  {
    Harmless(m, v, p) || p.frame in TaskFrameList(m, t) || GoesWith(m, t, p.frame)
  }

  /** The neighbours of the caller in list_tasks are where it does no harm. */
  ghost predicate ExitGuard(m: Mem, v: Vars, t: int)
    requires Sized(m) && t in m.dir
  {
    && HarmlessOnceGone(m, v, t, Plus(Next(m.ram, Member(t, TASK_LIST)), 1))
    && HarmlessOnceGone(m, v, t, Prev(m.ram, Member(t, TASK_LIST)))
  }

  lemma UnmapKeepsPage(m: Mem, t: int, i: int, id: int, f: int)
    requires Inv(m) && 0 <= id < NUM_SHARED_PAGES && MapsFrame(m, t, i, m.shFrame[id]) && !HoldsMemory(m, f)
    ensures PageAt(Unmap(m, t, i, id), f) == PageAt(m, f) && !HoldsMemory(Unmap(m, t, i, id), f)
  {
    TaskFrames(m, t);
    assert SharedOk(m, id);
    SharedFrames(m, id);
  }

  lemma {:induction false} DetachKeepsPage(m: Mem, t: int, i: int, f: int)
    requires Inv(m) && t in m.dir && FIRST_SHARED <= i <= PT_ENTRIES && !HoldsMemory(m, f)
    ensures PageAt(DetachFrom(m, t, i), f) == PageAt(m, f) && !HoldsMemory(DetachFrom(m, t, i), f)
    decreases PT_ENTRIES - i
  {
    if i < PT_ENTRIES {
      DetachOne(m, t, i);
      var id := FindShared(m.shFrame, Tab(m, t)[i].base);
      var m1 := if Tab(m, t)[i].present && id != -1 then Unmap(m, t, i, id) else m;
      if Tab(m, t)[i].present && id != -1 { UnmapKeepsPage(m, t, i, id, f); }
      DetachKeepsPage(m1, t, i + 1, f);
    }
  }

  /** Exit writes only frames that hold memory: no PCB, no free frame. */
  lemma ExitKeepsPage(m: Mem, t: int, f: int)
    requires Inv(m) && t in m.dir && !HoldsMemory(m, f)
    ensures PageAt(Exit(m, t), f) == PageAt(m, f)
  {
    DetachKeeps(m, t, FIRST_SHARED);
    DetachKeepsPage(m, t, FIRST_SHARED, f);
    TaskFrames(DetachFrom(m, t, FIRST_SHARED), t);
  }

  /** Other tasks keep their tables, so a shared page keeps the mappings that are not t's. */
  lemma ExitTables(m: Mem, t: int)
    requires Inv(m) && t in m.dir
    ensures var m' := Exit(m, t);
      && m'.dir == m.dir - {t} && m'.boot == m.boot
      && (forall s :: s in m'.dir ==> TableFrame(m', s) == TableFrame(m, s) && Tab(m', s) == Tab(m, s))
    ensures TaskFrameList(DetachFrom(m, t, FIRST_SHARED), t) == TaskFrameList(m, t)
  {
    DetachKeeps(m, t, FIRST_SHARED);
    TearDownTables(DetachFrom(m, t, FIRST_SHARED), t);
    assert DataFrames(Tab(DetachFrom(m, t, FIRST_SHARED), t)) == DataFrames(Tab(m, t));
  }

  lemma ExitMappings(m: Mem, t: int, f: int)
    requires Inv(m) && t in m.dir
    ensures Mappings(Exit(m, t), f) == {} <==> forall p :: p in Mappings(m, f) ==> p.0 == t
  {
    var m' := Exit(m, t);
    ExitTables(m, t);
    forall s, i ensures (s, i) in Mappings(m', f) <==> (s, i) in Mappings(m, f) && s != t {
      assert MapsFrame(m', s, i, f) <==> MapsFrame(m, s, i, f) && s != t;
    }
    if p :| p in Mappings(m, f) && p.0 != t { assert (p.0, p.1) in Mappings(m', f); }
  }

  lemma ExitKeepsShared(m: Mem, t: int, f: int)
    requires Inv(m) && t in m.dir && f in m.own && m.own[f].Shared?
    ensures f in Exit(m, t).own <==> !GoesWith(m, t, f)
    ensures f in Exit(m, t).own ==> Exit(m, t).own[f] == m.own[f]
  {
    var m', id := Exit(m, t), m.own[f].id;
    assert Claim(m, Shared(id), f);
    ExitKeeps(m, t);
    RemovalIsExact(m, OpExit(t), id);
    ExitMappings(m, t, f);
    if GoesWith(m, t, f) {
      var k :| 0 <= k < NUM_SHARED_PAGES && m.shFrame[k] == f && m.shMark[k] == 1;
      SharedDistinct(m, k, id);
    }
    if m'.shFrame[id] == f { SharedFrames(m', id); }
  }

  lemma ExitOwner(m: Mem, t: int, f: int)
    requires Inv(m) && t in m.dir
    ensures f in Exit(m, t).own <==> f in m.own && f !in TaskFrameList(m, t) && !GoesWith(m, t, f)
    ensures f in Exit(m, t).own ==> Exit(m, t).own[f] == m.own[f]
  {
    var m' := Exit(m, t);
    ExitKeeps(m, t);
    ExitTables(m, t);
    InTaskFrames(m, t, f);
    if f !in m.own {
      DetachEvolves(m, t, FIRST_SHARED, 0);
      DetachKeeps(m, t, FIRST_SHARED);
      TearDownEvolves(DetachFrom(m, t, FIRST_SHARED), t, 0);
    } else if m.own[f].Shared? {
      ExitKeepsShared(m, t, f);
    } else {
      ExitKeepsPrivate(m, t, f);
      if GoesWith(m, t, f) {
        var k :| 0 <= k < NUM_SHARED_PAGES && m.shFrame[k] == f;
        assert SharedOk(m, k);
        SharedFrames(m, k);
        assert false;
      }
    }
  }

  lemma ExitKeepsPrivate(m: Mem, t: int, f: int)
    requires Inv(m) && t in m.dir && f in m.own && !m.own[f].Shared?
    ensures f in Exit(m, t).own <==> f !in TaskFrameList(m, t)
    ensures f in Exit(m, t).own ==> Exit(m, t).own[f] == m.own[f]
  {
    var m', o := Exit(m, t), m.own[f];
    ExitKeeps(m, t);
    ExitTables(m, t);
    InTaskFrames(m, t, f);
    assert Claim(m, o, f);
    if o == Leaked {
      ExitBalance(m, t);
      assert f in LeakedFrames(m');
    } else if f in TaskFrameList(m, t) {
      assert f !in m'.own;
    } else {
      assert Claim(m', o, f);
    }
  }

  lemma HarmlessAfterExit(m: Mem, v: Vars, t: int, p: Place)
    requires Inv(m) && t in m.dir
    ensures Harmless(Exit(m, t), v, p) <==> HarmlessOnceGone(m, v, t, p)
  {
    var f := p.frame as int;
    ExitOwner(m, t, f);
    ExitTables(m, t);
    if f in TaskFrameList(m, t) { InTaskFrames(m, t, f); UsedIsAboveKernel(m, f); }
    if GoesWith(m, t, f) {
      var k :| 0 <= k < NUM_SHARED_PAGES && m.shFrame[k] == f;
      assert SharedOk(m, k);
      SharedFrames(m, k);
      UsedIsAboveKernel(m, f);
    }
  }

  lemma UsedIsAboveKernel(m: Mem, f: int)
    requires Core(m) && f in m.own && m.own[f] != Pinned
    ensures m.boot.lastKernel <= f < TOTAL_PAGES
  {
  }

  /** The guard is exact: the list_del of exit's free_pcb is harmless if and only if it holds before the call. */
  lemma ExitGuardIsExact(m: Mem, v: Vars, t: int)
    requires Inv(m) && t in m.dir
    ensures ExitIsSafe(m, v, t) <==> ExitGuard(m, v, t)
  {
    var node := Member(t, TASK_LIST);
    ExitKeepsLinks(m, t);
    HarmlessAfterExit(m, v, t, node);
    HarmlessAfterExit(m, v, t, Plus(node, 1));
    HarmlessAfterExit(m, v, t, Plus(Next(m.ram, node), 1));
    HarmlessAfterExit(m, v, t, Prev(m.ram, node));
  }

  lemma ExitKeepsLinks(m: Mem, t: int)
    requires Inv(m) && t in m.dir
    ensures var node := Member(t, TASK_LIST);
      && DelHits(Exit(m, t).ram, node) == DelHits(m.ram, node)
      && node.frame in TaskFrameList(m, t) && Plus(node, 1).frame in TaskFrameList(m, t)
  {
    var ram, node := Exit(m, t).ram, Member(t, TASK_LIST);
    TaskFrames(m, t);
    ExitKeepsPage(m, t, t);
    MemberOf(m, t, TASK_LIST);
    assert TaskFrameList(m, t)[0] == t;
    assert WordAt(ram, node) == WordAt(m.ram, node) && WordAt(ram, Plus(node, 1)) == WordAt(m.ram, Plus(node, 1));
  }

  // ---------- the other calls ----------

  /** The calls on shared pages, stores and copies write only frames that hold memory. */
  lemma StepKeepsPage(m: Mem, op: MemOp, f: int)
    requires Inv(m) && !op.OpFork? && !op.OpExit? && !HoldsMemory(m, f)
    ensures PageAt(Step(m, op), f) == PageAt(m, f)
  {
    if op.task in m.dir {
      TaskFrames(m, op.task);
      match op
      case OpShmat(t, id, addr) => if 0 <= id < NUM_SHARED_PAGES { ShmatKeepsPage(m, t, id, addr, f); }
      case OpShmdt(t, addr) => ShmdtKeepsPage(m, t, addr, f);
      case OpShmrm(_, id) => if 0 <= id < NUM_SHARED_PAGES && m.shFrame[id] >= 0 { SharedFrames(m, id); }
      case OpStore(t, i, offset, w) =>
        if 0 <= i < PT_ENTRIES && 0 <= offset < PT_ENTRIES {
          StoreKeeps(m, t, i, offset, w);
          CopyOutKeepsPage(m, t, i, offset, w, f);
        }
      case OpCopyOut(t, i, offset, w) =>
        if 0 <= i <= LAST_WRITABLE && 0 <= offset < PT_ENTRIES { CopyOutKeepsPage(m, t, i, offset, w, f); }
    }
  }

  lemma ShmatKeepsPage(m: Mem, t: int, id: int, addr: Uint32, f: int)
    requires Inv(m) && t in m.dir && 0 <= id < NUM_SHARED_PAGES && !HoldsMemory(m, f)
    ensures PageAt(Shmat(m, t, id, addr).0, f) == PageAt(m, f)
  {
    TaskFrames(m, t);
    ProvideKeeps(m, id);
  }

  lemma ShmdtKeepsPage(m: Mem, t: int, addr: Uint32, f: int)
    requires Inv(m) && t in m.dir && !HoldsMemory(m, f)
    ensures PageAt(Shmdt(m, t, addr).0, f) == PageAt(m, f)
  {
    var i := TableIndex(addr);
    if addr % 4096 == 0 && FIRST_SHARED <= i < PT_ENTRIES && Tab(m, t)[i].present {
      var id := FindShared(m.shFrame, Tab(m, t)[i].base);
      if id != -1 { UnmapKeepsPage(m, t, i, id, f); }
    }
  }

  lemma CopyOutKeepsPage(m: Mem, t: int, i: int, offset: int, w: Word, f: int)
    requires Inv(m) && t in m.dir && 0 <= i < PT_ENTRIES && 0 <= offset < PT_ENTRIES && !HoldsMemory(m, f)
    ensures PageAt(CopyOut(m, t, i, offset, w), f) == PageAt(m, f)
  {
    if Tab(m, t)[i].present { UserFrame(m, t, i); }
  }

  /** The page to be attached has no frame yet. */
  predicate TakesFrame(m: Mem, id: int)
    requires Sized(m)
  {
    0 <= id < NUM_SHARED_PAGES && m.shMark[id] != 1 && m.shFrame[id] < 0
  }

  /** An attach that fails changes something if and only if the page had no frame and there was one: it has taken it. */
  lemma FailedAttachTakes(m: Mem, t: int, id: int, addr: Uint32)
    requires Inv(m) && t in m.dir && Shmat(m, t, id, addr).1 < 0
    ensures var m' := Shmat(m, t, id, addr).0;
      && (m' != m <==> TakesFrame(m, id) && NextFree(m) != -1)
      && (m' != m ==> m'.own == m.own[NextFree(m) := Shared(id)] && m'.shFrame == m.shFrame[id := NextFree(m)])
  {
    if 0 <= id < NUM_SHARED_PAGES { assert SharedOk(m, id); }
    if FreeFrames(m) != [] { assert FreeFrames(m)[0] in FreeFrames(m); }
  }

  /** Only such a shmat takes a frame, the lowest free one. */
  lemma StepTakes(m: Mem, op: MemOp, f: int)
    requires Inv(m) && !op.OpFork? && !op.OpExit? && f !in m.own
    requires (op.OpShmat? && TakesFrame(m, op.id) ==> f != NextFree(m))
    ensures f !in Step(m, op).own
  {
    if op.task in m.dir {
      match op
      case OpShmat(t, id, addr) => if 0 <= id < NUM_SHARED_PAGES { ShmatTakes(m, t, id, addr, f); }
      case OpShmdt(t, addr) => ShmdtTakes(m, t, addr, f);
      case OpShmrm(_, id) => if 0 <= id < NUM_SHARED_PAGES && m.shFrame[id] >= 0 { SharedFrames(m, id); }
      case OpStore(t, i, offset, w) =>
      case OpCopyOut(t, i, offset, w) =>
    }
  }

  lemma ShmatTakes(m: Mem, t: int, id: int, addr: Uint32, f: int)
    requires Inv(m) && t in m.dir && 0 <= id < NUM_SHARED_PAGES && f !in m.own
    requires (TakesFrame(m, id) ==> f != NextFree(m))
    ensures f !in Shmat(m, t, id, addr).0.own
  {
    ProvideKeeps(m, id);
  }

  lemma ShmdtTakes(m: Mem, t: int, addr: Uint32, f: int)
    requires Inv(m) && t in m.dir && f !in m.own
    ensures f !in Shmdt(m, t, addr).0.own
  {
    var i := TableIndex(addr);
    if addr % 4096 == 0 && FIRST_SHARED <= i < PT_ENTRIES && Tab(m, t)[i].present {
      var id := FindShared(m.shFrame, Tab(m, t)[i].base);
      if id != -1 { UnmapEvolves(m, t, i, id, 0); }
    }
  }
}
