/**
 * What ownership and reference counts need of the words that list operations write: that no user table changes. This is
 * less than LinkedRuns asks for, where no byte that a task sees may change either.
 */
module TableSafety {
  import opened Machine
  import opened Memory
  import opened MemoryInvariant
  import opened TaskLife
  import opened MemoryTheorems
  import opened PcbLists
  import opened LinkedMemory

  // ---------- list words and tables ----------

  /** Every user table is where it was, with the entries it had. */
  ghost predicate SameTables(m: Mem, m': Mem) {
    forall s :: s in m.dir ==> s in m'.dir && TableFrame(m', s) == TableFrame(m, s) && Tab(m', s) == Tab(m, s)
  }

  /** Words that are different are no present entries: list operations write pointers only. */
  ghost predicate OnlyAbsent(ram: seq<Page>, ram': seq<Page>) {
    |ram'| == |ram| && forall p: Place :: WordAt(ram', p) == WordAt(ram, p) || !WordAt(ram', p).present
  }

  lemma FramesAreForced(m: Mem, m': Mem, s: int)
    requires Inv(m) && Inv(m') && m' == m.(ram := m'.ram) && s in m.dir
    ensures TableFrame(m', s) == TableFrame(m, s)
  {
    TaskFrames(m', s);
    assert Claim(m, Table(s), TableFrame(m', s));
  }

  lemma EntryWord(m: Mem, s: int, i: int)
    requires Core(m) && s in m.dir && 0 <= i < PT_ENTRIES
    ensures 0 <= TableFrame(m, s) < TOTAL_PAGES && WordAt(m.ram, Place(TableFrame(m, s), i)) == Tab(m, s)[i]
  {
    TaskFrames(m, s);
  }

  lemma FewerMappings(m: Mem, m': Mem, f: int)
    requires Inv(m) && m' == m.(ram := m'.ram) && OnlyAbsent(m.ram, m'.ram)
    requires forall s :: s in m.dir ==> TableFrame(m', s) == TableFrame(m, s)
    ensures Mappings(m', f) <= Mappings(m, f)
  {
    forall u, j | (u, j) in Mappings(m', f) ensures (u, j) in Mappings(m, f) {
      EntryWord(m, u, j);
      assert WordAt(m'.ram, Place(TableFrame(m, u), j)) == Tab(m', u)[j];
    }
  }

  lemma EntriesAreForced(m: Mem, m': Mem, s: int, i: int)
    requires Inv(m) && Inv(m') && m' == m.(ram := m'.ram) && OnlyAbsent(m.ram, m'.ram) && s in m.dir
    requires 0 <= i < PT_ENTRIES
    ensures Tab(m', s)[i] == Tab(m, s)[i]
  {
    FramesAreForced(m, m', s);
    EntryWord(m, s, i);
    EntryWord(m', s, i);
    if Tab(m', s)[i] != Tab(m, s)[i] {
      assert TableOk(m', Tab(m', s)) && TableOk(m, Tab(m, s));
      forall u | u in m.dir ensures TableFrame(m', u) == TableFrame(m, u) { FramesAreForced(m, m', u); }
      LostMapping(m, m', s, i);
    }
  }

  lemma LostMapping(m: Mem, m': Mem, s: int, i: int)
    requires Inv(m) && m' == m.(ram := m'.ram) && OnlyAbsent(m.ram, m'.ram) && s in m.dir
    requires forall u :: u in m.dir ==> TableFrame(m', u) == TableFrame(m, u)
    requires FIRST_SHARED <= i < PT_ENTRIES && Tab(m', s)[i] == ZERO_WORD && Tab(m, s)[i].present
    requires SharedEntry(m.shFrame, Tab(m, s)[i])
    ensures !Inv(m')
  {
    var f := Tab(m, s)[i].base as int;
    var id :| 0 <= id < NUM_SHARED_PAGES && m.shFrame[id] == f;
    FewerMappings(m, m', f);
    assert SharedOk(m, id);
    assert (s, i) in Mappings(m, f) && (s, i) !in Mappings(m', f);
    assert Mappings(m', f) <= Mappings(m, f) - {(s, i)};
    SubsetSize(Mappings(m', f), Mappings(m, f) - {(s, i)});
    assert !SharedOk(m', id);
  }

  lemma {:induction false} SubsetSize<T>(a: set<T>, b: set<T>)
    requires a <= b
    ensures |a| <= |b|
    decreases a
  {
    if a != {} {
      var x :| x in a;
      SubsetSize(a - {x}, b - {x});
    }
  }

  /** After list writes the invariant of memory holds if and only if no user table has changed. */
  lemma TablesExact(m: Mem, m': Mem)
    requires Inv(m) && m' == m.(ram := m'.ram) && OnlyAbsent(m.ram, m'.ram)
    ensures Inv(m') <==> SameTables(m, m')
  {
    if SameTables(m, m') { TablesKeep(m, m'); }
    if Inv(m') {
      forall s | s in m.dir ensures TableFrame(m', s) == TableFrame(m, s) && Tab(m', s) == Tab(m, s) {
        FramesAreForced(m, m', s);
        forall i | 0 <= i < PT_ENTRIES ensures Tab(m', s)[i] == Tab(m, s)[i] { EntriesAreForced(m, m', s, i); }
      }
    }
  }

  // ---------- list operations write no present entries ----------

  lemma PutAbsent(ram0: seq<Page>, ram: seq<Page>, p: Place, w: Word)
    requires OnlyAbsent(ram0, ram) && !w.present
    ensures OnlyAbsent(ram0, Put(ram, p, w))
  {
    forall q: Place ensures WordAt(Put(ram, p, w), q) == WordAt(ram0, q) || !WordAt(Put(ram, p, w), q).present {
      WordAfterPut(ram, p, w, q);
    }
  }

  lemma AddTailAbsent(ram0: seq<Page>, ram: seq<Page>, n: Place, h: Place)
    requires OnlyAbsent(ram0, ram)
    ensures OnlyAbsent(ram0, AddTail(ram, n, h))
  {
    var last := Prev(ram, h);
    var ram1 := Put(ram, Plus(h, 1), Pointer(n));
    var ram2 := Put(ram1, n, Pointer(h));
    var ram3 := Put(ram2, Plus(n, 1), Pointer(last));
    PutAbsent(ram0, ram, Plus(h, 1), Pointer(n));
    PutAbsent(ram0, ram1, n, Pointer(h));
    PutAbsent(ram0, ram2, Plus(n, 1), Pointer(last));
    PutAbsent(ram0, ram3, last, Pointer(n));
  }

  lemma DelAbsent(ram0: seq<Page>, ram: seq<Page>, e: Place)
    requires OnlyAbsent(ram0, ram)
    ensures OnlyAbsent(ram0, Del(ram, e))
  {
    var next, prev := Next(ram, e), Prev(ram, e);
    var ram1 := Put(ram, Plus(next, 1), Pointer(prev));
    var ram2 := Put(ram1, prev, Pointer(next));
    var ram3 := Put(ram2, e, ZERO_WORD);
    PutAbsent(ram0, ram, Plus(next, 1), Pointer(prev));
    PutAbsent(ram0, ram1, prev, Pointer(next));
    PutAbsent(ram0, ram2, e, ZERO_WORD);
    PutAbsent(ram0, ram3, Plus(e, 1), ZERO_WORD);
  }

  lemma InitAbsent(ram0: seq<Page>, ram: seq<Page>, h: Place)
    requires OnlyAbsent(ram0, ram)
    ensures OnlyAbsent(ram0, InitHead(ram, h))
  {
    PutAbsent(ram0, ram, h, Pointer(h));
    PutAbsent(ram0, Put(ram, h, Pointer(h)), Plus(h, 1), Pointer(h));
  }

  lemma EnlistAbsent(ram: seq<Page>, c: int, tasks: Place)
    ensures OnlyAbsent(ram, Enlist(ram, c, tasks))
  {
    InitAbsent(ram, ram, Member(c, TASK_LIST));
    AddTailAbsent(ram, InitHead(ram, Member(c, TASK_LIST)), Member(c, TASK_LIST), tasks);
  }

  lemma JoinAbsent(ram: seq<Page>, c: int, t: int)
    ensures OnlyAbsent(ram, JoinFamily(ram, c, t))
  {
    var ram1 := Put(ram, Member(c, PARENT), Pointer(Member(t, 0)));
    var ram2 := InitHead(ram1, Member(c, CHILDREN_BLOCKED));
    PutAbsent(ram, ram, Member(c, PARENT), Pointer(Member(t, 0)));
    InitAbsent(ram, ram1, Member(c, CHILDREN_BLOCKED));
    InitAbsent(ram, ram2, Member(c, CHILDREN_UNBLOCKED));
    AddTailAbsent(ram, NewFamily(ram, c, t), Member(c, SIBILING), Member(t, CHILDREN_UNBLOCKED));
    PutAbsent(ram, LinkChild(ram, c, t), Member(c, PENDING_UNBLOCKS), ZERO_WORD);
  }

  // ---------- one pointer among them ----------

  /** A word of a live task's user table, or the word of its directory that leads there. */
  ghost predicate TablePlace(m: Mem, p: Place) {
    exists s :: s in m.dir && (p.frame == TableFrame(m, s) || (p.frame == m.dir[s] && p.index == 2))
  }

  lemma TablePlaceIsOwned(m: Mem, p: Place)
    requires Core(m) && TablePlace(m, p)
    ensures p.frame in m.own && (m.own[p.frame].Table? || m.own[p.frame].Dir?) && p.frame < TOTAL_PAGES
  {
    var s :| s in m.dir && (p.frame == TableFrame(m, s) || (p.frame == m.dir[s] && p.index == 2));
    TaskFrames(m, s);
  }

  lemma NoTablePlace(m: Mem, p: Place)
    requires Core(m) && (p.frame !in m.own || (!m.own[p.frame].Table? && !m.own[p.frame].Dir?))
    ensures !TablePlace(m, p)
  {
    if TablePlace(m, p) { TablePlaceIsOwned(m, p); }
  }

  lemma SparedTable(m: Mem, m': Mem, hits: set<Place>, s: int)
    requires Core(m) && m' == m.(ram := m'.ram) && Within(m.ram, m'.ram, hits) && s in m.dir
    requires forall q :: q in hits ==> !TablePlace(m, q)
    ensures TableFrame(m', s) == TableFrame(m, s) && Tab(m', s) == Tab(m, s)
  {
    TaskFrames(m, s);
    var d, u := m.dir[s], TableFrame(m, s);
    assert TablePlace(m, Place(d, 2));
    assert WordAt(m'.ram, Place(d, 2)) == WordAt(m.ram, Place(d, 2));
    forall i | 0 <= i < PT_ENTRIES ensures Tab(m', s)[i] == Tab(m, s)[i] {
      assert TablePlace(m, Place(u, i));
      assert WordAt(m'.ram, Place(u, i)) == WordAt(m.ram, Place(u, i));
    }
  }

  /** Of the words written, only p may be one of a table, and what is written there is the address of a PCB's word. */
  lemma OnePointer(m: Mem, m': Mem, hits: set<Place>, p: Place, x: Place)
    requires Inv(m) && m' == m.(ram := m'.ram) && Within(m.ram, m'.ram, hits)
    requires forall q :: q in hits ==> q == p || !TablePlace(m, q)
    requires p.frame < TOTAL_PAGES ==> WordAt(m'.ram, p) == Pointer(x)
    requires x != NULL && forall s :: s in m.dir ==> TableFrame(m, s) != x.frame
    ensures SameTables(m, m') <==> !TablePlace(m, p)
  {
    if TablePlace(m, p) {
      TablePlaceIsOwned(m, p);
      var s :| s in m.dir && (p.frame == TableFrame(m, s) || (p.frame == m.dir[s] && p.index == 2));
      TaskFrames(m, s);
      PointerBack(x);
      assert TableOk(m, Tab(m, s));
      if p.frame == TableFrame(m, s) && TableFrame(m', s) == TableFrame(m, s) {
        assert Tab(m', s)[p.index] == Pointer(x);
        NeverAPointer(m, Tab(m, s), p.index, x);
      }
    } else {
      forall s | s in m.dir ensures TableFrame(m', s) == TableFrame(m, s) && Tab(m', s) == Tab(m, s) {
        SparedTable(m, m', hits, s);
      }
    }
  }

  lemma NeverAPointer(m: Mem, tab: Page, i: int, x: Place)
    requires Sized(m) && TableOk(m, tab) && 0 <= i < PT_ENTRIES && x != NULL
    ensures tab[i] != Pointer(x)
  {
    PointerBack(x);
  }

  // ---------- fork ----------

  /** Fork without looking at what else than tables it writes: the invariant holds after each of its list operations. */
  ghost predicate ForkKeepsInv(m: Mem, v: Vars, t: int)
    requires Sized(m) && t in m.dir
  {
    FreeFrames(m) != [] ==> Inv(Enlisted(m, v)) && Inv(LinkedFork(m, v, t).0)
  }

  /**
   * After alloc_pcb: with 23 free frames, the caller's last unblocked child is in no table, nor in the frame that
   * becomes one; with fewer, unlinking the caller would change none.
   */
  ghost predicate LaterTableGuard(m: Mem, v: Vars, t: int)
    requires Sized(m) && FreeFrames(m) != []
  {
    var fs := FreeFrames(m);
    if |fs| >= FRAMES_PER_TASK then
      var last := Prev(m.ram, Member(t, CHILDREN_UNBLOCKED));
      !TablePlace(m, last) && last.frame != fs[2] && last != Place(ToFrame(fs[1]), 2)
    else
      SameTables(m, m.(ram := Del(m.ram, Member(t, TASK_LIST))))
  }

  /** Before the call: the last node of list_tasks is in no table, and LaterTableGuard. */
  ghost predicate ForkTableGuard(m: Mem, v: Vars, t: int)
    requires Sized(m) && t in m.dir
  {
    FreeFrames(m) != [] ==> !TablePlace(m, Prev(m.ram, v.tasks)) && LaterTableGuard(Enlisted(m, v), v, t)
  }

  lemma EnlistKeepsTables(m: Mem, v: Vars)
    requires Inv(m) && VarsOk(m, v) && FreeFrames(m) != []
    ensures Inv(Enlisted(m, v)) <==> !TablePlace(m, Prev(m.ram, v.tasks))
    ensures Inv(Enlisted(m, v)) ==> SameTables(m, Enlisted(m, v))
  {
    var c := FreeFrames(m)[0];
    var n, last, e := Member(c, TASK_LIST), Prev(m.ram, v.tasks), Enlisted(m, v);
    var ram1, hits := InitHead(m.ram, n), AddTailHits(InitHead(m.ram, n), n, v.tasks);
    assert c in FreeFrames(m);
    KernelWords(m, v);
    MemberOf(m, c, TASK_LIST);
    InitStaysWithin(m.ram, n);
    AddTailStaysWithin(ram1, n, v.tasks);
    WithinChains(m.ram, ram1, e.ram, {n, Plus(n, 1)}, hits);
    assert WordAt(ram1, Plus(v.tasks, 1)) == WordAt(m.ram, Plus(v.tasks, 1));
    NoTablePlace(m, n);
    NoTablePlace(m, Plus(n, 1));
    NoTablePlace(m, Plus(v.tasks, 1));
    EnlistedLast(m, v, c);
    EnlistAbsent(m.ram, c, v.tasks);
    forall s | s in m.dir ensures TableFrame(m, s) != c { TaskFrames(m, s); }
    OnePointer(m, e, {n, Plus(n, 1)} + hits, last, n);
    TablesExact(m, e);
  }

  lemma EnlistedLast(m: Mem, v: Vars, c: int)
    requires Inv(m) && VarsOk(m, v) && FreeFrames(m) != [] && c == FreeFrames(m)[0]
    ensures var last := Prev(m.ram, v.tasks);
      last.frame < TOTAL_PAGES ==> WordAt(Enlisted(m, v).ram, last) == Pointer(Member(c, TASK_LIST))
    ensures Member(c, TASK_LIST) != NULL
  {
    var n := Member(c, TASK_LIST);
    var ram1 := InitHead(m.ram, n);
    InitStaysWithin(m.ram, n);
    KernelWords(m, v);
    assert c in FreeFrames(m);
    MemberOf(m, c, TASK_LIST);
    assert Prev(ram1, v.tasks) == Prev(m.ram, v.tasks);
    LastIsWritten(ram1, n, v.tasks);
  }

  /** The last of the four writes of list_add_tail is to the node that was last. */
  lemma LastIsWritten(ram: seq<Page>, n: Place, h: Place)
    ensures Prev(ram, h).frame < |ram| ==> WordAt(AddTail(ram, n, h), Prev(ram, h)) == Pointer(n)
  {
  }

  // ---------- the child joins its parent's list ----------

  lemma JoinedLast(m: Mem, c: int, t: int)
    requires Inv(m) && c in m.dir && t in m.dir && c != t
    ensures var last := Prev(m.ram, Member(t, CHILDREN_UNBLOCKED));
      && Prev(NewFamily(m.ram, c, t), Member(t, CHILDREN_UNBLOCKED)) == last
      && (TablePlace(m, last) ==> WordAt(JoinFamily(m.ram, c, t), last) == Pointer(Member(c, SIBILING)))
    ensures Member(c, SIBILING) != NULL
  {
    var head, last := Member(t, CHILDREN_UNBLOCKED), Prev(m.ram, Member(t, CHILDREN_UNBLOCKED));
    TaskFrames(m, t);
    TaskFrames(m, c);
    MemberOf(m, t, CHILDREN_UNBLOCKED);
    NewFamilyReads(m.ram, c, t, Plus(head, 1));
    if TablePlace(m, last) {
      TablePlaceIsOwned(m, last);
      LastIsWritten(NewFamily(m.ram, c, t), Member(c, SIBILING), head);
      JoinIsLink(m.ram, c, t, last);
    }
  }

  /** Once the child is there, its sibling's list_add_tail changes a table if and only if the last child was in one. */
  lemma JoinKeepsTables(m: Mem, c: int, t: int)
    requires Inv(m) && c in m.dir && t in m.dir && c != t
    ensures Inv(m.(ram := JoinFamily(m.ram, c, t))) <==> !TablePlace(m, Prev(m.ram, Member(t, CHILDREN_UNBLOCKED)))
  {
    var head, node := Member(t, CHILDREN_UNBLOCKED), Member(c, SIBILING);
    var last, m' := Prev(m.ram, head), m.(ram := JoinFamily(m.ram, c, t));
    var hits := FamilyHits(c) + AddTailHits(NewFamily(m.ram, c, t), node, head);
    JoinedLast(m, c, t);
    JoinStaysWithin(m.ram, c, t);
    JoinAbsent(m.ram, c, t);
    JoinHitsArePcbs(m, c, t, last);
    forall s | s in m.dir ensures TableFrame(m, s) != c { TaskFrames(m, s); TaskFrames(m, c); }
    if TablePlace(m, last) || last.frame >= TOTAL_PAGES {
      OnePointer(m, m', hits, last, node);
    } else {
      forall s | s in m.dir ensures TableFrame(m', s) == TableFrame(m, s) && Tab(m', s) == Tab(m, s) {
        SparedTable(m, m', hits, s);
      }
    }
    TablesExact(m, m');
  }

  lemma JoinHitsArePcbs(m: Mem, c: int, t: int, last: Place)
    requires Inv(m) && c in m.dir && t in m.dir && c != t
    requires Prev(NewFamily(m.ram, c, t), Member(t, CHILDREN_UNBLOCKED)) == last
    ensures forall q ::
      q in FamilyHits(c) + AddTailHits(NewFamily(m.ram, c, t), Member(c, SIBILING), Member(t, CHILDREN_UNBLOCKED)) ==>
        q == last || !TablePlace(m, q)
  {
    TaskFrames(m, t);
    TaskFrames(m, c);
    MemberOf(m, t, CHILDREN_UNBLOCKED);
    MemberOf(m, c, SIBILING);
    MemberOf(m, c, CHILDREN_BLOCKED);
    MemberOf(m, c, CHILDREN_UNBLOCKED);
    forall q |
      q in FamilyHits(c) + AddTailHits(NewFamily(m.ram, c, t), Member(c, SIBILING), Member(t, CHILDREN_UNBLOCKED))
      && q != last
      ensures !TablePlace(m, q)
    {
      assert q.frame == c || q.frame == t;
      NoTablePlace(m, q);
    }
  }

  /** Owners say where directories and tables are. */
  lemma OwnedTable(m: Mem, s: int, d: int, u: int)
    requires Core(m) && d in m.own && m.own[d] == Dir(s) && u in m.own && m.own[u] == Table(s)
    ensures s in m.dir && m.dir[s] == d && TableFrame(m, s) == u
  {
    assert Claim(m, Dir(s), d) && Claim(m, Table(s), u);
  }

  lemma ForkedOwners(m: Mem, t: int, m': Mem)
    requires Inv(m) && t in m.dir && FRAMES_PER_TASK <= |FreeFrames(m)| && m' == Fork(m, t).0
    ensures Inv(m') && m'.boot == m.boot && forall f :: f in m.own ==> f in m'.own && m'.own[f] == m.own[f]
    ensures var fs := FreeFrames(m);
      && m'.dir.Keys == m.dir.Keys + {fs[0]} && fs[0] !in m.dir
      && fs[1] in m'.own && m'.own[fs[1]] == Dir(fs[0]) && fs[2] in m'.own && m'.own[fs[2]] == Table(fs[0])
  {
    var g := LowestGrant(FreeFrames(m));
    FreeAffords(m);
    ForkKeeps(m, t);
    ForkTasks(m, t);
    ForkOwns(m, t, g, t);
    ChildOwnersAre(g);
    forall f | f in m.own ensures f in m'.own && m'.own[f] == m.own[f] { ForkAdds(m, t, m', f); }
  }

  /** The tables after a fork are those before it and the child's, which is in the third frame taken. */
  lemma ForkedTablePlaces(m: Mem, t: int, p: Place)
    requires Inv(m) && t in m.dir && FRAMES_PER_TASK <= |FreeFrames(m)|
    ensures var m', fs := Fork(m, t).0, FreeFrames(m);
      TablePlace(m', p) <==> TablePlace(m, p) || p.frame == fs[2] || p == Place(ToFrame(fs[1]), 2)
  {
    var m', fs := Fork(m, t).0, FreeFrames(m);
    ForkedOwners(m, t, m');
    assert fs[1] in fs;
    OwnedTable(m', fs[0], fs[1], fs[2]);
    forall s | s in m.dir ensures m'.dir[s] == m.dir[s] && TableFrame(m', s) == TableFrame(m, s) {
      TaskFrames(m, s);
      OwnedTable(m', s, m.dir[s], TableFrame(m, s));
    }
    SameTablePlaces(m, m', fs[0], p);
  }

  lemma SameTablePlaces(m: Mem, m': Mem, c: int, p: Place)
    requires m'.dir.Keys == m.dir.Keys + {c} && c !in m.dir
    requires forall s :: s in m.dir ==> m'.dir[s] == m.dir[s] && TableFrame(m', s) == TableFrame(m, s)
    ensures TablePlace(m', p) <==>
      TablePlace(m, p) || p.frame == TableFrame(m', c) || (p.frame == m'.dir[c] && p.index == 2)
  {
    if s :| s in m.dir && (p.frame == TableFrame(m, s) || (p.frame == m.dir[s] && p.index == 2)) {
      assert s in m'.dir && (p.frame == TableFrame(m', s) || (p.frame == m'.dir[s] && p.index == 2));
    }
  }

  // ---------- list_del in free_pcb ----------

  lemma DelAgrees(ram: seq<Page>, ram2: seq<Page>, e: Place, e2: Place, q: Place)
    requires q.frame < |ram| == |ram2| && WordAt(ram2, q) == WordAt(ram, q)
    requires WordAt(ram2, e2) == WordAt(ram, e) && WordAt(ram2, Plus(e2, 1)) == WordAt(ram, Plus(e, 1))
    requires q != e && q != Plus(e, 1) && q != e2 && q != Plus(e2, 1)
    ensures WordAt(Del(ram2, e2), q) == WordAt(Del(ram, e), q)
  {
    DelReadsAt(ram, e, q);
    DelReadsAt(ram2, e2, q);
  }

  /** The pages that lead to s's table, and the table, are the same in m and in m2. */
  ghost predicate SamePages(m: Mem, m2: Mem, s: int) {
    && s in m.dir && s in m2.dir && m2.dir[s] == m.dir[s] && |m2.ram| == |m.ram|
    && PageAt(m2, m.dir[s]) == PageAt(m, m.dir[s]) && PageAt(m2, TableFrame(m, s)) == Tab(m, s)
  }

  /** list_del of two nodes with the same links does the same to a table that both memories have. */
  lemma DelSameTable(m: Mem, m2: Mem, f: int, f2: int, s: int)
    requires Core(m) && SamePages(m, m2, s) && 0 <= f < TOTAL_PAGES && 0 <= f2 < TOTAL_PAGES
    requires f != m.dir[s] && f != TableFrame(m, s) && f2 != m.dir[s] && f2 != TableFrame(m, s)
    requires WordAt(m2.ram, Member(f2, TASK_LIST)) == WordAt(m.ram, Member(f, TASK_LIST))
    requires WordAt(m2.ram, Member(f2, TASK_LIST + 1)) == WordAt(m.ram, Member(f, TASK_LIST + 1))
    ensures var m' := m.(ram := Del(m.ram, Member(f, TASK_LIST)));
      var m2' := m2.(ram := Del(m2.ram, Member(f2, TASK_LIST)));
      && TableFrame(m2', s) == TableFrame(m', s)
      && (TableFrame(m', s) == TableFrame(m, s) ==> Tab(m2', s) == Tab(m', s))
  {
    var ram', ram2' := Del(m.ram, Member(f, TASK_LIST)), Del(m2.ram, Member(f2, TASK_LIST));
    var d, u := m.dir[s], TableFrame(m, s);
    TaskFrames(m, s);
    MemberOf(m, f, TASK_LIST);
    MemberOf(m, f2, TASK_LIST);
    forall i, g | 0 <= i < PT_ENTRIES && (g == d || g == u) ensures ram2'[g][i] == ram'[g][i] {
      DelAgrees(m.ram, m2.ram, Member(f, TASK_LIST), Member(f2, TASK_LIST), Place(g, i));
    }
    assert ram2'[d] == ram'[d] && ram2'[u] == ram'[u];
  }

  ghost predicate TableStays(m: Mem, m': Mem, s: int)
    requires s in m.dir && s in m'.dir
  {
    TableFrame(m', s) == TableFrame(m, s) && Tab(m', s) == Tab(m, s)
  }

  lemma GiveUpPages(m: Mem, t: int, m2: Mem, s: int)
    requires Inv(m) && t in m.dir && 1 <= |FreeFrames(m)| < FRAMES_PER_TASK && m2 == Rollback(m, t, FreeFrames(m))
    requires s in m.dir
    ensures SamePages(m, m2, s) && TableStays(m, m2, s)
    ensures FreeFrames(m)[0] != m.dir[s] && FreeFrames(m)[0] != TableFrame(m, s) && t != m.dir[s]
    ensures t != TableFrame(m, s)
  {
    RollbackPages(m, t);
    TaskFrames(m, s);
    TaskFrames(m, t);
    assert FreeFrames(m)[0] in FreeFrames(m);
  }

  /** The list_del of a fork that fails changes a table if and only if unlinking the caller would. */
  lemma GiveUpKeepsTables(m: Mem, t: int)
    requires Inv(m) && t in m.dir && 1 <= |FreeFrames(m)| < FRAMES_PER_TASK
    ensures var m2 := Rollback(m, t, FreeFrames(m));
      Inv(m2.(ram := Del(m2.ram, Member(FreeFrames(m)[0], TASK_LIST)))) <==>
      SameTables(m, m.(ram := Del(m.ram, Member(t, TASK_LIST))))
  {
    var c, m2 := FreeFrames(m)[0], Rollback(m, t, FreeFrames(m));
    var m', m2' := m.(ram := Del(m.ram, Member(t, TASK_LIST))), m2.(ram := Del(m2.ram, Member(c, TASK_LIST)));
    RollbackKeeps(m, t);
    RollbackOwns(m, t);
    RollbackPages(m, t);
    TaskFrames(m, t);
    DelAbsent(m2.ram, m2.ram, Member(c, TASK_LIST));
    TablesExact(m2, m2');
    forall s | s in m.dir ensures TableStays(m2, m2', s) <==> TableStays(m, m', s) {
      GiveUpPages(m, t, m2, s);
      DelSameTable(m, m2, t, c, s);
    }
    SameTablesSplit(m2, m2');
    SameTablesSplit(m, m');
  }

  /** The condition on fork is exact: each of its list operations keeps the invariant if and only if it holds before. */
  lemma ForkTableGuardIsExact(m: Mem, v: Vars, t: int)
    requires Inv(m) && VarsOk(m, v) && t in m.dir
    ensures ForkKeepsInv(m, v, t) <==> ForkTableGuard(m, v, t)
  {
    if FreeFrames(m) != [] {
      var e := Enlisted(m, v);
      EnlistKeepsTables(m, v);
      if Inv(e) { LaterTableGuardIsExact(m, v, t, e); }
    }
  }

  lemma LaterTableGuardIsExact(m: Mem, v: Vars, t: int, e: Mem)
    requires Sized(m) && t in m.dir && FreeFrames(m) != [] && e == Enlisted(m, v) && Inv(e)
    ensures Inv(LinkedFork(m, v, t).0) <==> LaterTableGuard(e, v, t)
  {
    assert FreeFrames(e) == FreeFrames(m);
    LinkedForkCases(m, v, t, e);
    if |FreeFrames(e)| >= FRAMES_PER_TASK {
      var m2, c := Fork(e, t).0, FreeFrames(e)[0];
      ForkedOwners(e, t, m2);
      JoinKeepsTables(m2, c, t);
      LastStays(e, t);
      ForkedTablePlaces(e, t, Prev(e.ram, Member(t, CHILDREN_UNBLOCKED)));
    } else {
      GiveUpKeepsTables(e, t);
    }
  }

  /** A fork that succeeds does not move its caller's last child. */
  lemma LastStays(m: Mem, t: int)
    requires Inv(m) && t in m.dir && FRAMES_PER_TASK <= |FreeFrames(m)|
    ensures Prev(Fork(m, t).0.ram, Member(t, CHILDREN_UNBLOCKED)) == Prev(m.ram, Member(t, CHILDREN_UNBLOCKED))
  {
    ForkPages(m, t, t);
    TaskFrames(m, t);
    MemberOf(m, t, CHILDREN_UNBLOCKED);
  }

  // ---------- exit ----------

  /** Before the call: unlinking the caller from list_tasks would change no other task's table. */
  ghost predicate ExitTableGuard(m: Mem, t: int)
    requires Sized(m) && t in m.dir
  {
    var m' := m.(ram := Del(m.ram, Member(t, TASK_LIST)));
    forall s :: s in m.dir && s != t ==> TableFrame(m', s) == TableFrame(m, s) && Tab(m', s) == Tab(m, s)
  }

  lemma ExitPages(m: Mem, t: int, m2: Mem, s: int)
    requires Inv(m) && t in m.dir && m2 == Exit(m, t) && s in m.dir && s != t
    ensures Inv(m2) && m2.dir == m.dir - {t} && SamePages(m, m2, s) && TableStays(m, m2, s)
    ensures t != m.dir[s] && t != TableFrame(m, s)
    ensures 0 <= t < TOTAL_PAGES && PageAt(m2, t) == PageAt(m, t)
  {
    ExitKeeps(m, t);
    ExitTables(m, t);
    TaskFrames(m, s);
    TaskFrames(m, t);
    ExitKeepsPage(m, t, t);
    ExitSparesDir(m, t, s);
  }

  lemma ExitSparesDir(m: Mem, t: int, s: int)
    requires Inv(m) && t in m.dir && s in m.dir && s != t
    ensures |Exit(m, t).ram| == |m.ram| && PageAt(Exit(m, t), m.dir[s]) == PageAt(m, m.dir[s])
  {
    var m1 := DetachFrom(m, t, FIRST_SHARED);
    DetachKeeps(m, t, FIRST_SHARED);
    DetachSparesDir(m, t, FIRST_SHARED, s);
    TaskFrames(m1, t);
    TaskFrames(m1, s);
  }

  lemma UnmapSparesDir(m: Mem, t: int, i: int, id: int, s: int)
    requires Inv(m) && s in m.dir && 0 <= id < NUM_SHARED_PAGES && MapsFrame(m, t, i, m.shFrame[id])
    ensures |Unmap(m, t, i, id).ram| == |m.ram| && PageAt(Unmap(m, t, i, id), m.dir[s]) == PageAt(m, m.dir[s])
  {
    TaskFrames(m, t);
    TaskFrames(m, s);
    assert SharedOk(m, id);
    SharedFrames(m, id);
  }

  lemma {:induction false} DetachSparesDir(m: Mem, t: int, i: int, s: int)
    requires Inv(m) && t in m.dir && s in m.dir && FIRST_SHARED <= i <= PT_ENTRIES
    ensures |DetachFrom(m, t, i).ram| == |m.ram| && PageAt(DetachFrom(m, t, i), m.dir[s]) == PageAt(m, m.dir[s])
    decreases PT_ENTRIES - i
  {
    if i < PT_ENTRIES {
      DetachOne(m, t, i);
      var id := FindShared(m.shFrame, Tab(m, t)[i].base);
      var m1 := if Tab(m, t)[i].present && id != -1 then Unmap(m, t, i, id) else m;
      if Tab(m, t)[i].present && id != -1 { UnmapSparesDir(m, t, i, id, s); }
      DetachSparesDir(m1, t, i + 1, s);
    }
  }

  lemma ExitTableGuardIsExact(m: Mem, t: int)
    requires Inv(m) && t in m.dir
    ensures Inv(LinkedExit(m, t)) <==> ExitTableGuard(m, t)
  {
    var m2 := Exit(m, t);
    ExitKeeps(m, t);
    DelAbsent(m2.ram, m2.ram, Member(t, TASK_LIST));
    TablesExact(m2, m2.(ram := Del(m2.ram, Member(t, TASK_LIST))));
    ExitSameTables(m, t, m2, m2.(ram := Del(m2.ram, Member(t, TASK_LIST))));
  }

  lemma ExitSameTables(m: Mem, t: int, m2: Mem, m2': Mem)
    requires Inv(m) && t in m.dir && m2 == Exit(m, t) && m2' == m2.(ram := Del(m2.ram, Member(t, TASK_LIST)))
    ensures SameTables(m2, m2') <==> ExitTableGuard(m, t)
  {
    var m' := m.(ram := Del(m.ram, Member(t, TASK_LIST)));
    ExitTables(m, t);
    forall s | s in m.dir && s != t ensures TableStays(m2, m2', s) <==> TableStays(m, m', s) {
      ExitSameTable(m, t, m2, s);
    }
    SameTablesSplit(m2, m2');
    OthersSplit(m, m', t);
  }

  lemma OthersSplit(m: Mem, m': Mem, t: int)
    requires Sized(m) && t in m.dir && m' == m.(ram := Del(m.ram, Member(t, TASK_LIST)))
    ensures ExitTableGuard(m, t) <==> forall s :: s in m.dir && s != t ==> TableStays(m, m', s)
  {
  }

  lemma ExitSameTable(m: Mem, t: int, m2: Mem, s: int)
    requires Inv(m) && t in m.dir && m2 == Exit(m, t) && s in m.dir && s != t && s in m2.dir
    ensures TableStays(m2, m2.(ram := Del(m2.ram, Member(t, TASK_LIST))), s) <==>
      TableStays(m, m.(ram := Del(m.ram, Member(t, TASK_LIST))), s)
  {
    ExitPages(m, t, m2, s);
    TaskFrames(m, t);
    MemberOf(m, t, TASK_LIST);
    DelSameTable(m, m2, t, t, s);
  }

  lemma SameTablesSplit(m: Mem, m': Mem)
    requires m'.dir == m.dir
    ensures SameTables(m, m') <==> forall s :: s in m.dir ==> TableStays(m, m', s)
  {
  }
}
