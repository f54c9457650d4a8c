/** Creating and destroying tasks keeps memory consistent. */
module TaskLife {
  import opened Machine
  import opened Sequences
  import opened Frames
  import opened Memory
  import opened MemoryInvariant

  ghost predicate GrantShape(g: Grant) {
    && |g.data| == NUM_PAG_DATA && Distinct(g.data)
    && g.pcb != g.dir && g.pcb != g.table && g.dir != g.table
    && g.pcb !in g.data && g.dir !in g.data && g.table !in g.data
  }

  /** Frames for a new task, all different and free. */
  ghost predicate Affords(m: Mem, g: Grant) {
    && Sized(m) && GrantShape(g)
    && (forall f :: f in Granted(g) ==> m.boot.lastKernel <= f < TOTAL_PAGES && f !in m.own)
  }

  lemma InGrant(g: Grant, f: int)
    ensures f in Granted(g) <==> f == g.pcb || f == g.dir || f == g.table || f in g.data
  {
    assert Granted(g)[0] == g.pcb && Granted(g)[1] == g.dir && Granted(g)[2] == g.table;
    if f in g.data {
      var i :| 0 <= i < |g.data| && g.data[i] == f;
      assert Granted(g)[3 + i] == f;
    }
  }

  lemma GrantIsLowest(fs: seq<int>)
    requires FRAMES_PER_TASK <= |fs|
    ensures Granted(LowestGrant(fs)) == fs[..FRAMES_PER_TASK]
  {
  }

  lemma FreeAffords(m: Mem)
    requires Core(m) && |FreeFrames(m)| >= FRAMES_PER_TASK
    ensures Affords(m, LowestGrant(FreeFrames(m)))
  {
    var fs := FreeFrames(m);
    GrantIsLowest(fs);
    assert forall f :: f in fs[..FRAMES_PER_TASK] ==> f in fs;
  }

  lemma PositionAt(fs: seq<int>, i: int)
    requires Distinct(fs) && 0 <= i < |fs|
    ensures Position(fs, fs[i]) == i
  {
  }

  /** What each frame holds after a birth, the child's data pages apart. */
  ghost predicate BirthPages(m: Mem, m': Mem, t: int, g: Grant)
    requires t in m.dir && |g.data| == NUM_PAG_DATA
  {
    && |m'.ram| == |m.ram| && m'.dir == m.dir[g.pcb := g.dir]
    && (forall f :: f !in Granted(g) ==> PageAt(m', f) == PageAt(m, f))
    && PageAt(m', g.pcb) == PageAt(m, t)
    && PageAt(m', g.dir) == ChildDir(PageAt(m, m.dir[t]), g.table)
    && PageAt(m', g.table) == ChildTable(Tab(m, t), g.data)
  }

  lemma BirthWrites(m: Mem, t: int, g: Grant)
    requires Affords(m, g) && t in m.dir
    ensures Sized(Birth(m, t, g)) && BirthPages(m, Birth(m, t, g), t, g)
  {
    var m' := Birth(m, t, g);
    InGrant(g, g.pcb);
    InGrant(g, g.dir);
    InGrant(g, g.table);
    forall f | f !in Granted(g) ensures PageAt(m', f) == PageAt(m, f) {
      InGrant(g, f);
    }
  }

  /** The child's data pages are copies of the parent's. */
  lemma BirthData(m: Mem, t: int, g: Grant, i: int)
    requires Core(m) && t in m.dir && Affords(m, g) && 0 <= i < NUM_PAG_DATA
    ensures PageAt(Birth(m, t, g), g.data[i]) == PageAt(m, Tab(m, t)[i].base)
  {
    var m3 := Construct(m, t, g.pcb, g.dir, g.table, g.data);
    InGrant(g, g.data[i]);
    CopiedPage(m3, g.data, DataFrames(Tab(m, t)), i);
    TaskFrames(m, t);
    InGrant(g, Tab(m, t)[i].base);
    assert PageAt(m3, Tab(m, t)[i].base) == PageAt(m, Tab(m, t)[i].base);
  }

  lemma CopiedPage(m: Mem, data: seq<int>, src: seq<int>, i: int)
    requires Distinct(data) && |src| == |data| && 0 <= i < |data| && 0 <= data[i] < |m.ram|
    ensures PageAt(CopyPages(m, data, src), data[i]) == PageAt(m, src[i])
  {
    PositionAt(data, i);
  }

  /** A table for a task built from g that maps its data pages and the common code, and no shared page. */
  ghost predicate NewTable(m: Mem, g: Grant, tab: Page)
    requires Sized(m) && |g.data| == NUM_PAG_DATA
  {
    && TableOk(m, tab)
    && (forall i :: 0 <= i < NUM_PAG_DATA ==> tab[i].base == g.data[i])
    && (forall i :: FIRST_SHARED <= i < PT_ENTRIES ==> tab[i] == ZERO_WORD)
  }

  /** A new task has joined with this table, and every other table is as it was. */
  ghost predicate Joined(m: Mem, m': Mem, g: Grant, tab: Page) {
    && m'.dir == m.dir[g.pcb := g.dir]
    && TableFrame(m', g.pcb) == g.table && Tab(m', g.pcb) == tab
    && forall s :: s in m.dir ==> s != g.pcb && TableFrame(m', s) == TableFrame(m, s) && Tab(m', s) == Tab(m, s)
  }

  lemma ChildTableIsNew(m: Mem, t: int, g: Grant)
    requires Core(m) && t in m.dir && Affords(m, g)
    ensures NewTable(m, g, ChildTable(Tab(m, t), g.data))
  {
    assert TableOk(m, Tab(m, t));
    forall i | 0 <= i < NUM_PAG_DATA ensures 0 <= g.data[i] < TOTAL_PAGES { InGrant(g, g.data[i]); }
  }

  lemma BirthTables(m: Mem, m': Mem, t: int, g: Grant)
    requires Core(m) && t in m.dir && Affords(m, g) && BirthPages(m, m', t, g)
    ensures Joined(m, m', g, ChildTable(Tab(m, t), g.data))
  {
    InGrant(g, g.pcb);
    InGrant(g, g.dir);
    InGrant(g, g.table);
    forall s | s in m.dir ensures s !in Granted(g) && m.dir[s] !in Granted(g) && TableFrame(m, s) !in Granted(g) {
      TaskFrames(m, s);
    }
  }

  lemma ChildOwnersAre(g: Grant)
    requires GrantShape(g)
    ensures forall f :: f in ChildOwners(g) <==> f in Granted(g)
    ensures ChildOwners(g)[g.pcb] == Pcb(g.pcb) && ChildOwners(g)[g.dir] == Dir(g.pcb)
    ensures ChildOwners(g)[g.table] == Table(g.pcb)
    ensures forall i :: 0 <= i < NUM_PAG_DATA ==>
      g.data[i] in ChildOwners(g) && ChildOwners(g)[g.data[i]] == Data(g.pcb, i)
  {
    forall f ensures f in ChildOwners(g) <==> f in Granted(g) { InGrant(g, f); }
    forall i | 0 <= i < NUM_PAG_DATA
      ensures g.data[i] in ChildOwners(g) && ChildOwners(g)[g.data[i]] == Data(g.pcb, i)
    {
      PositionAt(g.data, i);
    }
  }

  lemma JoinClaims(m: Mem, m': Mem, g: Grant, tab: Page)
    requires Core(m) && Affords(m, g) && NewTable(m, g, tab) && Joined(m, m', g, tab)
    requires m'.shFrame == m.shFrame && m'.boot == m.boot
    requires m'.own == m.own + ChildOwners(g)
    ensures Exclusive(m')
  {
    ChildOwnersAre(g);
    forall o, f ensures Claim(m', o, f) <==> f in m'.own && m'.own[f] == o {
      assert Claim(m, o, f) <==> f in m.own && m.own[f] == o;
      InGrant(g, f);
      GrantOwnerIs(g, o, f);
      JoinClaim(m, m', g, tab, o, f);
    }
  }

  ghost predicate GrantOwner(g: Grant, o: Owner, f: int) {
    match o
    case Pcb(c) => c == g.pcb && f == g.pcb
    case Dir(c) => c == g.pcb && f == g.dir
    case Table(c) => c == g.pcb && f == g.table
    case Data(c, i) => c == g.pcb && 0 <= i < |g.data| && f == g.data[i]
    case _ => false
  }

  lemma JoinClaim(m: Mem, m': Mem, g: Grant, tab: Page, o: Owner, f: int)
    requires Affords(m, g) && NewTable(m, g, tab) && Joined(m, m', g, tab)
    requires m'.shFrame == m.shFrame && m'.boot == m.boot && m'.own == m.own + ChildOwners(g)
    ensures Claim(m', o, f) <==> Claim(m, o, f) || GrantOwner(g, o, f)
  {
    ChildOwnersAre(g);
    if o == Leaked { InGrant(g, f); }
  }

  lemma GrantOwnerIs(g: Grant, o: Owner, f: int)
    requires GrantShape(g)
    ensures GrantOwner(g, o, f) <==> f in ChildOwners(g) && ChildOwners(g)[f] == o
  {
    ChildOwnersAre(g);
    InGrant(g, f);
  }

  lemma JoinMappings(m: Mem, m': Mem, g: Grant, tab: Page, f: int)
    requires Affords(m, g) && NewTable(m, g, tab) && Joined(m, m', g, tab)
    ensures Mappings(m', f) == Mappings(m, f)
  {
    forall s, i ensures MapsFrame(m', s, i, f) <==> MapsFrame(m, s, i, f) {
    }
  }

  lemma JoinAccounted(m: Mem, m': Mem, g: Grant)
    requires Core(m) && Affords(m, g) && Sized(m') && m'.boot == m.boot
    requires m'.phys == Marked(m.phys, Granted(g), USED_FRAME) && m'.own == m.own + ChildOwners(g)
    ensures Accounted(m') && KernelKept(m')
  {
    ChildOwnersAre(g);
  }

  /** A task that joins on free frames, with a table of its own, leaves everything consistent. */
  lemma JoinKeeps(m: Mem, m': Mem, g: Grant, tab: Page)
    requires Inv(m) && Affords(m, g) && NewTable(m, g, tab) && Joined(m, m', g, tab) && Sized(m')
    requires m'.phys == Marked(m.phys, Granted(g), USED_FRAME) && m'.own == m.own + ChildOwners(g)
    requires m' == m.(phys := m'.phys, ram := m'.ram, own := m'.own, dir := m'.dir)
    ensures Inv(m')
  {
    JoinClaims(m, m', g, tab);
    JoinAccounted(m, m', g);
    forall s | s in m'.dir ensures TableOk(m', Tab(m', s)) {
      if s != g.pcb { assert TableOk(m, Tab(m, s)); }
    }
    forall k | 0 <= k < NUM_SHARED_PAGES ensures SharedOk(m', k) && MarkedInUse(m', k) {
      assert SharedOk(m, k) && MarkedInUse(m, k);
      JoinMappings(m, m', g, tab, m.shFrame[k]);
    }
  }

  lemma BirthKeeps(m: Mem, t: int, g: Grant)
    requires Inv(m) && t in m.dir && Affords(m, g)
    ensures Inv(Birth(m, t, g))
    ensures Joined(m, Birth(m, t, g), g, ChildTable(Tab(m, t), g.data))
  {
    BirthWrites(m, t, g);
    BirthTables(m, Birth(m, t, g), t, g);
    ChildTableIsNew(m, t, g);
    JoinKeeps(m, Birth(m, t, g), g, ChildTable(Tab(m, t), g.data));
  }

  // ---------- inheriting the shared pages ----------

  lemma {:induction false} InheritKeeps(m: Mem, t: int, c: int, i: int)
    requires Inv(m) && t in m.dir && c in m.dir && c != t && FIRST_SHARED <= i <= PT_ENTRIES
    requires forall j :: i <= j < PT_ENTRIES ==> Tab(m, c)[j] == ZERO_WORD
    ensures var m' := Inherit(m, t, c, i);
      && Inv(m') && m'.dir == m.dir && m'.boot == m.boot && m'.phys == m.phys && m'.own == m.own
      && m'.shFrame == m.shFrame && m'.shMark == m.shMark
      && (forall s :: s in m.dir && s != c ==> Tab(m', s) == Tab(m, s))
      && (forall j :: 0 <= j < PT_ENTRIES ==> Tab(m', c)[j] == if j < i then Tab(m, c)[j] else Tab(m, t)[j])
    decreases PT_ENTRIES - i
  {
    if i < PT_ENTRIES {
      var w := Tab(m, t)[i];
      assert TableOk(m, Tab(m, t));
      assert SharedEntry(m.shFrame, w);
      var id := FindShared(m.shFrame, w.base);
      if w.present && id != -1 {
        MapKeeps(m, c, i, id);
        InheritKeeps(Map(m, c, i, id), t, c, i + 1);
      } else {
        assert w == ZERO_WORD;
        InheritKeeps(m, t, c, i + 1);
      }
    }
  }

  /** Inheriting writes only the child's table. */
  lemma {:induction false} InheritPages(m: Mem, t: int, c: int, i: int, f: int)
    requires Inv(m) && t in m.dir && c in m.dir && c != t && FIRST_SHARED <= i <= PT_ENTRIES
    requires forall j :: i <= j < PT_ENTRIES ==> Tab(m, c)[j] == ZERO_WORD
    requires f != TableFrame(m, c)
    ensures PageAt(Inherit(m, t, c, i), f) == PageAt(m, f)
    decreases PT_ENTRIES - i
  {
    if i < PT_ENTRIES {
      var w := Tab(m, t)[i];
      var id := FindShared(m.shFrame, w.base);
      if w.present && id != -1 {
        MapKeeps(m, c, i, id);
        InheritPages(Map(m, c, i, id), t, c, i + 1, f);
      } else {
        InheritPages(m, t, c, i + 1, f);
      }
    }
  }

  // ---------- a fork that fails ----------

  /** Only free frames are written. */
  lemma RollbackPages(m: Mem, t: int)
    requires Core(m) && t in m.dir && 1 <= |FreeFrames(m)| < FRAMES_PER_TASK
    ensures var m' := Rollback(m, t, FreeFrames(m));
      && Sized(m')
      && (forall f :: f in m.own ==> PageAt(m', f) == PageAt(m, f))
      && m' == m.(ram := m'.ram, phys := m'.phys, own := m'.own)
  {
    var fs := FreeFrames(m);
    assert fs[0] in fs;
    assert |fs| >= 2 ==> fs[1] in fs;
    assert |fs| >= 3 ==> fs[2] in fs;
  }

  lemma RollbackKeeps(m: Mem, t: int)
    requires Inv(m) && t in m.dir && 1 <= |FreeFrames(m)| < FRAMES_PER_TASK
    ensures Inv(Rollback(m, t, FreeFrames(m)))
    ensures forall s :: s in m.dir ==> Tab(Rollback(m, t, FreeFrames(m)), s) == Tab(m, s)
  {
    var fs := FreeFrames(m);
    var m' := Rollback(m, t, fs);
    RollbackPages(m, t);
    forall s | s in m.dir ensures TableFrame(m', s) == TableFrame(m, s) && Tab(m', s) == Tab(m, s) { TaskFrames(m, s); }
    if |fs| >= 2 { assert fs[1] in fs; }
    RollbackClaims(m, m', fs);
    LeakTablesOk(m, m');
  }

  lemma RollbackClaims(m: Mem, m': Mem, fs: seq<int>)
    requires Core(m) && 1 <= |fs| && (|fs| >= 2 ==> fs[1] !in m.own)
    requires m'.dir == m.dir && m'.shFrame == m.shFrame && m'.boot == m.boot
    requires m'.own == if |fs| == 1 then m.own else m.own[fs[1] := Leaked]
    requires forall s :: s in m.dir ==> TableFrame(m', s) == TableFrame(m, s) && Tab(m', s) == Tab(m, s)
    ensures Exclusive(m')
  {
    forall o, f ensures Claim(m', o, f) <==> f in m'.own && m'.own[f] == o {
      assert Claim(m, o, f) <==> f in m.own && m.own[f] == o;
      assert Claim(m', o, f) <==> Claim(m, o, f) || (|fs| >= 2 && f == fs[1] && o == Leaked);
    }
  }

  /** Same tables, same shared pages: the tables and the counts stay right. */
  lemma LeakTablesOk(m: Mem, m': Mem)
    requires Inv(m) && Sized(m') && m'.dir == m.dir && m'.boot == m.boot
    requires m'.shFrame == m.shFrame && m'.shRefs == m.shRefs && m'.shMark == m.shMark
    requires forall s :: s in m.dir ==> TableFrame(m', s) == TableFrame(m, s) && Tab(m', s) == Tab(m, s)
    ensures TablesOk(m')
    ensures forall k :: 0 <= k < NUM_SHARED_PAGES ==> SharedOk(m', k) && MarkedInUse(m', k)
  {
    forall s | s in m'.dir ensures TableOk(m', Tab(m', s)) { assert TableOk(m, Tab(m, s)); }
    forall k | 0 <= k < NUM_SHARED_PAGES ensures SharedOk(m', k) && MarkedInUse(m', k) {
      assert SharedOk(m, k) && MarkedInUse(m, k);
      SameMappings(m, m', m.shFrame[k]);
    }
  }

  lemma ForkKeeps(m: Mem, t: int)
    requires Inv(m) && t in m.dir
    ensures Inv(Fork(m, t).0)
  {
    var fs := FreeFrames(m);
    if |fs| >= FRAMES_PER_TASK {
      var g := LowestGrant(fs);
      FreeAffords(m);
      BirthKeeps(m, t, g);
      InheritKeeps(Birth(m, t, g), t, g.pcb, FIRST_SHARED);
    } else if |fs| >= 1 {
      RollbackKeeps(m, t);
    }
  }

  // ---------- exit ----------

  /** m' is m after t let go of its entries from i on. */
  ghost predicate Detached(m: Mem, m': Mem, t: int, i: int)
    requires t in m.dir
  {
    && m'.dir == m.dir && m'.boot == m.boot
    && (forall s :: s in m.dir ==> TableFrame(m', s) == TableFrame(m, s))
    && (forall s :: s in m.dir && s != t ==> Tab(m', s) == Tab(m, s))
    && (forall j :: 0 <= j < PT_ENTRIES ==> Tab(m', t)[j] == if j < i then Tab(m, t)[j] else ZERO_WORD)
  }

  lemma {:induction false} DetachKeeps(m: Mem, t: int, i: int)
    requires Inv(m) && t in m.dir && FIRST_SHARED <= i <= PT_ENTRIES
    ensures Inv(DetachFrom(m, t, i)) && Detached(m, DetachFrom(m, t, i), t, i)
    decreases PT_ENTRIES - i
  {
    if i < PT_ENTRIES {
      DetachOne(m, t, i);
      var id := FindShared(m.shFrame, Tab(m, t)[i].base);
      var m1 := if Tab(m, t)[i].present && id != -1 then Unmap(m, t, i, id) else m;
      DetachKeeps(m1, t, i + 1);
      DetachStep(m, m1, DetachFrom(m1, t, i + 1), t, i);
    }
  }

  lemma DetachOne(m: Mem, t: int, i: int)
    requires Inv(m) && t in m.dir && FIRST_SHARED <= i < PT_ENTRIES
    ensures var id := FindShared(m.shFrame, Tab(m, t)[i].base);
      var m1 := if Tab(m, t)[i].present && id != -1 then Unmap(m, t, i, id) else m;
      Inv(m1) && EntryReplaced(m, m1, t, i, ZERO_WORD)
  {
    var w := Tab(m, t)[i];
    assert TableOk(m, Tab(m, t));
    assert SharedEntry(m.shFrame, w);
    var id := FindShared(m.shFrame, w.base);
    if w.present && id != -1 {
      UnmapKeeps(m, t, i, id);
    } else {
      assert w == ZERO_WORD;
    }
  }

  lemma DetachStep(m: Mem, m1: Mem, m': Mem, t: int, i: int)
    requires EntryReplaced(m, m1, t, i, ZERO_WORD) && Detached(m1, m', t, i + 1)
    ensures Detached(m, m', t, i)
  {
  }

  lemma InTaskFrames(m: Mem, t: int, f: int)
    requires Core(m) && t in m.dir
    ensures f in TaskFrameList(m, t) <==>
      f in m.own && m.own[f] != Pinned && m.own[f] != Leaked && !m.own[f].Shared? && m.own[f].task == t
  {
    TaskFrames(m, t);
    var fs, data := TaskFrameList(m, t), DataFrames(Tab(m, t));
    assert fs[0] == t && fs[1] == m.dir[t] && fs[2] == TableFrame(m, t);
    if f in m.own {
      assert Claim(m, m.own[f], f);
      if m.own[f].Data? && m.own[f].task == t { assert fs[3 + m.own[f].index] == data[m.own[f].index] == f; }
    }
    if f in fs {
      var k :| 0 <= k < |fs| && fs[k] == f;
      if k >= 3 { assert f == data[k - 3]; }
    }
  }

  /** Tearing down a task writes only to its own frames. */
  lemma TearDownTables(m: Mem, t: int)
    requires Core(m) && t in m.dir
    ensures var m' := TearDown(m, t);
      Sized(m') && forall s :: s in m'.dir ==> TableFrame(m', s) == TableFrame(m, s) && Tab(m', s) == Tab(m, s)
  {
    TaskFrames(m, t);
    forall s | s in m.dir && s != t
      ensures m.dir[s] != m.dir[t] && m.dir[s] != TableFrame(m, t)
      ensures TableFrame(m, s) != m.dir[t] && TableFrame(m, s) != TableFrame(m, t)
    {
      TaskFrames(m, s);
    }
  }

  lemma TearDownClaims(m: Mem, m': Mem, t: int)
    requires Core(m) && t in m.dir
    requires m'.dir == m.dir - {t} && m'.shFrame == m.shFrame && m'.boot == m.boot
    requires m'.own == m.own - (set f | f in TaskFrameList(m, t))
    requires forall s :: s in m'.dir ==> TableFrame(m', s) == TableFrame(m, s) && Tab(m', s) == Tab(m, s)
    ensures Exclusive(m')
  {
    forall o, f ensures Claim(m', o, f) <==> f in m'.own && m'.own[f] == o {
      assert Claim(m, o, f) <==> f in m.own && m.own[f] == o;
      InTaskFrames(m, t, f);
      assert Claim(m', o, f) <==> Claim(m, o, f) && f !in TaskFrameList(m, t);
    }
  }

  lemma TearDownKeeps(m: Mem, t: int)
    requires Inv(m) && t in m.dir
    requires forall j :: FIRST_SHARED <= j < PT_ENTRIES ==> Tab(m, t)[j] == ZERO_WORD
    ensures Inv(TearDown(m, t))
  {
    var m' := TearDown(m, t);
    TearDownTables(m, t);
    TearDownClaims(m, m', t);
    TearDownAccounted(m, m', t);
    forall s | s in m'.dir ensures TableOk(m', Tab(m', s)) { assert TableOk(m, Tab(m, s)); }
    forall k | 0 <= k < NUM_SHARED_PAGES ensures SharedOk(m', k) && MarkedInUse(m', k) {
      assert SharedOk(m, k) && MarkedInUse(m, k);
      TearDownMappings(m, m', t, m.shFrame[k]);
    }
  }

  lemma TearDownMappings(m: Mem, m': Mem, t: int, f: int)
    requires t in m.dir && m'.dir == m.dir - {t}
    requires forall s :: s in m'.dir ==> Tab(m', s) == Tab(m, s)
    requires forall j :: FIRST_SHARED <= j < PT_ENTRIES ==> Tab(m, t)[j] == ZERO_WORD
    ensures Mappings(m', f) == Mappings(m, f)
  {
    forall s, i ensures MapsFrame(m', s, i, f) <==> MapsFrame(m, s, i, f) {
    }
  }

  lemma TearDownAccounted(m: Mem, m': Mem, t: int)
    requires Core(m) && t in m.dir && Sized(m') && m'.boot == m.boot
    requires m'.phys == Marked(m.phys, TaskFrameList(m, t), FREE_FRAME)
    requires m'.own == m.own - (set f | f in TaskFrameList(m, t))
    ensures Accounted(m') && KernelKept(m')
  {
    forall f ensures f in TaskFrameList(m, t) ==> f in m.own { InTaskFrames(m, t, f); }
  }

  lemma ExitKeeps(m: Mem, t: int)
    requires Inv(m) && t in m.dir
    ensures Inv(Exit(m, t))
  {
    DetachKeeps(m, t, FIRST_SHARED);
    TearDownKeeps(DetachFrom(m, t, FIRST_SHARED), t);
  }
}
