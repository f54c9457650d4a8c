/** Every operation on memory keeps the ownership, the tables and the reference counts consistent. */
module MemoryInvariant {
  import opened Machine
  import opened Memory

  /** The frames a live task is built from have an owner each, hence are in use and distinct. */
  lemma TaskFrames(m: Mem, t: int)
    requires Core(m) && t in m.dir
    ensures t in m.own && m.own[t] == Pcb(t)
    ensures m.dir[t] in m.own && m.own[m.dir[t]] == Dir(t)
    ensures TableFrame(m, t) in m.own && m.own[TableFrame(m, t)] == Table(t)
    ensures forall i :: 0 <= i < NUM_PAG_DATA ==> Tab(m, t)[i].base in m.own && m.own[Tab(m, t)[i].base] == Data(t, i)
  {
    assert Claim(m, Pcb(t), t);
    assert Claim(m, Dir(t), m.dir[t]);
    assert Claim(m, Table(t), TableFrame(m, t));
    forall i | 0 <= i < NUM_PAG_DATA
      ensures Tab(m, t)[i].base in m.own && m.own[Tab(m, t)[i].base] == Data(t, i)
    {
      assert Claim(m, Data(t, i), Tab(m, t)[i].base);
    }
  }

  lemma SharedFrames(m: Mem, id: int)
    requires Core(m) && 0 <= id < NUM_SHARED_PAGES && m.shFrame[id] != -1
    ensures m.shFrame[id] in m.own && m.own[m.shFrame[id]] == Shared(id)
    ensures FindShared(m.shFrame, m.shFrame[id]) == id
  {
    assert SharedOk(m, id);
    assert Claim(m, Shared(id), m.shFrame[id]);
    var k := FindShared(m.shFrame, m.shFrame[id]);
    assert Claim(m, Shared(k), m.shFrame[id]);
  }

  /** Writing one user-table entry changes that table only. */
  lemma TablesAfter(m: Mem, t: int, i: int, w: Word)
    requires Core(m) && t in m.dir && 0 <= i < PT_ENTRIES
    ensures var m' := SetEntry(m, TableFrame(m, t), i, w);
      forall s :: s in m.dir ==>
        TableFrame(m', s) == TableFrame(m, s) && Tab(m', s) == if s == t then Tab(m, t)[i := w] else Tab(m, s)
  {
    TaskFrames(m, t);
    forall s | s in m.dir ensures m.dir[s] != TableFrame(m, t) && (s != t ==> TableFrame(m, s) != TableFrame(m, t)) {
      TaskFrames(m, s);
    }
  }

  lemma MappingsAfter(m: Mem, m': Mem, t: int, i: int, f: int)
    requires t in m.dir && FIRST_SHARED <= i < PT_ENTRIES && m'.dir == m.dir
    requires forall s :: s in m.dir && s != t ==> Tab(m', s) == Tab(m, s)
    requires forall j :: FIRST_SHARED <= j < PT_ENTRIES && j != i ==> Tab(m', t)[j] == Tab(m, t)[j]
    ensures Mappings(m', f) == Mappings(m, f) - {(t, i)} + if MapsFrame(m', t, i, f) then {(t, i)} else {}
  {
  }

  lemma CountAfter(m: Mem, m': Mem, t: int, i: int, f: int)
    requires t in m.dir && FIRST_SHARED <= i < PT_ENTRIES && m'.dir == m.dir
    requires forall s :: s in m.dir && s != t ==> Tab(m', s) == Tab(m, s)
    requires forall j :: FIRST_SHARED <= j < PT_ENTRIES && j != i ==> Tab(m', t)[j] == Tab(m, t)[j]
    ensures |Mappings(m', f)| ==
      |Mappings(m, f)| - (if MapsFrame(m, t, i, f) then 1 else 0) + (if MapsFrame(m', t, i, f) then 1 else 0)
  {
    MappingsAfter(m, m', t, i, f);
    assert MapsFrame(m, t, i, f) <==> (t, i) in Mappings(m, f);
  }

  /** Claims depend only on the directories, the data entries, the shared frames and the pins. */
  lemma ClaimsFramed(m: Mem, m': Mem)
    requires Exclusive(m)
    requires m'.own == m.own && m'.dir == m.dir && m'.shFrame == m.shFrame && m'.boot == m.boot
    requires forall s :: s in m.dir ==> TableFrame(m', s) == TableFrame(m, s)
    requires forall s, i :: s in m.dir && 0 <= i < NUM_PAG_DATA ==> Tab(m', s)[i].base == Tab(m, s)[i].base
    ensures Exclusive(m')
  {
    forall o, f ensures Claim(m', o, f) <==> f in m'.own && m'.own[f] == o {
      assert Claim(m', o, f) <==> Claim(m, o, f);
    }
  }

  /** m' is m with entry i of t's table, above code and data, replaced by w. */
  ghost predicate EntryReplaced(m: Mem, m': Mem, t: int, i: int, w: Word) {
    && Sized(m) && Sized(m')
    && t in m.dir && FIRST_SHARED <= i < PT_ENTRIES
    && m'.dir == m.dir && m'.boot == m.boot
    && (forall s :: s in m.dir ==> TableFrame(m', s) == TableFrame(m, s))
    && (forall s :: s in m.dir ==> Tab(m', s) == if s == t then Tab(m, t)[i := w] else Tab(m, s))
  }

  lemma TablesOkAfter(m: Mem, m': Mem, t: int, i: int, w: Word)
    requires EntryReplaced(m, m', t, i, w)
    requires TablesOk(m) && m'.shFrame == m.shFrame && SharedEntry(m.shFrame, w)
    ensures TablesOk(m')
  {
    forall s | s in m'.dir ensures TableOk(m', Tab(m', s)) {
      assert TableOk(m, Tab(m, s));
    }
  }

  lemma MapKeeps(m: Mem, t: int, i: int, id: int)
    requires Core(m) && t in m.dir && FIRST_SHARED <= i < PT_ENTRIES && 0 <= id < NUM_SHARED_PAGES
    requires Tab(m, t)[i] == ZERO_WORD && m.shFrame[id] != -1
    ensures Core(Map(m, t, i, id))
    ensures Inv(m) ==> Inv(Map(m, t, i, id))
    ensures EntryReplaced(m, Map(m, t, i, id), t, i, Pte(ToBase(m.shFrame[id]), true))
  {
    var m' := Map(m, t, i, id);
    var w := Pte(ToBase(m.shFrame[id]), true);
    TablesAfter(m, t, i, w);
    assert EntryReplaced(m, m', t, i, w);
    SharedFrames(m, id);
    MapKeepsAll(m, m', t, i, w, id);
    if Inv(m) {
      forall k | 0 <= k < NUM_SHARED_PAGES ensures MarkedInUse(m', k) { assert MarkedInUse(m, k); }
    }
  }

  lemma MapKeepsAll(m: Mem, m': Mem, t: int, i: int, w: Word, id: int)
    requires Core(m) && EntryReplaced(m, m', t, i, w)
    requires m'.phys == m.phys && m'.own == m.own
    requires 0 <= id < NUM_SHARED_PAGES && m.shFrame[id] != -1
    requires !Tab(m, t)[i].present && w == Pte(w.base, true) && w.base == m.shFrame[id]
    requires m'.shFrame == m.shFrame && m'.shMark == m.shMark && m'.shRefs == m.shRefs[id := m.shRefs[id] + 1]
    ensures Core(m')
  {
    ClaimsFramed(m, m');
    TablesOkAfter(m, m', t, i, w);
    forall k | 0 <= k < NUM_SHARED_PAGES ensures SharedOk(m', k) {
      SharedDistinct(m, k, id);
      MapRefs(m, m', t, i, w, id, k);
    }
  }

  lemma SharedDistinct(m: Mem, k: int, id: int)
    requires Core(m) && 0 <= k < NUM_SHARED_PAGES && 0 <= id < NUM_SHARED_PAGES && m.shFrame[id] != -1
    ensures m.shFrame[k] == m.shFrame[id] ==> k == id
  {
    SharedFrames(m, id);
    if m.shFrame[k] != -1 { SharedFrames(m, k); }
  }

  lemma MapRefs(m: Mem, m': Mem, t: int, i: int, w: Word, id: int, k: int)
    requires EntryReplaced(m, m', t, i, w)
    requires 0 <= id < NUM_SHARED_PAGES && 0 <= k < NUM_SHARED_PAGES
    requires !Tab(m, t)[i].present && w.present && w.base == m.shFrame[id]
    requires m.shFrame[k] == m.shFrame[id] ==> k == id
    requires m'.shFrame == m.shFrame && m'.shMark == m.shMark && m'.shRefs == m.shRefs[id := m.shRefs[id] + 1]
    requires SharedOk(m, k)
    ensures SharedOk(m', k)
  {
    CountAfter(m, m', t, i, m.shFrame[k]);
  }

  // ---------- unmapping and reclaiming ----------

  lemma UnmapRefs(m: Mem, m': Mem, t: int, i: int, id: int, k: int)
    requires EntryReplaced(m, m', t, i, ZERO_WORD)
    requires 0 <= id < NUM_SHARED_PAGES && 0 <= k < NUM_SHARED_PAGES
    requires MapsFrame(m, t, i, m.shFrame[id])
    requires m.shFrame[k] == m.shFrame[id] ==> k == id
    requires m'.shFrame == m.shFrame && m'.shMark == m.shMark && m'.shRefs == m.shRefs[id := m.shRefs[id] - 1]
    requires SharedOk(m, k)
    ensures SharedOk(m', k)
  {
    CountAfter(m, m', t, i, m.shFrame[k]);
  }

  lemma UnmapKeepsAll(m: Mem, m': Mem, t: int, i: int, id: int)
    requires Core(m) && EntryReplaced(m, m', t, i, ZERO_WORD)
    requires m'.phys == m.phys && m'.own == m.own
    requires 0 <= id < NUM_SHARED_PAGES && MapsFrame(m, t, i, m.shFrame[id])
    requires m'.shFrame == m.shFrame && m'.shMark == m.shMark && m'.shRefs == m.shRefs[id := m.shRefs[id] - 1]
    ensures Core(m')
  {
    ClaimsFramed(m, m');
    TablesOkAfter(m, m', t, i, ZERO_WORD);
    forall k | 0 <= k < NUM_SHARED_PAGES ensures SharedOk(m', k) {
      SharedDistinct(m, k, id);
      UnmapRefs(m, m', t, i, id, k);
    }
  }

  /** Zeroing and freeing the frame of a shared page leaves every table as it was. */
  lemma CleanupTables(m: Mem, id: int)
    requires Core(m) && 0 <= id < NUM_SHARED_PAGES && m.shFrame[id] != -1
    ensures forall s :: s in m.dir ==>
      TableFrame(Cleanup(m, id), s) == TableFrame(m, s) && Tab(Cleanup(m, id), s) == Tab(m, s)
  {
    SharedFrames(m, id);
    forall s | s in m.dir ensures m.dir[s] != m.shFrame[id] && TableFrame(m, s) != m.shFrame[id] {
      TaskFrames(m, s);
    }
  }

  lemma CleanupClaims(m: Mem, m': Mem, id: int)
    requires Core(m) && 0 <= id < NUM_SHARED_PAGES && m.shFrame[id] != -1
    requires m'.dir == m.dir && m'.boot == m.boot && m'.shFrame == m.shFrame[id := -1]
    requires m'.own == m.own - {m.shFrame[id]}
    requires forall s :: s in m.dir ==> TableFrame(m', s) == TableFrame(m, s) && Tab(m', s) == Tab(m, s)
    ensures Exclusive(m')
  {
    SharedFrames(m, id);
    var f0 := m.shFrame[id];
    forall o, f ensures Claim(m', o, f) <==> f in m'.own && m'.own[f] == o {
      assert Claim(m, o, f) <==> f in m.own && m.own[f] == o;
      assert Claim(m', o, f) <==> Claim(m, o, f) && f != f0;
    }
  }

  lemma CleanupTablesOk(m: Mem, m': Mem, id: int)
    requires Core(m) && Sized(m') && 0 <= id < NUM_SHARED_PAGES && m.shFrame[id] != -1 && m.shRefs[id] == 0
    requires m'.dir == m.dir && m'.boot == m.boot && m'.shFrame == m.shFrame[id := -1]
    requires forall s :: s in m.dir ==> TableFrame(m', s) == TableFrame(m, s) && Tab(m', s) == Tab(m, s)
    ensures TablesOk(m')
  {
    assert SharedOk(m, id);
    assert Mappings(m, m.shFrame[id]) == {};
    forall s | s in m'.dir ensures TableOk(m', Tab(m', s)) {
      assert TableOk(m, Tab(m, s));
      forall i | FIRST_SHARED <= i < PT_ENTRIES ensures SharedEntry(m'.shFrame, Tab(m', s)[i]) {
        var w := Tab(m, s)[i];
        assert SharedEntry(m.shFrame, w);
        if w != ZERO_WORD {
          var j :| 0 <= j < |m.shFrame| && m.shFrame[j] == w.base;
          assert (s, i) !in Mappings(m, m.shFrame[id]);
          assert !MapsFrame(m, s, i, m.shFrame[id]);
          assert m'.shFrame[j] == w.base;
        }
      }
    }
  }

  lemma CleanupKeeps(m: Mem, id: int)
    requires Core(m) && 0 <= id < NUM_SHARED_PAGES && m.shFrame[id] != -1 && m.shRefs[id] == 0
    ensures Core(Cleanup(m, id))
  {
    var m' := Cleanup(m, id);
    SharedFrames(m, id);
    CleanupTables(m, id);
    CleanupClaims(m, m', id);
    CleanupTablesOk(m, m', id);
    forall k | 0 <= k < NUM_SHARED_PAGES ensures SharedOk(m', k) {
      assert SharedOk(m, k);
      SameMappings(m, m', m'.shFrame[k]);
      NothingMapsMinusOne(m');
    }
  }

  lemma CleanupInv(m: Mem, id: int)
    requires Core(m) && 0 <= id < NUM_SHARED_PAGES && m.shFrame[id] != -1 && m.shRefs[id] == 0
    requires forall k :: 0 <= k < NUM_SHARED_PAGES && k != id ==> MarkedInUse(m, k)
    ensures Inv(Cleanup(m, id))
  {
    CleanupKeeps(m, id);
    var m' := Cleanup(m, id);
    forall k | 0 <= k < NUM_SHARED_PAGES ensures MarkedInUse(m', k) {
      if k != id { assert MarkedInUse(m, k); }
    }
  }

  lemma SameMappings(m: Mem, m': Mem, f: int)
    requires m'.dir == m.dir
    requires forall s :: s in m.dir ==> Tab(m', s) == Tab(m, s)
    ensures Mappings(m', f) == Mappings(m, f)
  {
  }

  lemma NothingMapsMinusOne(m: Mem)
    ensures Mappings(m, -1) == {}
  {
  }

  lemma UnmapFacts(m: Mem, t: int, i: int, id: int)
    requires Core(m) && 0 <= id < NUM_SHARED_PAGES && MapsFrame(m, t, i, m.shFrame[id])
    ensures var m1 := SetEntry(m, TableFrame(m, t), i, ZERO_WORD).(shRefs := m.shRefs[id := m.shRefs[id] - 1]);
      Core(m1) && EntryReplaced(m, m1, t, i, ZERO_WORD)
  {
    var m1 := SetEntry(m, TableFrame(m, t), i, ZERO_WORD).(shRefs := m.shRefs[id := m.shRefs[id] - 1]);
    TablesAfter(m, t, i, ZERO_WORD);
    assert EntryReplaced(m, m1, t, i, ZERO_WORD);
    UnmapKeepsAll(m, m1, t, i, id);
  }

  lemma UnmapKeeps(m: Mem, t: int, i: int, id: int)
    requires Inv(m) && 0 <= id < NUM_SHARED_PAGES && MapsFrame(m, t, i, m.shFrame[id])
    ensures Inv(Unmap(m, t, i, id))
    ensures EntryReplaced(m, Unmap(m, t, i, id), t, i, ZERO_WORD)
  {
    var m1 := SetEntry(m, TableFrame(m, t), i, ZERO_WORD).(shRefs := m.shRefs[id := m.shRefs[id] - 1]);
    UnmapFacts(m, t, i, id);
    forall k | 0 <= k < NUM_SHARED_PAGES ensures MarkedInUse(m, k) && (k != id ==> MarkedInUse(m1, k)) {
      assert MarkedInUse(m, k);
    }
    assert SharedOk(m1, id);
    if m1.shRefs[id] == 0 && m1.shMark[id] == 1 {
      assert SharedOk(m, id);
      CleanupInv(m1, id);
      CleanupTables(m1, id);
    }
  }

  // ---------- giving a shared page a frame ----------

  /** The frame that alloc_frame would return has no owner. */
  lemma NextFreeIsFree(m: Mem)
    requires Core(m)
    ensures NextFree(m) != -1 ==> m.boot.lastKernel <= NextFree(m) < TOTAL_PAGES && NextFree(m) !in m.own
    ensures forall o :: NextFree(m) != -1 ==> !Claim(m, o, NextFree(m))
  {
    if NextFree(m) != -1 { assert NextFree(m) in FreeFrames(m); }
  }

  lemma UnownedIsUnmapped(m: Mem, f: int)
    requires Core(m) && f !in m.own
    ensures Mappings(m, f) == {}
  {
    forall t, i | t in m.dir && FIRST_SHARED <= i < PT_ENTRIES ensures !MapsFrame(m, t, i, f) {
      assert TableOk(m, Tab(m, t));
      var w := Tab(m, t)[i];
      assert SharedEntry(m.shFrame, w);
      if w.present && w.base == f {
        var j :| 0 <= j < |m.shFrame| && m.shFrame[j] == f;
        assert Claim(m, Shared(j), f);
      }
    }
  }

  lemma ProvideClaims(m: Mem, m': Mem, id: int, f0: int)
    requires Core(m) && 0 <= id < NUM_SHARED_PAGES && m.shFrame[id] == -1
    requires f0 !in m.own && 0 <= f0
    requires m' == m.(phys := m'.phys, own := m.own[f0 := Shared(id)], shFrame := m.shFrame[id := f0])
    ensures Exclusive(m')
  {
    forall o, f ensures Claim(m', o, f) <==> f in m'.own && m'.own[f] == o {
      assert Claim(m, o, f) <==> f in m.own && m.own[f] == o;
      assert Claim(m', o, f) <==> Claim(m, o, f) || (o == Shared(id) && f == f0);
    }
  }

  lemma ProvideKeeps(m: Mem, id: int)
    requires Inv(m) && 0 <= id < NUM_SHARED_PAGES
    ensures Inv(Provide(m, id))
    ensures Provide(m, id).shMark == m.shMark && Provide(m, id).dir == m.dir && Provide(m, id).ram == m.ram
    ensures Provide(m, id).shRefs == m.shRefs
  {
    var f0 := NextFree(m);
    assert SharedOk(m, id);
    if m.shFrame[id] == -1 {
      NextFreeIsFree(m);
      if f0 == -1 {
        assert Provide(m, id) == m;
      } else {
        var m' := Provide(m, id);
        ProvideClaims(m, m', id, f0);
        ProvideTables(m, m', id, f0);
      }
    }
  }

  lemma ProvideTables(m: Mem, m': Mem, id: int, f0: int)
    requires Inv(m) && Sized(m') && 0 <= id < NUM_SHARED_PAGES && m.shFrame[id] == -1
    requires f0 !in m.own && 0 <= f0
    requires m' == m.(phys := m'.phys, own := m'.own, shFrame := m.shFrame[id := f0])
    ensures TablesOk(m')
    ensures forall k :: 0 <= k < NUM_SHARED_PAGES ==> SharedOk(m', k) && MarkedInUse(m', k)
  {
    forall s | s in m'.dir ensures TableOk(m', Tab(m', s)) {
      assert TableOk(m, Tab(m, s));
      forall i | FIRST_SHARED <= i < PT_ENTRIES ensures SharedEntry(m'.shFrame, Tab(m', s)[i]) {
        var w := Tab(m, s)[i];
        assert SharedEntry(m.shFrame, w);
        if w != ZERO_WORD {
          var j :| 0 <= j < |m.shFrame| && m.shFrame[j] == w.base;
          assert m'.shFrame[j] == w.base;
        }
      }
    }
    forall k | 0 <= k < NUM_SHARED_PAGES ensures SharedOk(m', k) && MarkedInUse(m', k) {
      assert SharedOk(m, k) && MarkedInUse(m, k);
      SameMappings(m, m', m'.shFrame[k]);
      if k == id {
        UnownedIsUnmapped(m, f0);
        NothingMapsMinusOne(m);
      }
    }
  }

  // ---------- the three calls on shared pages ----------

  lemma ShmatKeeps(m: Mem, t: int, id: int, addr: Uint32)
    requires Inv(m) && t in m.dir
    ensures Inv(Shmat(m, t, id, addr).0)
  {
    if 0 <= id < NUM_SHARED_PAGES && m.shMark[id] != 1 {
      ProvideKeeps(m, id);
      var m1 := Provide(m, id);
      assert TableOk(m1, Tab(m1, t));
      var i := if addr != 0 then TableIndex(addr) else FirstAbsent(Tab(m1, t), FIRST_SHARED);
      if m1.shFrame[id] >= 0 && FIRST_SHARED <= i < PT_ENTRIES && !Tab(m1, t)[i].present {
        assert SharedEntry(m1.shFrame, Tab(m1, t)[i]);
        MapKeeps(m1, t, i, id);
      }
    }
  }

  lemma ShmdtKeeps(m: Mem, t: int, addr: Uint32)
    requires Inv(m) && t in m.dir
    ensures Inv(Shmdt(m, t, addr).0)
  {
    var i := TableIndex(addr);
    if addr % 4096 == 0 && FIRST_SHARED <= i < PT_ENTRIES && Tab(m, t)[i].present {
      var id := FindShared(m.shFrame, Tab(m, t)[i].base);
      if id != -1 { UnmapKeeps(m, t, i, id); }
    }
  }

  /** Marking a page keeps everything but, perhaps, the rule that a marked page is mapped. */
  lemma MarkedCore(m: Mem, id: int)
    requires Inv(m) && 0 <= id < NUM_SHARED_PAGES && m.shFrame[id] >= 0
    ensures var m1 := m.(shMark := m.shMark[id := 1]);
      Core(m1) && forall k :: 0 <= k < NUM_SHARED_PAGES && k != id ==> MarkedInUse(m1, k)
  {
    var m1 := m.(shMark := m.shMark[id := 1]);
    ClaimsFramed(m, m1);
    forall s | s in m1.dir ensures TableOk(m1, Tab(m1, s)) { assert TableOk(m, Tab(m, s)); }
    forall k | 0 <= k < NUM_SHARED_PAGES ensures SharedOk(m1, k) && (k != id ==> MarkedInUse(m1, k)) {
      assert SharedOk(m, k) && MarkedInUse(m, k);
      SameMappings(m, m1, m1.shFrame[k]);
    }
  }

  lemma ShmrmKeeps(m: Mem, id: int)
    requires Inv(m)
    ensures Inv(Shmrm(m, id).0)
  {
    if 0 <= id < NUM_SHARED_PAGES && m.shFrame[id] >= 0 {
      MarkedCore(m, id);
      var m1 := m.(shMark := m.shMark[id := 1]);
      assert SharedOk(m1, id);
      if m1.shRefs[id] == 0 { CleanupInv(m1, id); }
    }
  }

  // ---------- user stores ----------

  /**
   * A user mapping leads to a data page of the task, to the common code or to a shared page; never to a kernel frame.
   */
  lemma UserFrame(m: Mem, t: int, i: int)
    requires Core(m) && t in m.dir && 0 <= i < PT_ENTRIES && Tab(m, t)[i].present
    ensures Tab(m, t)[i].base in m.own
    ensures i < NUM_PAG_DATA ==> m.own[Tab(m, t)[i].base] == Data(t, i)
    ensures NUM_PAG_DATA <= i < FIRST_SHARED ==> m.own[Tab(m, t)[i].base] == Pinned && Tab(m, t)[i].base in m.boot.code
    ensures FIRST_SHARED <= i ==> m.own[Tab(m, t)[i].base].Shared?
  {
    TaskFrames(m, t);
    assert TableOk(m, Tab(m, t));
    var b := Tab(m, t)[i].base;
    if FIRST_SHARED <= i {
      assert SharedEntry(m.shFrame, Tab(m, t)[i]);
      var j :| 0 <= j < |m.shFrame| && m.shFrame[j] == b;
      assert Claim(m, Shared(j), b);
    } else if NUM_PAG_DATA <= i {
      assert b == m.boot.code[i - NUM_PAG_DATA];
      assert Claim(m, Pinned, b);
    }
  }

  lemma CopyOutTables(m: Mem, t: int, i: int, offset: int, w: Word)
    requires Core(m) && t in m.dir && 0 <= i < PT_ENTRIES && 0 <= offset < PT_ENTRIES
    ensures var m' := CopyOut(m, t, i, offset, w);
      forall s :: s in m.dir ==> TableFrame(m', s) == TableFrame(m, s) && Tab(m', s) == Tab(m, s)
  {
    if Tab(m, t)[i].present {
      UserFrame(m, t, i);
      forall s | s in m.dir ensures m.dir[s] != Tab(m, t)[i].base && TableFrame(m, s) != Tab(m, t)[i].base {
        TaskFrames(m, s);
      }
    }
  }

  lemma CopyOutKeeps(m: Mem, t: int, i: int, offset: int, w: Word)
    requires Inv(m) && t in m.dir && 0 <= i < PT_ENTRIES && 0 <= offset < PT_ENTRIES
    ensures Inv(CopyOut(m, t, i, offset, w))
  {
    var m' := CopyOut(m, t, i, offset, w);
    CopyOutTables(m, t, i, offset, w);
    ClaimsFramed(m, m');
    forall s | s in m'.dir ensures TableOk(m', Tab(m', s)) { assert TableOk(m, Tab(m, s)); }
    forall k | 0 <= k < NUM_SHARED_PAGES ensures SharedOk(m', k) && MarkedInUse(m', k) {
      assert SharedOk(m, k) && MarkedInUse(m, k);
      SameMappings(m, m', m.shFrame[k]);
    }
  }

  /** A user store does what copy_to_user would do, or nothing. */
  lemma StoreKeeps(m: Mem, t: int, i: int, offset: int, w: Word)
    requires Inv(m) && t in m.dir && 0 <= i < PT_ENTRIES && 0 <= offset < PT_ENTRIES
    ensures Inv(Store(m, t, i, offset, w))
    ensures Store(m, t, i, offset, w) == m || Store(m, t, i, offset, w) == CopyOut(m, t, i, offset, w)
  {
    CopyOutKeeps(m, t, i, offset, w);
  }
}
