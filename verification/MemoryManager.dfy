/**
 * The memory manager and the system calls on memory as they run: in place, on the byte map, the frames and the shared-
 * page arrays.
 */
module MemoryManager {
  import opened Machine
  import opened Sequences
  import opened Frames
  import opened Memory
  import opened MemoryInvariant
  import opened TaskLife
  import MR = MemoryRuns
  import Copy
  import opened PcbLists
  import opened LinkedMemory

  class Manager {
    const boot: Boot
    const phys: array<Byte>
    const ram: array<Page>
    const sharedFrames: array<int>
    const sharedRefs: array<int>
    const sharedMarked: array<int>
    /** dir_pages_baseAddr of each PCB, as a frame number. */
    var dir: map<int, int>
    ghost var own: map<int, Owner>

    ghost predicate Valid()
      reads this
    {
      && phys.Length == TOTAL_PAGES && ram.Length == TOTAL_PAGES
      && sharedFrames.Length == NUM_SHARED_PAGES && sharedRefs.Length == NUM_SHARED_PAGES
      && sharedMarked.Length == NUM_SHARED_PAGES
      && sharedFrames != sharedRefs && sharedFrames != sharedMarked && sharedRefs != sharedMarked
      && boot.lastKernel <= TOTAL_PAGES && |boot.code| == NUM_PAG_CODE
    }

    /** The memory state this object stands for. */
    ghost function Abs(): (m: Mem)
      requires Valid()
      reads this, phys, ram, sharedFrames, sharedRefs, sharedMarked
      ensures Sized(m)
    {
      Mem(phys[..], ram[..], own, sharedFrames[..], sharedRefs[..], sharedMarked[..], dir, boot)
    }

    /** The machine in a given state, such as the one that booting leaves. */
    constructor (m: Mem)
      requires Inv(m)
      ensures Valid() && Abs() == m
      ensures fresh(phys) && fresh(ram) && fresh(sharedFrames) && fresh(sharedRefs) && fresh(sharedMarked)
    {
      boot := m.boot;
      phys := new Byte[TOTAL_PAGES](i requires 0 <= i < TOTAL_PAGES => m.phys[i]);
      ram := new Page[TOTAL_PAGES](i requires 0 <= i < TOTAL_PAGES => m.ram[i]);
      sharedFrames := new int[NUM_SHARED_PAGES](i requires 0 <= i < NUM_SHARED_PAGES => m.shFrame[i]);
      sharedRefs := new int[NUM_SHARED_PAGES](i requires 0 <= i < NUM_SHARED_PAGES => m.shRefs[i]);
      sharedMarked := new int[NUM_SHARED_PAGES](i requires 0 <= i < NUM_SHARED_PAGES => m.shMark[i]);
      dir := m.dir;
      own := m.own;
    }

    // ---------- frames ----------

    /** init_frames */
    method InitFrames()
      requires Valid()
      modifies phys
      ensures phys[..] == MR.InitFrames(boot.lastKernel)
    {
      for i := 0 to TOTAL_PAGES
        invariant forall k :: 0 <= k < i ==> phys[k] == FREE_FRAME
      {
        phys[i] := FREE_FRAME;
      }
      if 0x10 < boot.lastKernel {
        for i := 0x10 to boot.lastKernel
          invariant forall k :: 0 <= k < TOTAL_PAGES ==> phys[k] == if 0x10 <= k < i then USED_FRAME else FREE_FRAME
        {
          phys[i] := USED_FRAME;
        }
      }
      phys[0x90] := USED_FRAME;
      for i := 0xA0 to 0x100
        invariant forall k :: 0 <= k < TOTAL_PAGES ==>
          phys[k] == if 0x10 <= k < boot.lastKernel || k == 0x90 || 0xA0 <= k < i then USED_FRAME else FREE_FRAME
      {
        phys[i] := USED_FRAME;
      }
    }

    /** init_shared_pages */
    method InitSharedPages()
      requires Valid()
      modifies sharedFrames, sharedRefs, sharedMarked
      ensures forall i :: 0 <= i < NUM_SHARED_PAGES ==>
        sharedFrames[i] == -1 && sharedRefs[i] == 0 && sharedMarked[i] == 0
    {
      for i := 0 to NUM_SHARED_PAGES
        invariant forall k :: 0 <= k < i ==> sharedFrames[k] == -1 && sharedRefs[k] == 0 && sharedMarked[k] == 0
      {
        sharedFrames[i] := -1;
        sharedRefs[i] := 0;
        sharedMarked[i] := 0;
      }
    }

    /** alloc_frame: the lowest free frame from last_kernel on, or -1. The caller records what it is for. */
    method AllocFrame() returns (f: int)
      requires Valid()
      modifies phys
      ensures f == NextFree(old(Abs()))
      ensures f != -1 ==> boot.lastKernel <= f < TOTAL_PAGES
      ensures phys[..] == if f == -1 then old(phys[..]) else old(phys[..])[f := USED_FRAME]
    {
      ghost var m := Abs();
      var i := boot.lastKernel;
      while i < TOTAL_PAGES
        invariant boot.lastKernel <= i <= TOTAL_PAGES
        invariant forall k :: boot.lastKernel <= k < i ==> phys[k] != FREE_FRAME
        invariant phys[..] == m.phys
      {
        if phys[i] == FREE_FRAME {
          LeastIsNext(m, i);
          phys[i] := USED_FRAME;
          return i;
        }
        i := i + 1;
      }
      NoneIsNext(m);
      return -1;
    }

    /** free_frame */
    method FreeFrame(frame: int)
      requires Valid() && 0 <= frame
      modifies phys
      ensures phys[..] == if frame < TOTAL_PAGES then old(phys[..])[frame := FREE_FRAME] else old(phys[..])
    {
      if frame < TOTAL_PAGES {
        phys[frame] := FREE_FRAME;
      }
    }

    /** The unused frames that sys_get_stats(1) counts. */
    method SysGetStats(kind: int) returns (r: int)
      requires Valid()
      requires forall f :: 0 <= f < TOTAL_PAGES ==> phys[f] == FREE_FRAME || phys[f] == USED_FRAME
      ensures kind == 0 ==> r == TOTAL_PAGES
      ensures kind == 1 ==> r == Balance.Unused(Abs())
      ensures kind != 0 && kind != 1 ==> r == -EINVAL
    {
      if kind == 0 { return TOTAL_PAGES; }
      if kind == 1 {
        var count, i := 0, 0;
        while i < TOTAL_PAGES
          invariant 0 <= i <= TOTAL_PAGES
          invariant count + |FreeFrom(phys[..], i)| == |FreeFrom(phys[..], 0)|
        {
          if phys[i] != USED_FRAME {
            count := count + 1;
          }
          i := i + 1;
        }
        return count;
      }
      return -EINVAL;
    }

    // ---------- entries ----------

    /** set_ss_pag */
    method SetSsPag(table: int, page: int, frame: int, user: bool)
      requires Valid() && 0 <= table < TOTAL_PAGES && 0 <= page < PT_ENTRIES
      modifies ram
      ensures Abs() == SetEntry(old(Abs()), table, page, Pte(ToBase(frame), user))
    {
      ram[table] := ram[table][page := Pte(ToBase(frame), user)];
    }

    /** del_ss_pag */
    method DelSsPag(table: int, page: int)
      requires Valid() && 0 <= table < TOTAL_PAGES && 0 <= page < PT_ENTRIES
      modifies ram
      ensures Abs() == SetEntry(old(Abs()), table, page, ZERO_WORD)
    {
      ram[table] := ram[table][page := ZERO_WORD];
    }

    /** clear_page_table */
    method ClearPageTable(table: int)
      requires Valid() && 0 <= table < TOTAL_PAGES
      modifies ram
      ensures Abs() == SetPage(old(Abs()), table, ZeroPage())
    {
      ghost var m := Abs();
      for i := 0 to PT_ENTRIES
        invariant Abs() == SetPage(m, table, ram[table])
        invariant forall k :: 0 <= k < i ==> ram[table][k] == ZERO_WORD
      {
        ram[table] := ram[table][i := ZERO_WORD];
      }
      assert ram[table] == ZeroPage();
    }

    /** The search for the shared page that a frame belongs to. */
    method FindSharedPage(frame: int) returns (id: int)
      requires Valid()
      ensures id == FindShared(sharedFrames[..], frame)
    {
      var i := 0;
      while i < NUM_SHARED_PAGES
        invariant 0 <= i <= NUM_SHARED_PAGES
        invariant forall k :: 0 <= k < i ==> sharedFrames[k] != frame
        invariant FindShared(sharedFrames[..], frame) == FindSharedFrom(sharedFrames[..], frame, i)
      {
        if sharedFrames[i] == frame { return i; }
        i := i + 1;
      }
      return -1;
    }

    // ---------- list.c on the words of PCBs ----------

    method WriteWord(p: Place, w: Word)
      requires Valid()
      modifies ram
      ensures ram[..] == Put(old(ram[..]), p, w)
    {
      if p.frame < TOTAL_PAGES {
        ram[p.frame] := ram[p.frame][p.index := w];
      }
    }

    method ReadWord(p: Place) returns (w: Word)
      requires Valid()
      ensures w == WordAt(ram[..], p)
    {
      return if p.frame < TOTAL_PAGES then ram[p.frame][p.index] else ZERO_WORD;
    }

    method InitListHead(h: Place)
      requires Valid()
      modifies ram
      ensures ram[..] == InitHead(old(ram[..]), h)
    {
      WriteWord(h, Pointer(h));
      WriteWord(Plus(h, 1), Pointer(h));
    }

    method ListAddTail(n: Place, h: Place)
      requires Valid()
      modifies ram
      ensures ram[..] == AddTail(old(ram[..]), n, h)
    {
      var prev := ReadWord(Plus(h, 1));
      WriteWord(Plus(h, 1), Pointer(n));
      WriteWord(n, Pointer(h));
      WriteWord(Plus(n, 1), Pointer(Target(prev)));
      WriteWord(Target(prev), Pointer(n));
    }

    method ListDel(e: Place)
      requires Valid()
      modifies ram
      ensures ram[..] == Del(old(ram[..]), e)
    {
      var next := ReadWord(e);
      var prev := ReadWord(Plus(e, 1));
      WriteWord(Plus(Target(next), 1), Pointer(Target(prev)));
      WriteWord(Target(prev), Pointer(Target(next)));
      WriteWord(e, ZERO_WORD);
      WriteWord(Plus(e, 1), ZERO_WORD);
    }

    // ---------- shared pages ----------

    /** cleanup_shared_page: the frame is zeroed through the kernel window, then everything about the page is reset. */
    method CleanupSharedPage(id: int)
      requires Valid() && 0 <= id < NUM_SHARED_PAGES && 0 <= sharedFrames[id] < TOTAL_PAGES
      modifies this`own, phys, ram, sharedFrames, sharedRefs, sharedMarked
      ensures Abs() == Cleanup(old(Abs()), id)
    {
      ghost var m := Abs();
      var f := sharedFrames[id];
      for i := 0 to PT_ENTRIES
        invariant Abs() == SetPage(m, f, ram[f])
        invariant forall k :: 0 <= k < i ==> ram[f][k] == ZERO_WORD
      {
        ram[f] := ram[f][i := ZERO_WORD];
      }
      assert ram[f] == ZeroPage();
      FreeFrame(sharedFrames[id]);
      own := own - {f};
      sharedFrames[id] := -1;
      sharedMarked[id] := 0;
      sharedRefs[id] := 0;
    }

    /** Lets go of the mapping at index i of a task's table, as exit and shmdt do. */
    method UnmapShared(t: int, i: int, id: int)
      requires Valid() && Inv(Abs())
      requires 0 <= id < NUM_SHARED_PAGES && MapsFrame(Abs(), t, i, sharedFrames[id])
      modifies this`own, phys, ram, sharedFrames, sharedRefs, sharedMarked
      ensures Abs() == Unmap(old(Abs()), t, i, id)
    {
      ghost var m := Abs();
      assert 0 <= TableFrame(m, t) < TOTAL_PAGES && 0 <= dir[t] < TOTAL_PAGES by { TaskFrames(m, t); }
      assert 0 <= sharedFrames[id] < TOTAL_PAGES by { assert SharedOk(m, id); SharedFrames(m, id); }
      DelSsPag(ram[dir[t]][2].base, i);
      sharedRefs[id] := sharedRefs[id] - 1;
      if sharedRefs[id] == 0 && sharedMarked[id] == 1 {
        CleanupSharedPage(id);
      }
    }

    /** The first part of shmat: a page without a frame gets one, if there is one. */
    method ProvideFrame(id: int)
      requires Valid() && Inv(Abs()) && 0 <= id < NUM_SHARED_PAGES
      modifies this`own, phys, sharedFrames
      ensures Abs() == Provide(old(Abs()), id)
    {
      ghost var m := Abs();
      if sharedFrames[id] < 0 {
        var f := AllocFrame();
        sharedFrames[id] := f;
        if f >= 0 { own := own[f := Shared(id)]; }
      }
    }

    /** The search for a free place in a user table. */
    method FindAbsent(pt: int) returns (i: int)
      requires Valid() && 0 <= pt < TOTAL_PAGES
      ensures i == FirstAbsent(ram[pt], FIRST_SHARED)
    {
      i := FIRST_SHARED;
      while i < PT_ENTRIES && ram[pt][i].present
        invariant FIRST_SHARED <= i <= PT_ENTRIES
        invariant FirstAbsent(ram[pt], FIRST_SHARED) == FirstAbsent(ram[pt], i)
      {
        i := i + 1;
      }
    }

    /** The last part of shmat. */
    method MapShared(t: int, i: int, id: int)
      requires Valid() && Inv(Abs()) && t in dir && 0 <= i < PT_ENTRIES && 0 <= id < NUM_SHARED_PAGES
      modifies ram, sharedRefs
      ensures Abs() == Map(old(Abs()), t, i, id)
    {
      assert 0 <= TableFrame(Abs(), t) < TOTAL_PAGES && 0 <= dir[t] < TOTAL_PAGES by { TaskFrames(Abs(), t); }
      SetSsPag(ram[dir[t]][2].base, i, sharedFrames[id], true);
      sharedRefs[id] := sharedRefs[id] + 1;
    }

    method SysShmat(t: int, id: int, addr: Uint32) returns (r: int)
      requires Valid() && Inv(Abs()) && t in dir
      modifies this`own, phys, ram, sharedFrames, sharedRefs
      ensures (Abs(), r) == Shmat(old(Abs()), t, id, addr)
      ensures Inv(Abs())
    {
      ghost var m := Abs();
      ShmatKeeps(m, t, id, addr);
      if id < 0 || id >= NUM_SHARED_PAGES { return -EINVAL; }
      if sharedMarked[id] == 1 { return -EINVAL; }
      ProvideKeeps(m, id);
      ProvideFrame(id);
      if sharedFrames[id] < 0 { return -ENOMEM; }
      assert 0 <= TableFrame(Abs(), t) < TOTAL_PAGES && 0 <= dir[t] < TOTAL_PAGES by { TaskFrames(Abs(), t); }
      var pt := ram[dir[t]][2].base;
      if addr != 0 {
        if addr % 4096 != 0 { return -EINVAL; }
        var ptIdx := TableIndex(addr);
        if ptIdx < FIRST_SHARED || ptIdx >= PT_ENTRIES { return -EINVAL; }
        if ram[pt][ptIdx].present {
          if ram[pt][ptIdx].base == sharedFrames[id] { return addr / 4096 * 4096; }
          return -EINVAL;
        }
        MapShared(t, ptIdx, id);
        return addr / 4096 * 4096;
      } else {
        var ptIdx := FindAbsent(pt);
        if ptIdx == PT_ENTRIES { return -ENOMEM; }
        MapShared(t, ptIdx, id);
        return UserAddress(ptIdx);
      }
    }

    method SysShmdt(t: int, addr: Uint32) returns (r: int)
      requires Valid() && Inv(Abs()) && t in dir
      modifies this`own, phys, ram, sharedFrames, sharedRefs, sharedMarked
      ensures (Abs(), r) == Shmdt(old(Abs()), t, addr)
      ensures Inv(Abs())
    {
      ghost var m := Abs();
      ShmdtKeeps(m, t, addr);
      if addr % 4096 != 0 { return -EINVAL; }
      var ptIdx := TableIndex(addr);
      if ptIdx < FIRST_SHARED || ptIdx >= PT_ENTRIES { return -EINVAL; }
      assert 0 <= TableFrame(m, t) < TOTAL_PAGES && 0 <= dir[t] < TOTAL_PAGES by { TaskFrames(m, t); }
      var pt := ram[dir[t]][2].base;
      if !ram[pt][ptIdx].present { return -EINVAL; }
      var id := FindSharedPage(ram[pt][ptIdx].base);
      if id == -1 { return -EINVAL; }
      UnmapShared(t, ptIdx, id);
      return 0;
    }

    method SysShmrm(id: int) returns (r: int)
      requires Valid() && Inv(Abs())
      modifies this`own, phys, ram, sharedFrames, sharedRefs, sharedMarked
      ensures (Abs(), r) == Shmrm(old(Abs()), id)
      ensures Inv(Abs())
    {
      ghost var m := Abs();
      ShmrmKeeps(m, id);
      if id < 0 || id >= NUM_SHARED_PAGES { return -EINVAL; }
      if sharedFrames[id] < 0 { return -EINVAL; }
      sharedMarked[id] := 1;
      if sharedRefs[id] == 0 {
        SharedFrames(m, id);
        CleanupSharedPage(id);
      }
      return 0;
    }

    // ---------- exit ----------

    /** free_user_pages */
    method FreeUserPages(ut: int)
      requires Valid() && 0 <= ut < TOTAL_PAGES
      modifies phys, ram
      ensures phys[..] == Marked(old(phys[..]), DataFrames(old(ram[ut])), FREE_FRAME)
      ensures ram[..] == old(ram[..])[ut := ClearData(old(ram[ut]))]
    {
      ghost var tab := ram[ut];
      ghost var data := DataFrames(tab);
      var pag := 0;
      while pag < NUM_PAG_DATA
        invariant 0 <= pag <= NUM_PAG_DATA
        invariant forall f :: 0 <= f < TOTAL_PAGES ==> phys[f] == if f in data[..pag] then FREE_FRAME else old(phys[f])
        invariant forall i :: 0 <= i < PT_ENTRIES ==> ram[ut][i] == if i < pag then ZERO_WORD else tab[i]
        invariant forall f :: 0 <= f < TOTAL_PAGES && f != ut ==> ram[f] == old(ram[f])
      {
        assert data[..pag + 1] == data[..pag] + [ram[ut][pag].base];
        FreeFrame(ram[ut][pag].base);
        ram[ut] := ram[ut][pag := ZERO_WORD];
        pag := pag + 1;
      }
      assert data[..NUM_PAG_DATA] == data;
      assert ram[ut] == ClearData(tab);
    }

    /** One round of the first part of exit: an entry that maps a shared page is let go. */
    method DetachEntry(t: int, i: int)
      requires Valid() && Inv(Abs()) && t in dir && FIRST_SHARED <= i < PT_ENTRIES
      modifies this`own, phys, ram, sharedFrames, sharedRefs, sharedMarked
      ensures t in old(Abs()).dir && Sized(old(Abs()))
      ensures DetachFrom(old(Abs()), t, i) == DetachFrom(Abs(), t, i + 1)
      ensures Inv(Abs())
    {
      DetachOne(Abs(), t, i);
      TaskFrames(Abs(), t);
      var w := ram[ram[dir[t]][2].base][i];
      if w.present {
        var id := FindSharedPage(w.base);
        if id != -1 {
          UnmapShared(t, i, id);
        }
      }
    }

    /** The first part of exit: every shared page the task maps is let go. */
    method DetachAll(t: int)
      requires Valid() && Inv(Abs()) && t in dir
      modifies this`own, phys, ram, sharedFrames, sharedRefs, sharedMarked
      ensures Abs() == DetachFrom(old(Abs()), t, FIRST_SHARED) && Inv(Abs())
    {
      var i := FIRST_SHARED;
      while i < PT_ENTRIES
        invariant FIRST_SHARED <= i <= PT_ENTRIES
        invariant Inv(Abs())
        invariant DetachFrom(Abs(), t, i) == DetachFrom(old(Abs()), t, FIRST_SHARED)
      {
        DetachEntry(t, i);
        i := i + 1;
      }
    }

    /** The last part of exit: the task's own frames are given back. */
    method FreeTask(t: int)
      requires Valid() && Core(Abs()) && t in dir
      modifies this, phys, ram
      ensures Abs() == TearDown(old(Abs()), t)
    {
      ghost var m := Abs();
      TaskFrames(m, t);
      var ut := ram[dir[t]][2].base;
      FreeUserPages(ut);
      FreeFrame(ut);
      DelSsPag(dir[t], 2);
      FreeFrame(dir[t]);
      FreeFrame(t);
      dir := dir - {t};
      own := own - (set f | f in TaskFrameList(m, t));
      ThreeMore(m.phys, DataFrames(Tab(m, t)), ut, m.dir[t], t);
    }

    /** exit, with the list_del of its free_pcb. Its guard is what keeps memory as it should be (ExitGuardIsExact). */
    method SysExit(t: int)
      requires Valid() && Inv(Abs()) && t in dir
      modifies this, phys, ram, sharedFrames, sharedRefs, sharedMarked
      ensures Abs() == LinkedExit(old(Abs()), t)
    {
      ExitKeeps(Abs(), t);
      DetachAll(t);
      FreeTask(t);
      ListDel(Member(t, TASK_LIST));
    }

    // ---------- fork ----------

    /** alloc_frame when the first k of the frames free in m have been taken since. */
    method AllocNth(ghost m: Mem, ghost k: nat) returns (f: int)
      requires Valid() && Sized(m) && m.boot == boot && k <= |FreeFrames(m)|
      requires phys[..] == Marked(m.phys, FreeFrames(m)[..k], USED_FRAME)
      modifies phys
      ensures k < |FreeFrames(m)| ==> boot.lastKernel <= f < TOTAL_PAGES
      ensures k < |FreeFrames(m)| ==>
        f == FreeFrames(m)[k] && phys[..] == Marked(m.phys, FreeFrames(m)[..k + 1], USED_FRAME)
      ensures k == |FreeFrames(m)| ==> f == -1 && phys[..] == old(phys[..])
    {
      UseLowest(m.phys, boot.lastKernel, k);
      f := AllocFrame();
      assert forall j :: 0 <= j < |FreeFrames(m)| ==> FreeFrames(m)[j] in FreeFrames(m);
      if k < |FreeFrames(m)| { MarkNext(m.phys, FreeFrames(m), k); }
    }

    /** allocate_DIR: the child keeps the directory it was copied with when no frame is free. */
    method AllocateDir(c: int, t: int, ghost m: Mem) returns (d: int)
      requires Valid() && Sized(m) && m.boot == boot && 1 <= |FreeFrames(m)|
      requires phys[..] == Marked(m.phys, FreeFrames(m)[..1], USED_FRAME)
      requires t in dir && 0 <= dir[t] < TOTAL_PAGES && dir[t] !in FreeFrames(m) && c != t
      modifies this`dir, phys, ram
      ensures |FreeFrames(m)| == 1 ==>
        d == -1 && phys[..] == old(phys[..]) && ram[..] == old(ram[..]) && dir == old(dir)
      ensures |FreeFrames(m)| >= 2 ==> boot.lastKernel <= d < TOTAL_PAGES && d == FreeFrames(m)[1]
      ensures |FreeFrames(m)| >= 2 ==> phys[..] == Marked(m.phys, FreeFrames(m)[..2], USED_FRAME)
      ensures |FreeFrames(m)| >= 2 ==> dir == old(dir)[c := d] && ram[..] == old(ram[..])[d := NewDir(old(ram[dir[t]]))]
    {
      d := AllocNth(m, 1);
      if d < 0 { return -1; }
      assert d in FreeFrames(m);
      ghost var parent := ram[dir[t]];
      dir := dir[c := d];
      ClearPageTable(d);
      ram[d] := ram[d][0 := ram[dir[t]][0]];
      ram[d] := ram[d][1 := ram[dir[t]][1]];
    }

    /** The child's table gets the parent's code. */
    method ShareCode(ut: int, parent: int)
      requires Valid() && 0 <= ut < TOTAL_PAGES && 0 <= parent < TOTAL_PAGES && ut != parent
      requires ram[ut] == ZeroPage()
      modifies ram
      ensures ram[..] == old(ram[..])[ut := ChildTable(old(ram[parent]), [])]
    {
      ghost var p := ram[parent];
      for i := 0 to NUM_PAG_CODE
        invariant forall f :: 0 <= f < TOTAL_PAGES && f != ut ==> ram[f] == old(ram[f])
        invariant forall k :: 0 <= k < PT_ENTRIES ==>
          ram[ut][k] == if NUM_PAG_DATA <= k < NUM_PAG_DATA + i then Pte(p[k].base, true) else ZERO_WORD
      {
        var frame := ram[parent][NUM_PAG_DATA + i].base;
        SetSsPag(ut, NUM_PAG_DATA + i, frame, true);
      }
      assert ram[ut] == ChildTable(p, []);
    }

    /** Gives back the frames of a list, in order. */
    method FreeEach(data: seq<int>)
      requires Valid() && forall f :: f in data ==> 0 <= f
      modifies phys
      ensures phys[..] == Marked(old(phys[..]), data, FREE_FRAME)
    {
      for j := 0 to |data|
        invariant phys[..] == Marked(old(phys[..]), data[..j], FREE_FRAME)
      {
        assert data[..j + 1] == data[..j] + [data[j]] && data[j] in data;
        FreeFrame(data[j]);
      }
      assert data[..|data|] == data;
    }

    /** Frames for the child's data, mapped as they come; on failure everything taken for them is given back. */
    method AllocData(ghost m: Mem, parent: int, ut: int) returns (ok: bool, data: seq<int>)
      requires Valid() && Sized(m) && m.boot == boot && 3 <= |FreeFrames(m)|
      requires 0 <= ut < TOTAL_PAGES && 0 <= parent < TOTAL_PAGES && ut != parent
      requires phys[..] == Marked(m.phys, FreeFrames(m)[..3], USED_FRAME)
      requires ram[ut] == ChildTable(ram[parent], [])
      modifies phys, ram
      ensures ok == (FRAMES_PER_TASK <= |FreeFrames(m)|)
      ensures data == if ok then FreeFrames(m)[3..FRAMES_PER_TASK] else FreeFrames(m)[3..]
      ensures |data| <= NUM_PAG_DATA && ram[..] == old(ram[..])[ut := ChildTable(old(ram[parent]), data)]
      ensures phys[..] == Marked(m.phys, FreeFrames(m)[..if ok then FRAMES_PER_TASK else 3], USED_FRAME)
    {
      ghost var fs := FreeFrames(m);
      data := [];
      for i := 0 to NUM_PAG_DATA
        invariant 3 + i <= |fs| && data == fs[3..3 + i]
        invariant phys[..] == Marked(m.phys, fs[..3 + i], USED_FRAME)
        invariant ram[..] == old(ram[..])[ut := ChildTable(old(ram[parent]), data)]
      {
        var f := AllocNth(m, 3 + i);
        if f < 0 {
          assert fs[..3 + i] == fs && data == fs[3..];
          assert forall x :: x in data ==> x in fs;
          FreeEach(data);
          DataGivenBack(m);
          return false, data;
        }
        SetSsPag(ut, i, f, true);
        NextDataEntry(old(ram[parent]), data, f);
        assert fs[3..3 + i] + [fs[3 + i]] == fs[3..3 + (i + 1)];
        data := data + [f];
      }
      return true, data;
    }

    /** copy_data of one page to another. Byte by byte, that is the loop of copy_data. */
    method CopyPage(src: int, dst: int)
      requires Valid() && 0 <= src < TOTAL_PAGES && 0 <= dst < TOTAL_PAGES
      modifies ram
      ensures ram[..] == old(ram[..])[dst := old(ram[src])]
      ensures Copy.Fits(Copy.Bytes(old(ram[..])), 4096 * src, 4096 * dst, 4096)
      ensures Copy.Bytes(ram[..]) == Copy.WordLoop(Copy.Bytes(old(ram[..])), 4096 * src, 4096 * dst, 4096)
    {
      ghost var before := ram[..];
      Copy.PageIsCopied(before, src, dst);
      ram[dst] := ram[src];
      assert ram[..] == before[dst := before[src]];
    }

    /** The same, frame by frame. */
    method CopyFrame(src: int, dst: int)
      requires Valid() && 0 <= src < TOTAL_PAGES && 0 <= dst < TOTAL_PAGES
      modifies ram
      ensures ram[dst] == old(ram[src]) && forall f :: 0 <= f < TOTAL_PAGES && f != dst ==> ram[f] == old(ram[f])
    {
      CopyPage(src, dst);
    }

    /** The physical copy of the data pages, read through the parent's table and written through the kernel window. */
    method CopyData(parent: int, data: seq<int>)
      requires Valid() && 0 <= parent < TOTAL_PAGES && |data| == NUM_PAG_DATA && Distinct(data)
      requires parent !in data && forall k :: 0 <= k < NUM_PAG_DATA ==> 0 <= data[k] < TOTAL_PAGES
      requires forall i :: 0 <= i < NUM_PAG_DATA ==> ram[parent][i].base !in data
      requires forall i :: 0 <= i < NUM_PAG_DATA ==> ram[parent][i].base < TOTAL_PAGES
      modifies ram
      ensures Abs() == CopyPages(old(Abs()), data, DataFrames(old(ram[parent])))
    {
      ghost var m, src := Abs(), DataFrames(ram[parent]);
      for i := 0 to NUM_PAG_DATA
        invariant forall f :: 0 <= f < TOTAL_PAGES && f !in data ==> ram[f] == m.ram[f]
        invariant forall k :: 0 <= k < i ==> ram[data[k]] == m.ram[src[k]]
      {
        CopyFrame(ram[parent][i].base, data[i]);
        assert forall k :: 0 <= k < i ==> data[k] != data[i];
      }
      PagesCopied(m, ram[..], data, src);
    }

    /** One round of inheriting: an entry of the parent that maps a shared page is mapped in the child. */
    method InheritEntry(t: int, c: int, i: int)
      requires Valid() && Inv(Abs()) && t in dir && c in dir && c != t && FIRST_SHARED <= i < PT_ENTRIES
      requires Tab(Abs(), c)[i] == ZERO_WORD
      modifies ram, sharedRefs
      ensures t in old(Abs()).dir && c in old(Abs()).dir && Sized(old(Abs()))
      ensures Inherit(old(Abs()), t, c, i) == Inherit(Abs(), t, c, i + 1)
      ensures Inv(Abs())
      ensures forall j :: i < j < PT_ENTRIES ==> Tab(Abs(), c)[j] == old(Tab(Abs(), c))[j]
    {
      TaskFrames(Abs(), t);
      var w := ram[ram[dir[t]][2].base][i];
      if w.present {
        var id := FindSharedPage(w.base);
        if id != -1 {
          MapKeeps(Abs(), c, i, id);
          MapShared(c, i, id);
        }
      }
    }

    /** The child takes over the parent's mappings of shared pages. */
    method InheritAll(t: int, c: int)
      requires Valid() && Inv(Abs()) && t in dir && c in dir && c != t
      requires forall j :: FIRST_SHARED <= j < PT_ENTRIES ==> Tab(Abs(), c)[j] == ZERO_WORD
      modifies ram, sharedRefs
      ensures Abs() == Inherit(old(Abs()), t, c, FIRST_SHARED)
    {
      var i := FIRST_SHARED;
      while i < PT_ENTRIES
        invariant FIRST_SHARED <= i <= PT_ENTRIES
        invariant Inv(Abs())
        invariant forall j :: i <= j < PT_ENTRIES ==> Tab(Abs(), c)[j] == ZERO_WORD
        invariant Inherit(Abs(), t, c, i) == Inherit(old(Abs()), t, c, FIRST_SHARED)
      {
        InheritEntry(t, c, i);
        i := i + 1;
      }
    }

    /**
     * alloc_pcb: a PCB, linked into list_tasks. The `list` links that it clears are overwritten by the copy of the
     * parent.
     */
    method AllocPcb(tasks: Place) returns (c: int)
      requires Valid()
      modifies phys, ram
      ensures var fs := FreeFrames(old(Abs()));
        && (fs == [] ==> c == -1 && Abs() == old(Abs()))
        && (fs != [] ==> 0 <= c && c == fs[0] && phys[..] == Marked(old(phys[..]), fs[..1], USED_FRAME))
        && (fs != [] ==> ram[..] == Enlist(old(ram[..]), c, tasks))
    {
      ghost var m := Abs();
      assert Marked(m.phys, [], USED_FRAME) == m.phys;
      c := AllocNth(m, 0);
      if c < 0 { return -1; }
      InitListHead(Member(c, TASK_LIST));
      ListAddTail(Member(c, TASK_LIST), tasks);
    }

    /**
     * The copy of the parent's PCB and the directory of the child, whose PCB has the first free frame; with no other
     * frame left, the child goes on sharing the parent's directory.
     */
    method StartChild(t: int, c: int, ghost m: Mem) returns (d: int)
      requires Valid() && Inv(m) && t in m.dir && m.boot == boot && FreeFrames(m) != [] && c == FreeFrames(m)[0]
      requires c != t
      requires 0 <= t < TOTAL_PAGES && 0 <= c < TOTAL_PAGES && 0 <= m.dir[t] < TOTAL_PAGES && m.dir[t] !in FreeFrames(m)
      requires c !in m.dir
      requires dir == m.dir && ram[..] == m.ram && phys[..] == Marked(m.phys, FreeFrames(m)[..1], USED_FRAME)
      modifies this`dir, phys, ram
      ensures c in dir && dir - {c} == m.dir
      ensures |FreeFrames(m)| == 1 ==> phys[..] == Marked(m.phys, FreeFrames(m)[..1], USED_FRAME)
      ensures |FreeFrames(m)| == 1 ==> ram[..] == SetPage(m, c, PageAt(m, t)).ram
      ensures |FreeFrames(m)| >= 2 ==> d == FreeFrames(m)[1] && dir == m.dir[c := d]
      ensures |FreeFrames(m)| >= 2 ==> phys[..] == Marked(m.phys, FreeFrames(m)[..2], USED_FRAME)
      ensures |FreeFrames(m)| >= 2 ==>
        ram[..] == SetPage(SetPage(m, c, PageAt(m, t)), d, NewDir(PageAt(m, m.dir[t]))).ram
    {
      assert m.dir[t] != c by { assert c in FreeFrames(m); }
      CopyPcb(t, c);
      assert dir - {c} == m.dir;
      d := AllocateDir(c, t, m);
    }

    /** The child's PCB starts as its parent's. */
    method CopyPcb(t: int, c: int)
      requires Valid() && t in dir && 0 <= t < TOTAL_PAGES && 0 <= c < TOTAL_PAGES
      modifies this`dir, ram
      ensures ram[..] == old(ram[..])[c := old(ram[t])] && dir == old(dir)[c := old(dir)[t]]
    {
      CopyPage(t, c);
      dir := dir[c := dir[t]];
    }

    /** The child's user table: entered in its directory, with the parent's code. */
    method StartTable(t: int, c: int, d: int, u: int, ghost m: Mem)
      requires Valid() && Inv(m) && Sized(m) && t in m.dir && m.boot == boot
      requires c !in m.own && d !in m.own && u !in m.own && c != d && c != u && d != u
      requires 0 <= c < TOTAL_PAGES && 0 <= d < TOTAL_PAGES && 0 <= u < TOTAL_PAGES
      requires dir == m.dir[c := d]
      requires ram[..] == SetPage(SetPage(m, c, PageAt(m, t)), d, NewDir(PageAt(m, m.dir[t]))).ram
      modifies ram
      ensures ram[..] == Construct(m, t, c, d, u, []).ram
    {
      TaskFrames(m, t);
      ClearPageTable(u);
      SetSsPag(dir[c], 2, u, true);
      ShareCode(u, ram[dir[t]][2].base);
      ConstructFirst(m, t, c, d, u);
    }

    /** The data of a fork that has its 23 frames is copied; the frames are the child's from now on. */
    method FillChild(t: int, ghost g: Grant, data: seq<int>, ghost m: Mem)
      requires Valid() && Inv(m) && t in m.dir && Affords(m, g) && m.boot == boot && g.data == data
      requires own == m.own && dir == m.dir[g.pcb := g.dir] && t in dir
      requires phys[..] == Marked(m.phys, Granted(g), USED_FRAME)
      requires ram[..] == Construct(m, t, g.pcb, g.dir, g.table, data).ram
      requires sharedFrames[..] == m.shFrame && sharedRefs[..] == m.shRefs && sharedMarked[..] == m.shMark
      modifies this`own, ram
      ensures Abs() == Birth(m, t, g)
    {
      TaskFrames(m, t);
      ConstructedPages(m, t, g);
      ghost var before := Abs();
      CopyData(ram[dir[t]][2].base, data);
      own := m.own + ChildOwners(g);
      BirthIs(m, t, g, before, Abs());
    }

    /** The end of such a fork: the shared pages are inherited. */
    method FinishChild(t: int, ghost g: Grant, c: int, data: seq<int>, ghost m: Mem)
      requires Valid() && Inv(m) && t in m.dir && Affords(m, g) && m.boot == boot && g.data == data && g.pcb == c
      requires own == m.own && dir == m.dir[c := g.dir]
      requires phys[..] == Marked(m.phys, Granted(g), USED_FRAME)
      requires ram[..] == Construct(m, t, c, g.dir, g.table, data).ram
      requires sharedFrames[..] == m.shFrame && sharedRefs[..] == m.shRefs && sharedMarked[..] == m.shMark
      modifies this`own, ram, sharedRefs
      ensures Abs() == Inherit(Birth(m, t, g), t, c, FIRST_SHARED)
    {
      FillChild(t, g, data, m);
      ReadyToInherit(m, t, g, Abs());
      InheritAll(t, c);
    }

    /** Gives up a fork that got no user table. */
    method GiveUpEarly(c: int, ghost d: int, t: int, ghost m: Mem)
      requires Valid() && Inv(m) && t in m.dir && m.boot == boot
      requires 1 <= |FreeFrames(m)| <= 2 && c == FreeFrames(m)[0] && 0 <= c < TOTAL_PAGES
      requires own == m.own && dir - {c} == m.dir
      requires sharedFrames[..] == m.shFrame && sharedRefs[..] == m.shRefs && sharedMarked[..] == m.shMark
      requires phys[..] == Marked(m.phys, FreeFrames(m), USED_FRAME)
      requires |FreeFrames(m)| == 1 ==> ram[..] == SetPage(m, c, PageAt(m, t)).ram
      requires |FreeFrames(m)| == 2 ==> d == FreeFrames(m)[1] && 0 <= d < TOTAL_PAGES
      requires |FreeFrames(m)| == 2 ==>
        ram[..] == SetPage(SetPage(m, c, PageAt(m, t)), d, NewDir(PageAt(m, m.dir[t]))).ram
      modifies this, phys
      ensures Abs() == Rollback(m, t, FreeFrames(m))
    {
      ghost var fs := FreeFrames(m);
      assert c in fs && m.phys[c] == FREE_FRAME;
      FreeFrame(c);
      dir := dir - {c};
      if |fs| == 2 { own := own[d := Leaked]; }
    }

    /** Gives up a fork that got too few data frames; those it got have been given back. */
    method GiveUpLate(c: int, u: int, t: int, ghost m: Mem)
      requires Valid() && Inv(m) && t in m.dir && m.boot == boot
      requires 3 <= |FreeFrames(m)| < FRAMES_PER_TASK && c == FreeFrames(m)[0] && u == FreeFrames(m)[2]
      requires 0 <= c < TOTAL_PAGES && 0 <= u < TOTAL_PAGES
      requires own == m.own && dir - {c} == m.dir
      requires sharedFrames[..] == m.shFrame && sharedRefs[..] == m.shRefs && sharedMarked[..] == m.shMark
      requires phys[..] == Marked(m.phys, FreeFrames(m)[..3], USED_FRAME)
      requires ram[..] == Construct(m, t, c, FreeFrames(m)[1], u, FreeFrames(m)[3..]).ram
      modifies this, phys
      ensures Abs() == Rollback(m, t, FreeFrames(m))
    {
      ghost var fs := FreeFrames(m);
      ThreeTaken(m);
      FreeFrame(u);
      FreeFrame(c);
      dir := dir - {c};
      own := own[fs[1] := Leaked];
    }

    /** The part of fork after the child has its user table. */
    method BuildChild(t: int, c: int, ghost d: int, u: int, ghost m: Mem) returns (r: Forked)
      requires Valid() && Inv(m) && t in m.dir && m.boot == boot && 3 <= |FreeFrames(m)|
      requires c == FreeFrames(m)[0] && d == FreeFrames(m)[1] && u == FreeFrames(m)[2]
      requires own == m.own && dir == m.dir[c := d]
      requires phys[..] == Marked(m.phys, FreeFrames(m)[..3], USED_FRAME)
      requires ram[..] == Construct(m, t, c, d, u, []).ram
      requires sharedFrames[..] == m.shFrame && sharedRefs[..] == m.shRefs && sharedMarked[..] == m.shMark
      modifies this, phys, ram, sharedRefs
      ensures (Abs(), r) == Fork(m, t)
    {
      ForkFrames(m, t);
      ConstructReads(m, t, c, d, u);
      var ok, data := AllocData(m, ram[dir[t]][2].base, u);
      ConstructMore(m, t, c, d, u, data);
      if !ok {
        WithoutChild(m.dir, c, d);
        GiveUpLate(c, u, t, m);
        return Failed(EAGAIN);
      }
      ghost var g := ForkGrant(m, t);
      FinishChild(t, g, c, data, m);
      return Child(c);
    }

    /** fork after alloc_pcb: on failure the PCB, the table and the data frames go back, the directory does not. */
    method CompleteFork(t: int, c: int, ghost m: Mem) returns (r: Forked)
      requires Valid() && Inv(m) && t in m.dir && m.boot == boot && FreeFrames(m) != [] && c == FreeFrames(m)[0]
      requires phys[..] == Marked(m.phys, FreeFrames(m)[..1], USED_FRAME)
      requires dir == m.dir && own == m.own && ram[..] == m.ram
      requires sharedFrames[..] == m.shFrame && sharedRefs[..] == m.shRefs && sharedMarked[..] == m.shMark
      modifies this, phys, ram, sharedRefs
      ensures (Abs(), r) == Fork(m, t)
    {
      ghost var fs := FreeFrames(m);
      ForkFrames(m, t);
      assert 0 <= t < TOTAL_PAGES by { TaskFrames(m, t); }
      assert 0 <= fs[0] < TOTAL_PAGES && fs[0] !in m.dir && t !in fs;
      var d := StartChild(t, c, m);
      var u := AllocNth(m, if |fs| == 1 then 1 else 2);
      if u < 0 {
        assert fs[..|fs|] == fs;
        GiveUpEarly(c, d, t, m);
        return Failed(EAGAIN);
      }
      StartTable(t, c, d, u, m);
      r := BuildChild(t, c, d, u, m);
    }

    /** fork, with its list operations. Its guard is what keeps memory as it should be (ForkGuardIsExact). */
    method SysFork(t: int, v: Vars) returns (r: Forked)
      requires Valid() && Inv(Abs()) && t in dir
      requires FreeFrames(Abs()) != [] ==> Inv(Enlisted(Abs(), v))
      modifies this, phys, ram, sharedRefs
      ensures (Abs(), r) == LinkedFork(old(Abs()), v, t)
    {
      ghost var m := Abs();
      var c := AllocPcb(v.tasks);
      if c < 0 { return Failed(ENOMEM); }
      ghost var m1 := Enlisted(m, v);
      EnlistedIs(m, v, m1);
      r := CompleteFork(t, c, m1);
      ghost var m2 := Abs();
      LinkedForkIs(m, v, t, m2, r);
      LinkUp(t, c, r);
      assert Abs() == m2.(ram := ram[..]);
    }

    /** The last list operations of fork: the child joins its parent's children, or its PCB is unlinked and freed. */
    method LinkUp(t: int, c: int, r: Forked)
      requires Valid()
      modifies ram
      ensures ram[..] == if r.Child? then JoinFamily(old(ram[..]), c, t) else Del(old(ram[..]), Member(c, TASK_LIST))
    {
      if r.Child? {
        JoinParent(c, t);
      } else {
        ListDel(Member(c, TASK_LIST));
      }
    }

    /** The family part of fork. */
    method JoinParent(c: int, t: int)
      requires Valid()
      modifies ram
      ensures ram[..] == JoinFamily(old(ram[..]), c, t)
    {
      WriteWord(Member(c, PARENT), Pointer(Member(t, 0)));
      InitListHead(Member(c, CHILDREN_BLOCKED));
      InitListHead(Member(c, CHILDREN_UNBLOCKED));
      ListAddTail(Member(c, SIBILING), Member(t, CHILDREN_UNBLOCKED));
      WriteWord(Member(c, PENDING_UNBLOCKS), ZERO_WORD);
    }
  }

  lemma EnlistedIs(m: Mem, v: Vars, m1: Mem)
    requires Sized(m) && FreeFrames(m) != [] && m1 == Enlisted(m, v)
    ensures m1 == m.(ram := Enlist(m.ram, FreeFrames(m)[0], v.tasks)) && Sized(m1) && FreeFrames(m1) == FreeFrames(m)
  {
  }

  lemma LinkedForkIs(m: Mem, v: Vars, t: int, m2: Mem, r: Forked)
    requires Sized(m) && t in m.dir && FreeFrames(m) != [] && (m2, r) == Fork(Enlisted(m, v), t)
    ensures var c := FreeFrames(m)[0];
      LinkedFork(m, v, t) ==
      (m2.(ram := if r.Child? then JoinFamily(m2.ram, c, t) else Del(m2.ram, Member(c, TASK_LIST))), r)
  {
  }

  lemma LeastIsNext(m: Mem, f: int)
    requires Sized(m) && m.boot.lastKernel <= f < TOTAL_PAGES && m.phys[f] == FREE_FRAME
    requires forall k :: m.boot.lastKernel <= k < f ==> m.phys[k] != FREE_FRAME
    ensures NextFree(m) == f
  {
    var fs := FreeFrames(m);
    assert f in fs;
    assert fs[0] in fs;
  }

  lemma NoneIsNext(m: Mem)
    requires Sized(m)
    requires forall k :: m.boot.lastKernel <= k < TOTAL_PAGES ==> m.phys[k] != FREE_FRAME
    ensures NextFree(m) == -1
  {
    var fs := FreeFrames(m);
    assert fs != [] ==> fs[0] in fs;
  }

  /** Freeing the data pages, then the table, the directory and the PCB, frees the frames of the task. */
  lemma ThreeMore(phys: seq<Byte>, data: seq<int>, table: int, dir: int, pcb: int)
    requires 0 <= table < |phys| && 0 <= dir < |phys| && 0 <= pcb < |phys|
    ensures Marked(phys, data, FREE_FRAME)[table := FREE_FRAME][dir := FREE_FRAME][pcb := FREE_FRAME] ==
      Marked(phys, [pcb, dir, table] + data, FREE_FRAME)
  {
  }

  lemma MarkNext(phys: seq<Byte>, fs: seq<int>, k: nat)
    requires k < |fs| && 0 <= fs[k] < |phys|
    ensures Marked(phys, fs[..k], USED_FRAME)[fs[k] := USED_FRAME] == Marked(phys, fs[..k + 1], USED_FRAME)
  {
    assert fs[..k + 1] == fs[..k] + [fs[k]];
  }

  /** Giving back all frames but the first three leaves those three marked. */
  lemma DataGivenBack(m: Mem)
    requires Sized(m) && 3 <= |FreeFrames(m)|
    ensures var fs := FreeFrames(m);
      Marked(Marked(m.phys, fs, USED_FRAME), fs[3..], FREE_FRAME) == Marked(m.phys, fs[..3], USED_FRAME)
  {
    var fs := FreeFrames(m);
    assert fs == fs[..3] + fs[3..];
    assert forall a, b :: 0 <= a < 3 && 0 <= b < |fs| - 3 ==> fs[..3][a] != fs[3..][b];
  }

  lemma NextDataEntry(parent: Page, data: seq<int>, f: int)
    requires |data| < NUM_PAG_DATA
    ensures ChildTable(parent, data)[|data| := Pte(ToBase(f), true)] == ChildTable(parent, data + [f])
  {
  }

  lemma PagesCopied(m: Mem, ram': seq<Page>, data: seq<int>, src: seq<int>)
    requires |ram'| == |m.ram| == TOTAL_PAGES && |data| == |src| && Distinct(data)
    requires forall f :: 0 <= f < TOTAL_PAGES && f !in data ==> ram'[f] == m.ram[f]
    requires forall k :: 0 <= k < |data| ==>
      0 <= data[k] < TOTAL_PAGES && 0 <= src[k] < TOTAL_PAGES && ram'[data[k]] == m.ram[src[k]]
    ensures ram' == CopyPages(m, data, src).ram
  {
  }

  lemma ConstructFirst(m: Mem, t: int, c: int, d: int, u: int)
    requires Sized(m) && t in m.dir && c != d && c != u && d != u
    requires 0 <= c < TOTAL_PAGES && 0 <= d < TOTAL_PAGES && 0 <= u < TOTAL_PAGES
    ensures var m1 := SetPage(SetPage(m, c, PageAt(m, t)), d, NewDir(PageAt(m, m.dir[t])));
      m1.ram[u := ZeroPage()][d := NewDir(PageAt(m, m.dir[t]))[2 := Pte(ToBase(u), true)]][u := ChildTable(Tab(m, t),
        [])]
      == Construct(m, t, c, d, u, []).ram
  {
  }

  /** The pages that the copy of the data reads and writes. */
  lemma ConstructedPages(m: Mem, t: int, g: Grant)
    requires Core(m) && t in m.dir && Affords(m, g)
    ensures 0 <= m.dir[t] < TOTAL_PAGES && 0 <= TableFrame(m, t) < TOTAL_PAGES && TableFrame(m, t) !in g.data
    ensures var m3 := Construct(m, t, g.pcb, g.dir, g.table, g.data);
      PageAt(m3, m.dir[t]) == PageAt(m, m.dir[t]) && PageAt(m3, TableFrame(m, t)) == Tab(m, t)
    ensures forall k :: 0 <= k < NUM_PAG_DATA ==>
      0 <= g.data[k] < TOTAL_PAGES && Tab(m, t)[k].base !in g.data && Tab(m, t)[k].base < TOTAL_PAGES
  {
    TaskFrames(m, t);
    InGrant(g, m.dir[t]);
    InGrant(g, TableFrame(m, t));
    forall k | 0 <= k < NUM_PAG_DATA
      ensures 0 <= g.data[k] < TOTAL_PAGES && Tab(m, t)[k].base !in g.data && Tab(m, t)[k].base < TOTAL_PAGES
    {
      InGrant(g, g.data[k]);
      InGrant(g, Tab(m, t)[k].base);
    }
  }

  lemma GrantIsNew(m: Mem, g: Grant)
    requires Core(m) && Affords(m, g)
    ensures g.pcb !in m.dir
  {
    InGrant(g, g.pcb);
    assert g.pcb in m.dir ==> Claim(m, Pcb(g.pcb), g.pcb);
  }

  lemma ReadyToInherit(m: Mem, t: int, g: Grant, born: Mem)
    requires Inv(m) && t in m.dir && Affords(m, g) && born == Birth(m, t, g)
    ensures Inv(born) && t in born.dir && g.pcb in born.dir && g.pcb != t
    ensures forall j :: FIRST_SHARED <= j < PT_ENTRIES ==> Tab(born, g.pcb)[j] == ZERO_WORD
  {
    BirthKeeps(m, t, g);
    GrantIsNew(m, g);
  }

  /** What a fork with enough frames is granted, and what it does with it. */
  lemma ForkGrant(m: Mem, t: int) returns (g: Grant)
    requires Core(m) && t in m.dir && FRAMES_PER_TASK <= |FreeFrames(m)|
    ensures var fs := FreeFrames(m);
      && Affords(m, g) && Granted(g) == fs[..FRAMES_PER_TASK]
      && g.pcb == fs[0] && g.dir == fs[1] && g.table == fs[2] && g.data == fs[3..FRAMES_PER_TASK]
    ensures Fork(m, t) == (Inherit(Birth(m, t, g), t, g.pcb, FIRST_SHARED), Child(g.pcb))
  {
    g := LowestGrant(FreeFrames(m));
    FreeAffords(m);
    GrantIsLowest(FreeFrames(m));
  }

  lemma WithoutChild(dirs: map<int, int>, c: int, d: int)
    requires c !in dirs
    ensures dirs[c := d] - {c} == dirs
  {
  }

  /** The copy of the data completes the child. */
  lemma BirthIs(m: Mem, t: int, g: Grant, before: Mem, after: Mem)
    requires Sized(m) && t in m.dir && |g.data| == NUM_PAG_DATA
    requires before.ram == Construct(m, t, g.pcb, g.dir, g.table, g.data).ram
    requires after.ram == CopyPages(before, g.data, DataFrames(Tab(m, t))).ram
    requires after == m.(ram := after.ram, phys := after.phys, own := after.own, dir := after.dir)
    requires after.phys == Marked(m.phys, Granted(g), USED_FRAME) && after.own == m.own + ChildOwners(g)
    requires after.dir == m.dir[g.pcb := g.dir]
    ensures after == Birth(m, t, g)
  {
  }

  lemma ThreeTaken(m: Mem)
    requires Sized(m) && 3 <= |FreeFrames(m)|
    ensures var fs := FreeFrames(m);
      && 0 <= fs[0] < TOTAL_PAGES && 0 <= fs[1] < TOTAL_PAGES && 0 <= fs[2] < TOTAL_PAGES
      && Marked(m.phys, fs[..3], USED_FRAME)[fs[2] := FREE_FRAME][fs[0] := FREE_FRAME] == m.phys[fs[1] := USED_FRAME]
  {
    var fs := FreeFrames(m);
    assert fs[0] in fs && fs[1] in fs && fs[2] in fs;
    assert fs[..3] == [fs[0], fs[1], fs[2]];
  }

  /** The frames a fork takes belong to nobody, and none is one of the parent's. */
  lemma ForkFrames(m: Mem, t: int)
    requires Core(m) && t in m.dir
    ensures var fs := FreeFrames(m);
      && 0 <= m.dir[t] < TOTAL_PAGES && m.dir[t] !in fs && t !in fs && TableFrame(m, t) !in fs
      && 0 <= TableFrame(m, t) < TOTAL_PAGES
      && (forall k :: 0 <= k < |fs| ==> fs[k] !in m.own && fs[k] !in m.dir && 0 <= fs[k] < TOTAL_PAGES)
  {
    TaskFrames(m, t);
    var fs := FreeFrames(m);
    forall k | 0 <= k < |fs| ensures fs[k] !in m.own && fs[k] !in m.dir && 0 <= fs[k] < TOTAL_PAGES {
      assert fs[k] in fs;
      assert fs[k] in m.dir ==> Claim(m, Pcb(fs[k]), fs[k]);
    }
  }

  lemma ConstructReads(m: Mem, t: int, c: int, d: int, u: int)
    requires Core(m) && t in m.dir && c !in m.own && d !in m.own && u !in m.own
    requires 0 <= u < TOTAL_PAGES
    ensures var m3 := Construct(m, t, c, d, u, []);
      PageAt(m3, m.dir[t]) == PageAt(m, m.dir[t]) && PageAt(m3, TableFrame(m, t)) == Tab(m, t)
      && PageAt(m3, u) == ChildTable(Tab(m, t), [])
  {
    TaskFrames(m, t);
  }

  lemma ConstructMore(m: Mem, t: int, c: int, d: int, u: int, data: seq<int>)
    requires Sized(m) && t in m.dir && 0 <= u < TOTAL_PAGES && |data| <= NUM_PAG_DATA
    ensures Construct(m, t, c, d, u, []).ram[u := ChildTable(Tab(m, t), data)] == Construct(m, t, c, d, u, data).ram
  {
  }
}
