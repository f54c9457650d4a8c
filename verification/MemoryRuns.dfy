/** Runs of the memory system calls and of user stores, from the state that booting leaves. */
module MemoryRuns {
  import opened Machine
  import opened Frames
  import opened Memory
  import opened MemoryInvariant
  import opened TaskLife

  datatype MemOp =
    | OpFork(task: int)
    | OpExit(task: int)
    | OpShmat(task: int, id: int, addr: Uint32)
    | OpShmdt(task: int, addr: Uint32)
    | OpShmrm(task: int, id: int)
    | OpStore(task: int, page: int, offset: int, word: Word)
    | OpCopyOut(task: int, page: int, offset: int, word: Word)

  /** access_ok lets a write reach the page after the last code page. */
  const LAST_WRITABLE: int := NUM_PAG_DATA + NUM_PAG_CODE

  /** One step by a live task; nothing is done on behalf of any other. */
  function Step(m: Mem, op: MemOp): Mem
    requires Sized(m)
  {
    if op.task !in m.dir then m
    else
      match op
      case OpFork(t) => Fork(m, t).0
      case OpExit(t) => Exit(m, t)
      case OpShmat(t, id, addr) => Shmat(m, t, id, addr).0
      case OpShmdt(t, addr) => Shmdt(m, t, addr).0
      case OpShmrm(_, id) => Shmrm(m, id).0
      case OpStore(t, i, offset, w) =>
        if 0 <= i < PT_ENTRIES && 0 <= offset < PT_ENTRIES then Store(m, t, i, offset, w) else m
      case OpCopyOut(t, i, offset, w) =>
        if 0 <= i <= LAST_WRITABLE && 0 <= offset < PT_ENTRIES then CopyOut(m, t, i, offset, w) else m
  }

  lemma StepKeeps(m: Mem, op: MemOp)
    requires Inv(m)
    ensures Inv(Step(m, op))
  {
    if op.task in m.dir {
      match op
      case OpFork(t) => ForkKeeps(m, t);
      case OpExit(t) => ExitKeeps(m, t);
      case OpShmat(t, id, addr) => ShmatKeeps(m, t, id, addr);
      case OpShmdt(t, addr) => ShmdtKeeps(m, t, addr);
      case OpShmrm(_, id) => ShmrmKeeps(m, id);
      case OpStore(t, i, offset, w) =>
        if 0 <= i < PT_ENTRIES && 0 <= offset < PT_ENTRIES { StoreKeeps(m, t, i, offset, w); }
      case OpCopyOut(t, i, offset, w) =>
        if 0 <= i <= LAST_WRITABLE && 0 <= offset < PT_ENTRIES { CopyOutKeeps(m, t, i, offset, w); }
    }
  }

  /** m' is reached from m by the steps ops. */
  ghost predicate Reaches(m: Mem, ops: seq<MemOp>, m': Mem)
    decreases |ops|
  {
    if ops == [] then m' == m else Sized(m) && Reaches(Step(m, ops[0]), ops[1..], m')
  }

  lemma {:induction false} RunKeeps(m: Mem, ops: seq<MemOp>, m': Mem)
    requires Inv(m) && Reaches(m, ops, m')
    ensures Inv(m')
    decreases |ops|
  {
    if ops != [] {
      StepKeeps(m, ops[0]);
      RunKeeps(Step(m, ops[0]), ops[1..], m');
    }
  }

  // ---------- booting ----------

  const BOOT_FRAMES: int := 35

  /** The byte map that init_frames leaves. */
  function InitFrames(lastKernel: nat): (phys: seq<Byte>)
    ensures |phys| == TOTAL_PAGES
  {
    seq(TOTAL_PAGES, f =>
      if 0x10 <= f < lastKernel || f == 0x90 || 0xA0 <= f < 0x100 then USED_FRAME else FREE_FRAME)
  }

  lemma {:induction false} TailIsFree(phys: seq<Byte>, lo: nat, from: nat)
    requires lo <= from <= |phys|
    requires forall f :: from <= f < |phys| ==> phys[f] == FREE_FRAME
    ensures |FreeFrom(phys, lo)| >= |phys| - from
    decreases |phys| - lo
  {
    if lo < |phys| { TailIsFree(phys, lo + 1, if lo == from then from + 1 else from); }
  }

  lemma BootHasRoom(lastKernel: nat)
    requires 0x10 < lastKernel <= TOTAL_PAGES - BOOT_FRAMES
    ensures |FreeFrom(InitFrames(lastKernel), lastKernel)| >= BOOT_FRAMES
  {
    TailIsFree(InitFrames(lastKernel), lastKernel, if lastKernel < 0x100 then 0x100 else lastKernel);
  }

  /** Frames for the idle task's PCB and directory, the kernel's two tables and the user code. */
  function BootPinned(fs: seq<int>): seq<int>
    requires |fs| >= BOOT_FRAMES
  {
    [fs[0], fs[1], fs[4], fs[5]] + fs[7..15]
  }

  function BootGrant(fs: seq<int>): Grant
    requires |fs| >= BOOT_FRAMES
  {
    Grant(fs[2], fs[3], fs[6], fs[15..35])
  }

  /** The machine with the kernel in place and no task that has user memory. */
  function KernelOnly(lastKernel: nat, ram: seq<Page>): Mem
    requires 0x10 < lastKernel <= TOTAL_PAGES - BOOT_FRAMES && |ram| == TOTAL_PAGES
  {
    BootHasRoom(lastKernel);
    var phys := InitFrames(lastKernel);
    var fs := FreeFrom(phys, lastKernel);
    var pinned := set f | 0 <= f < TOTAL_PAGES && (phys[f] == USED_FRAME || f in BootPinned(fs));
    Mem(
      Marked(phys, BootPinned(fs), USED_FRAME), ram, map f | f in pinned :: Pinned,
      seq(NUM_SHARED_PAGES, i => -1), seq(NUM_SHARED_PAGES, i => 0), seq(NUM_SHARED_PAGES, i => 0),
      map[], Boot(lastKernel, fs[7..15], pinned))
  }

  /** The table that set_user_pages fills: private data, read-only code. */
  function InitTable(code: seq<int>, data: seq<int>): (tab: Page)
    requires |code| == NUM_PAG_CODE && |data| == NUM_PAG_DATA
    ensures forall i :: 0 <= i < NUM_PAG_DATA ==> tab[i] == Pte(ToBase(data[i]), true)
    ensures forall i :: NUM_PAG_DATA <= i < FIRST_SHARED ==>
      tab[i] == Word(true, false, true, 0, ToBase(code[i - NUM_PAG_DATA]))
    ensures forall i :: FIRST_SHARED <= i < PT_ENTRIES ==> tab[i] == ZERO_WORD
  {
    var tab := seq(PT_ENTRIES, i requires 0 <= i < PT_ENTRIES => InitEntry(code, data, i));
    assert |tab| == PT_ENTRIES;
    tab
  }

  function InitEntry(code: seq<int>, data: seq<int>, i: int): Word
    requires |code| == NUM_PAG_CODE && |data| == NUM_PAG_DATA && 0 <= i < PT_ENTRIES
  {
    if i < NUM_PAG_DATA then Pte(ToBase(data[i]), true)
    else if i < FIRST_SHARED then Word(true, false, true, 0, ToBase(code[i - NUM_PAG_DATA]))
    else ZERO_WORD
  }

  /** The first task's directory: the kernel's two tables and the user table. */
  function BootDir(first: int, second: int, user: int): Page {
    ZeroPage()[0 := Pte(ToBase(first), false)][1 := Pte(ToBase(second), false)][2 := Pte(ToBase(user), true)]
  }

  /** The first task joins, on the frames g. */
  function FirstTask(m: Mem, g: Grant, dir: Page, tab: Page): Mem {
    SetPage(SetPage(m, g.dir, dir), g.table, tab)
    .(phys := Marked(m.phys, Granted(g), USED_FRAME), own := m.own + ChildOwners(g), dir := map[g.pcb := g.dir])
  }

  /** The state in which the first task starts; the contents of all other frames are arbitrary. */
  function BootMem(lastKernel: nat, ram: seq<Page>): Mem
    requires 0x10 < lastKernel <= TOTAL_PAGES - BOOT_FRAMES && |ram| == TOTAL_PAGES
  {
    BootHasRoom(lastKernel);
    var fs := FreeFrom(InitFrames(lastKernel), lastKernel);
    var g := BootGrant(fs);
    FirstTask(KernelOnly(lastKernel, ram), g, BootDir(fs[4], fs[5], g.table), InitTable(fs[7..15], g.data))
  }

  lemma KernelOnlyInv(lastKernel: nat, ram: seq<Page>)
    requires 0x10 < lastKernel <= TOTAL_PAGES - BOOT_FRAMES && |ram| == TOTAL_PAGES
    ensures Inv(KernelOnly(lastKernel, ram))
  {
    BootHasRoom(lastKernel);
    var m := KernelOnly(lastKernel, ram);
    var phys := InitFrames(lastKernel);
    var fs := FreeFrom(phys, lastKernel);
    forall f | f in BootPinned(fs) ensures f in fs {
      BootParts(fs, f);
    }
    forall f | f in m.boot.code ensures f in fs && f in BootPinned(fs) {
      BootParts(fs, f);
    }
    forall k | 0 <= k < NUM_SHARED_PAGES ensures SharedOk(m, k) && MarkedInUse(m, k) {
      NothingMapsMinusOne(m);
    }
  }

  lemma BootParts(fs: seq<int>, f: int)
    requires |fs| >= BOOT_FRAMES
    ensures f in fs[7..15] ==> f in BootPinned(fs)
    ensures f in BootPinned(fs) || f in Granted(BootGrant(fs)) ==> f in fs
  {
    assert fs[15..35] <= fs[15..];
    InGrant(BootGrant(fs), f);
  }

  lemma BootAffords(lastKernel: nat, ram: seq<Page>)
    requires 0x10 < lastKernel <= TOTAL_PAGES - BOOT_FRAMES && |ram| == TOTAL_PAGES
    ensures |FreeFrom(InitFrames(lastKernel), lastKernel)| >= BOOT_FRAMES
    ensures Affords(KernelOnly(lastKernel, ram), BootGrant(FreeFrom(InitFrames(lastKernel), lastKernel)))
  {
    BootHasRoom(lastKernel);
    var fs := FreeFrom(InitFrames(lastKernel), lastKernel);
    var g := BootGrant(fs);
    forall f | f in Granted(g) ensures f in fs && f !in BootPinned(fs) {
      BootParts(fs, f);
      InGrant(g, f);
    }
  }

  lemma InitTableIsNew(m: Mem, g: Grant)
    requires Core(m) && Affords(m, g)
    ensures NewTable(m, g, InitTable(m.boot.code, g.data))
  {
    forall i | 0 <= i < NUM_PAG_DATA ensures 0 <= g.data[i] < TOTAL_PAGES { InGrant(g, g.data[i]); }
    forall i | 0 <= i < NUM_PAG_CODE ensures 0 <= m.boot.code[i] < TOTAL_PAGES {
      assert m.boot.code[i] in m.boot.code;
      assert Claim(m, Pinned, m.boot.code[i]);
    }
  }

  lemma FirstTaskKeeps(m: Mem, g: Grant, dir: Page)
    requires Inv(m) && m.dir == map[] && Affords(m, g) && dir[2].base == g.table
    ensures Inv(FirstTask(m, g, dir, InitTable(m.boot.code, g.data)))
  {
    var tab := InitTable(m.boot.code, g.data);
    var m' := FirstTask(m, g, dir, tab);
    InitTableIsNew(m, g);
    assert Sized(m') && Joined(m, m', g, tab) by {
      InGrant(g, g.dir);
      InGrant(g, g.table);
    }
    JoinKeeps(m, m', g, tab);
  }

  /** Booting establishes the invariant, whatever the memory held before. */
  lemma BootInv(lastKernel: nat, ram: seq<Page>)
    requires 0x10 < lastKernel <= TOTAL_PAGES - BOOT_FRAMES && |ram| == TOTAL_PAGES
    ensures Inv(BootMem(lastKernel, ram))
  {
    BootAffords(lastKernel, ram);
    KernelOnlyInv(lastKernel, ram);
    var fs := FreeFrom(InitFrames(lastKernel), lastKernel);
    var g := BootGrant(fs);
    InGrant(g, g.table);
    FirstTaskKeeps(KernelOnly(lastKernel, ram), g, BootDir(fs[4], fs[5], g.table));
  }

  /** Every state that any run reaches after booting satisfies the invariant. */
  lemma ReachableInv(lastKernel: nat, ram: seq<Page>, ops: seq<MemOp>, m: Mem)
    requires 0x10 < lastKernel <= TOTAL_PAGES - BOOT_FRAMES && |ram| == TOTAL_PAGES
    requires Reaches(BootMem(lastKernel, ram), ops, m)
    ensures Inv(m)
  {
    BootInv(lastKernel, ram);
    RunKeeps(BootMem(lastKernel, ram), ops, m);
  }
}
