/** Physical memory, user tables and shared pages: the state and what each system call does to it. */
module Memory {
  import opened Machine
  import opened Sequences
  import opened Frames

  /** What a frame in use is used for. Tasks are named by the frame of their PCB. */
  datatype Owner =
    | Pcb(task: int)
    | Dir(task: int)
    | Table(task: int)
    | Data(task: int, index: int)
    | Shared(id: int)
    | Pinned
    | Leaked

  /**
   * What booting fixes for ever: where allocation starts, the user code frames, and every frame that is never freed.
   */
  datatype Boot = Boot(lastKernel: nat, code: seq<int>, pinned: set<int>)

  /**
   * The memory of the kernel. `dir` gives, for each live task, the frame of its directory;
   * `own` records why each used frame was taken, and is never read by an operation to decide anything.
   */
  datatype Mem = Mem(
    phys: seq<Byte>,
    ram: seq<Page>,
    own: map<int, Owner>,
    shFrame: seq<int>,
    shRefs: seq<int>,
    shMark: seq<int>,
    dir: map<int, int>,
    boot: Boot)

  // ---------- reading the state ----------

  ghost predicate Sized(m: Mem) {
    && |m.phys| == TOTAL_PAGES
    && |m.ram| == TOTAL_PAGES
    && |m.shFrame| == NUM_SHARED_PAGES
    && |m.shRefs| == NUM_SHARED_PAGES
    && |m.shMark| == NUM_SHARED_PAGES
    && m.boot.lastKernel <= TOTAL_PAGES
    && |m.boot.code| == NUM_PAG_CODE
  }

  function PageAt(m: Mem, f: int): Page {
    if 0 <= f < |m.ram| then m.ram[f] else ZeroPage()
  }

  function TableFrame(m: Mem, t: int): int
    requires t in m.dir
  {
    PageAt(m, m.dir[t])[2].base
  }

  /** The user table of a task, found through entry 2 of its directory. */
  function Tab(m: Mem, t: int): Page
    requires t in m.dir
  {
    PageAt(m, TableFrame(m, t))
  }

  function FreeFrames(m: Mem): seq<int>
    requires Sized(m)
  {
    FreeFrom(m.phys, m.boot.lastKernel)
  }

  /** The first shared id whose frame is `frame`, or -1. */
  function FindShared(shFrame: seq<int>, frame: int): (id: int)
    ensures id == -1 ==> frame !in shFrame
    ensures id != -1 ==> 0 <= id < |shFrame| && shFrame[id] == frame && frame !in shFrame[..id]
  {
    FindSharedFrom(shFrame, frame, 0)
  }

  function FindSharedFrom(shFrame: seq<int>, frame: int, lo: nat): (id: int)
    requires lo <= |shFrame|
    requires frame !in shFrame[..lo]
    ensures id == -1 ==> frame !in shFrame
    ensures id != -1 ==> lo <= id < |shFrame| && shFrame[id] == frame && frame !in shFrame[..id]
    decreases |shFrame| - lo
  {
    if lo == |shFrame| then -1
    else if shFrame[lo] == frame then lo
    else FindSharedFrom(shFrame, frame, lo + 1)
  }

  /** What the state itself says `f` is used for, without looking at `own` (leaked frames excepted). */
  ghost predicate Claim(m: Mem, o: Owner, f: int) {
    match o
    case Pcb(t) => t in m.dir && f == t
    case Dir(t) => t in m.dir && f == m.dir[t]
    case Table(t) => t in m.dir && f == TableFrame(m, t)
    case Data(t, i) => t in m.dir && 0 <= i < NUM_PAG_DATA && f == Tab(m, t)[i].base
    case Shared(id) => 0 <= id < |m.shFrame| && f == m.shFrame[id] && 0 <= f
    case Pinned => f in m.boot.pinned
    case Leaked => f in m.own && m.own[f] == Leaked
  }

  /** Entry i of t's user table maps the frame f. */
  ghost predicate MapsFrame(m: Mem, t: int, i: int, f: int) {
    t in m.dir && FIRST_SHARED <= i < PT_ENTRIES && Tab(m, t)[i].present && Tab(m, t)[i].base == f
  }

  /** The (task, index) pairs above code and data that map the frame f. */
  ghost function Mappings(m: Mem, f: int): set<(int, int)> {
    set t, i | t in m.dir && FIRST_SHARED <= i < PT_ENTRIES && MapsFrame(m, t, i, f) :: (t, i)
  }

  // ---------- the invariant ----------

  /** The byte map marks exactly the frames that have an owner. */
  ghost predicate Accounted(m: Mem)
    requires Sized(m)
  {
    && (forall f :: f in m.own ==> 0 <= f < TOTAL_PAGES)
    && (forall f :: 0 <= f < TOTAL_PAGES ==> m.phys[f] == if f in m.own then USED_FRAME else FREE_FRAME)
  }

  /** Each frame in use has one owner, the one the state says, and no other part of the state claims it. */
  ghost predicate Exclusive(m: Mem) {
    forall o, f :: Claim(m, o, f) <==> f in m.own && m.own[f] == o
  }

  /** Only pinned frames lie below the allocator's start; the kernel image, 0x90 and 0xA0 to 0xFF are pinned. */
  ghost predicate KernelKept(m: Mem) {
    && (forall f :: f in m.own && m.own[f] != Pinned ==> m.boot.lastKernel <= f)
    && (forall f :: 0x10 <= f < m.boot.lastKernel || f == 0x90 || 0xA0 <= f < 0x100 ==> f in m.boot.pinned)
    && (forall f :: f in m.boot.code ==> f in m.boot.pinned && m.boot.lastKernel <= f)
    && (forall f :: f in m.boot.pinned ==> 0x10 <= f)
    && 0x10 < m.boot.lastKernel
  }

  ghost predicate SharedEntry(shFrame: seq<int>, w: Word) {
    w == ZERO_WORD || (w == Pte(w.base, true) && w.base in shFrame)
  }

  ghost predicate TableOk(m: Mem, tab: Page)
    requires Sized(m)
  {
    && (forall i :: 0 <= i < NUM_PAG_DATA ==> tab[i].present && tab[i].rw && tab[i].user)
    && (forall i :: NUM_PAG_DATA <= i < FIRST_SHARED ==>
      tab[i].present && tab[i].user && tab[i].base == m.boot.code[i - NUM_PAG_DATA])
    && (forall i :: FIRST_SHARED <= i < PT_ENTRIES ==> SharedEntry(m.shFrame, tab[i]))
  }

  ghost predicate TablesOk(m: Mem)
    requires Sized(m)
  {
    forall t :: t in m.dir ==> TableOk(m, Tab(m, t))
  }

  ghost predicate SharedOk(m: Mem, id: int)
    requires Sized(m) && 0 <= id < NUM_SHARED_PAGES
  {
    && -1 <= m.shFrame[id]
    && (m.shMark[id] == 0 || m.shMark[id] == 1)
    && m.shRefs[id] == |Mappings(m, m.shFrame[id])|
    && (m.shFrame[id] == -1 ==> m.shMark[id] == 0)
  }

  /** A page waiting to be removed is still mapped somewhere. */
  ghost predicate MarkedInUse(m: Mem, id: int)
    requires Sized(m) && 0 <= id < NUM_SHARED_PAGES
  {
    m.shMark[id] == 1 ==> m.shRefs[id] > 0
  }

  ghost predicate Core(m: Mem) {
    && Sized(m)
    && Accounted(m)
    && Exclusive(m)
    && KernelKept(m)
    && TablesOk(m)
    && (forall id :: 0 <= id < NUM_SHARED_PAGES ==> SharedOk(m, id))
  }

  ghost predicate Inv(m: Mem) {
    Core(m) && forall id :: 0 <= id < NUM_SHARED_PAGES ==> MarkedInUse(m, id)
  }

  // ---------- the small steps ----------

  function SetPage(m: Mem, f: int, page: Page): Mem {
    if 0 <= f < |m.ram| then m.(ram := m.ram[f := page]) else m
  }

  function SetEntry(m: Mem, f: int, i: int, w: Word): Mem
    requires 0 <= i < PT_ENTRIES
  {
    SetPage(m, f, PageAt(m, f)[i := w])
  }

  function SetOwned(m: Mem, f: int, o: Owner): Mem {
    if 0 <= f < |m.phys| then m.(phys := m.phys[f := USED_FRAME], own := m.own[f := o]) else m
  }

  function FreeFrame(m: Mem, f: int): Mem {
    if 0 <= f < |m.phys| then m.(phys := m.phys[f := FREE_FRAME], own := m.own - {f}) else m
  }

  /** Zeroes a shared page and gives its frame back. */
  function Cleanup(m: Mem, id: int): Mem
    requires Sized(m) && 0 <= id < NUM_SHARED_PAGES
  {
    FreeFrame(SetPage(m, m.shFrame[id], ZeroPage()), m.shFrame[id])
    .(shFrame := m.shFrame[id := -1], shMark := m.shMark[id := 0], shRefs := m.shRefs[id := 0])
  }

  /** Removes the mapping at index i, which is of shared page `id`, and reclaims the page if that was due. */
  function Unmap(m: Mem, t: int, i: int, id: int): (m': Mem)
    requires Sized(m) && t in m.dir && 0 <= i < PT_ENTRIES && 0 <= id < NUM_SHARED_PAGES
    ensures Sized(m') && m'.dir == m.dir
  {
    var m1 := SetEntry(m, TableFrame(m, t), i, ZERO_WORD).(shRefs := m.shRefs[id := m.shRefs[id] - 1]);
    if m1.shRefs[id] == 0 && m1.shMark[id] == 1 then Cleanup(m1, id) else m1
  }

  /** Maps shared page `id` at index i. */
  function Map(m: Mem, t: int, i: int, id: int): (m': Mem)
    requires Sized(m) && t in m.dir && 0 <= i < PT_ENTRIES && 0 <= id < NUM_SHARED_PAGES
    ensures Sized(m') && m'.dir == m.dir
  {
    SetEntry(m, TableFrame(m, t), i, Pte(ToBase(m.shFrame[id]), true)).(shRefs := m.shRefs[id := m.shRefs[id] + 1])
  }

  /** The 20 bits that an entry keeps of a frame number. */
  function ToBase(f: int): Bits20 {
    if 0 <= f < 0x10_0000 then f else f % 0x10_0000
  }

  // ---------- the system calls ----------

  function NextFree(m: Mem): int
    requires Sized(m)
  {
    if FreeFrames(m) == [] then -1 else FreeFrames(m)[0]
  }

  /** Gives shared page `id` a frame if it has none and one is free. */
  function Provide(m: Mem, id: int): Mem
    requires Sized(m) && 0 <= id < NUM_SHARED_PAGES
  {
    if m.shFrame[id] >= 0 then m
    else SetOwned(m, NextFree(m), Shared(id)).(shFrame := m.shFrame[id := NextFree(m)])
  }

  /** The index that the subtraction log_page - (L_USER_START >> 12) gives in unsigned arithmetic. */
  function TableIndex(addr: Uint32): int {
    (addr / 4096 - USER_START_PAGE) % TWO_32
  }

  function UserAddress(i: int): int {
    (USER_START_PAGE + i) * 4096
  }

  /** The least index from `i` upwards whose entry is absent, or 1024. */
  function FirstAbsent(tab: Page, i: int): (r: int)
    requires 0 <= i <= PT_ENTRIES
    ensures i <= r <= PT_ENTRIES
    ensures r < PT_ENTRIES ==> !tab[r].present
    ensures forall j :: i <= j < r ==> tab[j].present
    decreases PT_ENTRIES - i
  {
    if i == PT_ENTRIES || !tab[i].present then i else FirstAbsent(tab, i + 1)
  }

  /** Attach shared page `id`, at `addr` or, when that is 0, at the first free place. */
  function Shmat(m: Mem, t: int, id: int, addr: Uint32): (Mem, int)
    requires Sized(m) && t in m.dir
  {
    if id < 0 || id >= NUM_SHARED_PAGES || m.shMark[id] == 1 then (m, -EINVAL)
    else
      var m1 := Provide(m, id);
      if m1.shFrame[id] < 0 then (m1, -ENOMEM)
      else if addr != 0 then
        var i := TableIndex(addr);
        if addr % 4096 != 0 || i < FIRST_SHARED || i >= PT_ENTRIES then (m1, -EINVAL)
        else if Tab(m1, t)[i].present then
          if Tab(m1, t)[i].base == m1.shFrame[id] then (m1, addr) else (m1, -EINVAL)
        else (Map(m1, t, i, id), addr)
      else
        var i := FirstAbsent(Tab(m1, t), FIRST_SHARED);
        if i == PT_ENTRIES then (m1, -ENOMEM) else (Map(m1, t, i, id), UserAddress(i))
  }

  function Shmdt(m: Mem, t: int, addr: Uint32): (Mem, int)
    requires Sized(m) && t in m.dir
  {
    var i := TableIndex(addr);
    if addr % 4096 != 0 || i < FIRST_SHARED || i >= PT_ENTRIES then (m, -EINVAL)
    else if !Tab(m, t)[i].present then (m, -EINVAL)
    else
      var id := FindShared(m.shFrame, Tab(m, t)[i].base);
      if id == -1 then (m, -EINVAL) else (Unmap(m, t, i, id), 0)
  }

  function Shmrm(m: Mem, id: int): (Mem, int)
    requires Sized(m)
  {
    if id < 0 || id >= NUM_SHARED_PAGES || m.shFrame[id] < 0 then (m, -EINVAL)
    else
      var m1 := m.(shMark := m.shMark[id := 1]);
      (if m1.shRefs[id] == 0 then Cleanup(m1, id) else m1, 0)
  }

  function DataFrames(tab: Page): (fs: seq<int>)
    ensures |fs| == NUM_PAG_DATA
    ensures forall i :: 0 <= i < NUM_PAG_DATA ==> fs[i] == tab[i].base
  {
    seq(NUM_PAG_DATA, i requires 0 <= i < NUM_PAG_DATA => tab[i].base)
  }

  /** A directory with the kernel's two tables and nothing else yet. */
  function NewDir(parent: Page): Page {
    ZeroPage()[0 := parent[0]][1 := parent[1]]
  }

  /** The child's directory: the kernel's two tables and its own user table. */
  function ChildDir(parent: Page, u: int): Page {
    NewDir(parent)[2 := Pte(ToBase(u), true)]
  }

  /** The child's table before it inherits shared pages: the given data frames and the parent's code. */
  function ChildTable(parent: Page, data: seq<int>): (tab: Page)
    requires |data| <= NUM_PAG_DATA
    ensures forall i :: 0 <= i < |data| ==> tab[i] == Pte(ToBase(data[i]), true)
    ensures forall i :: |data| <= i < NUM_PAG_DATA ==> tab[i] == ZERO_WORD
    ensures forall i :: NUM_PAG_DATA <= i < FIRST_SHARED ==> tab[i] == Pte(parent[i].base, true)
    ensures forall i :: FIRST_SHARED <= i < PT_ENTRIES ==> tab[i] == ZERO_WORD
  {
    seq(PT_ENTRIES, i requires 0 <= i < PT_ENTRIES =>
      if i < |data| then Pte(ToBase(data[i]), true)
      else if NUM_PAG_DATA <= i < FIRST_SHARED then Pte(parent[i].base, true)
      else ZERO_WORD)
  }

  /** Page data[i] of the result is page src[i] of the argument; the others are kept. */
  function CopyPages(m: Mem, data: seq<int>, src: seq<int>): Mem
    requires |data| == |src|
  {
    m.(ram := seq(|m.ram|, f requires 0 <= f < |m.ram| => if f in data then PageAt(m, src[Position(data, f)])
      else m.ram[f]))
  }

  /** The frames given to a new task. */
  datatype Grant = Grant(pcb: int, dir: int, table: int, data: seq<int>)

  function Granted(g: Grant): seq<int> {
    [g.pcb, g.dir, g.table] + g.data
  }

  /** The lowest free frames, in the order in which a fork asks for them. */
  function LowestGrant(fs: seq<int>): Grant
    requires FRAMES_PER_TASK <= |fs|
  {
    Grant(fs[0], fs[1], fs[2], fs[3..FRAMES_PER_TASK])
  }

  function ChildOwners(g: Grant): map<int, Owner> {
    (map f | f in g.data :: Data(g.pcb, Position(g.data, f))) +
      map[g.pcb := Pcb(g.pcb), g.dir := Dir(g.pcb), g.table := Table(g.pcb)]
  }

  /** The pages of a child of t before its data is copied; `data` are the data frames it has so far. */
  function Construct(m: Mem, t: int, c: int, d: int, u: int, data: seq<int>): Mem
    requires t in m.dir && |data| <= NUM_PAG_DATA
  {
    SetPage(SetPage(SetPage(m, c, PageAt(m, t)), d, ChildDir(PageAt(m, m.dir[t]), u)), u, ChildTable(Tab(m, t), data))
  }

  /** A child of t built from the frames g: private copies of the data pages, the same code, nothing shared yet. */
  function Birth(m: Mem, t: int, g: Grant): Mem
    requires Sized(m) && t in m.dir && |g.data| == NUM_PAG_DATA
  {
    CopyPages(Construct(m, t, g.pcb, g.dir, g.table, g.data), g.data, DataFrames(Tab(m, t)))
    .(phys := Marked(m.phys, Granted(g), USED_FRAME), own := m.own + ChildOwners(g), dir := m.dir[g.pcb := g.dir])
  }

  /** The child c maps every shared page that t maps from index i on. */
  function Inherit(m: Mem, t: int, c: int, i: int): Mem
    requires Sized(m) && t in m.dir && c in m.dir && FIRST_SHARED <= i <= PT_ENTRIES
    decreases PT_ENTRIES - i
  {
    if i == PT_ENTRIES then m
    else
      var w := Tab(m, t)[i];
      var id := FindShared(m.shFrame, w.base);
      if w.present && id != -1 then Inherit(Map(m, c, i, id), t, c, i + 1)
      else Inherit(m, t, c, i + 1)
  }

  /** What is left of a fork of t that found only the frames fs, too few: it forgets to give its directory back. */
  function Rollback(m: Mem, t: int, fs: seq<int>): Mem
    requires Sized(m) && t in m.dir && 1 <= |fs| < FRAMES_PER_TASK
  {
    var m1 := SetPage(m, fs[0], PageAt(m, t));
    if |fs| == 1 then m1
    else if |fs| == 2 then SetOwned(SetPage(m1, fs[1], NewDir(PageAt(m, m.dir[t]))), fs[1], Leaked)
    else SetOwned(Construct(m, t, fs[0], fs[1], fs[2], fs[3..]), fs[1], Leaked)
  }

  datatype Forked = Child(pcb: int) | Failed(errno: int)

  function Fork(m: Mem, t: int): (Mem, Forked)
    requires Sized(m) && t in m.dir
  {
    var fs := FreeFrames(m);
    if |fs| == 0 then (m, Failed(ENOMEM))
    else if |fs| < FRAMES_PER_TASK then (Rollback(m, t, fs), Failed(EAGAIN))
    else (Inherit(Birth(m, t, LowestGrant(fs)), t, fs[0], FIRST_SHARED), Child(fs[0]))
  }

  /** t lets go of every shared page it maps from index i on. */
  function DetachFrom(m: Mem, t: int, i: int): (m': Mem)
    requires Sized(m) && t in m.dir && FIRST_SHARED <= i <= PT_ENTRIES
    ensures Sized(m') && m'.dir == m.dir
    decreases PT_ENTRIES - i
  {
    if i == PT_ENTRIES then m
    else
      var w := Tab(m, t)[i];
      var id := FindShared(m.shFrame, w.base);
      DetachFrom(if w.present && id != -1 then Unmap(m, t, i, id) else m, t, i + 1)
  }

  function ClearData(tab: Page): (tab': Page)
    ensures forall i :: 0 <= i < PT_ENTRIES ==> tab'[i] == if i < NUM_PAG_DATA then ZERO_WORD else tab[i]
  {
    seq(PT_ENTRIES, i requires 0 <= i < PT_ENTRIES => if i < NUM_PAG_DATA then ZERO_WORD else tab[i])
  }

  function TaskFrameList(m: Mem, t: int): seq<int>
    requires t in m.dir
  {
    [t, m.dir[t], TableFrame(m, t)] + DataFrames(Tab(m, t))
  }

  /** Gives back the frames of task t. */
  function TearDown(m: Mem, t: int): Mem
    requires Sized(m) && t in m.dir
  {
    var fs := TaskFrameList(m, t);
    SetEntry(SetPage(m, TableFrame(m, t), ClearData(Tab(m, t))), m.dir[t], 2, ZERO_WORD)
    .(phys := Marked(m.phys, fs, FREE_FRAME), own := m.own - (set f | f in fs), dir := m.dir - {t})
  }

  function Exit(m: Mem, t: int): Mem
    requires Sized(m) && t in m.dir
  {
    TearDown(DetachFrom(m, t, FIRST_SHARED), t)
  }

  // ---------- what a user program can do to memory ----------

  /** A user-mode store through t's table; without a writable user mapping it faults and changes nothing. */
  function Store(m: Mem, t: int, i: int, offset: int, w: Word): Mem
    requires t in m.dir && 0 <= i < PT_ENTRIES && 0 <= offset < PT_ENTRIES
  {
    var e := Tab(m, t)[i];
    if e.present && e.rw && e.user then SetEntry(m, e.base, offset, w) else m
  }

  /** copy_to_user, one word of it: the kernel writes through t's table, read-only pages included. */
  function CopyOut(m: Mem, t: int, i: int, offset: int, w: Word): Mem
    requires t in m.dir && 0 <= i < PT_ENTRIES && 0 <= offset < PT_ENTRIES
  {
    var e := Tab(m, t)[i];
    if e.present then SetEntry(m, e.base, offset, w) else m
  }

  /** A user-mode load of the page at index i. */
  function Load(m: Mem, t: int, i: int): Page
    requires t in m.dir && 0 <= i < PT_ENTRIES
  {
    PageAt(m, Tab(m, t)[i].base)
  }
}
