/**
 * When fork takes frames that were the PCBs of children on its caller's list: exactly when the list survives, and what
 * a walk over it meets when the last child's frame becomes the new PCB.
 */
module ReusedPcb {
  import opened Machine
  import opened Frames
  import opened Memory
  import opened MemoryInvariant
  import opened TaskLife
  import opened TaskPages
  import opened MemoryTheorems
  import opened Rings
  import opened Sequences
  import opened PcbLists
  import opened LinkedMemory
  import opened LinkKinds
  import opened TableSafety
  import opened StaleLinks
  import opened FamilyWords
  import opened MemoryRings

  // ---------- the words of a node across a fork ----------

  /**
   * The word i of frame f when the child's memory has been filled, for f other than the child's PCB, directory and
   * table: in a data frame it is what the parent's page has there.
   */
  function Carried(m: Mem, t: int, f: int, i: Index): Word
    requires Sized(m) && t in m.dir && FRAMES_PER_TASK <= |FreeFrames(m)|
  {
    var data := FreeFrames(m)[3..FRAMES_PER_TASK];
    if f in data then PageAt(m, Tab(m, t)[Position(data, f)].base)[i] else WordAt(m.ram, Member(f, i))
  }

  /** t has such a list of unblocked children, and there are frames enough for one more. */
  ghost predicate CanJoin(m: Mem, v: Vars, t: int, frames: seq<int>) {
    && Inv(m) && VarsOk(m, v) && t in m.dir && FRAMES_PER_TASK <= |FreeFrames(m)| && Inv(Enlisted(m, v))
    && TaskNode(v, Prev(m.ram, v.tasks))
    && (forall i :: 0 <= i < |frames| ==> 0 <= frames[i] < TOTAL_PAGES && !HeadFrame(v, frames[i]))
    && RingAt(m.ram, Member(t, CHILDREN_UNBLOCKED), Sibs(frames))
  }

  lemma FilledWord(m: Mem, t: int, f: int, i: Index)
    requires Inv(m) && t in m.dir && FRAMES_PER_TASK <= |FreeFrames(m)| && 0 <= f < TOTAL_PAGES
    requires f !in FreeFrames(m)[..3]
    ensures |Fork(m, t).0.ram| == TOTAL_PAGES && WordAt(Fork(m, t).0.ram, Member(f, i)) == Carried(m, t, f, i)
  {
    var m' := Fork(m, t).0;
    ForkPages(m, t, f);
    if f in FreeFrames(m)[3..FRAMES_PER_TASK] {
      FilledPage(m, t, Position(FreeFrames(m)[3..FRAMES_PER_TASK], f));
    } else {
      NotAmong(FreeFrames(m), f);
    }
    assert WordAt(m'.ram, Member(f, i)) == PageAt(m', f)[i];
  }

  lemma NotAmong(fs: seq<int>, f: int)
    requires FRAMES_PER_TASK <= |fs| && f !in fs[..3] && f !in fs[3..FRAMES_PER_TASK]
    ensures f !in fs[..FRAMES_PER_TASK]
  {
    assert fs[..FRAMES_PER_TASK] == fs[..3] + fs[3..FRAMES_PER_TASK];
  }

  lemma FilledPage(m: Mem, t: int, j: int)
    requires Inv(m) && t in m.dir && FRAMES_PER_TASK <= |FreeFrames(m)| && 0 <= j < NUM_PAG_DATA
    ensures PageAt(Fork(m, t).0, FreeFrames(m)[3..FRAMES_PER_TASK][j]) == PageAt(m, Tab(m, t)[j].base)
  {
    var g := LowestGrant(FreeFrames(m));
    FreeAffords(m);
    BirthKeeps(m, t, g);
    BirthData(m, t, g, j);
    InGrant(g, g.data[j]);
    InheritPages(Birth(m, t, g), t, g.pcb, FIRST_SHARED, g.data[j]);
  }

  /** alloc_pcb does not change what will be there. */
  lemma EnlistCarries(m: Mem, v: Vars, t: int, e: Mem, f: int, i: Index)
    requires Inv(m) && VarsOk(m, v) && t in m.dir && FRAMES_PER_TASK <= |FreeFrames(m)|
    requires e == Enlisted(m, v) && Inv(e) && TaskNode(v, Prev(m.ram, v.tasks))
    requires 0 <= f < TOTAL_PAGES && !HeadFrame(v, f) && i < TASK_LIST
    ensures Carried(e, t, f, i) == Carried(m, t, f, i)
  {
    var c, data := FreeFrames(m)[0], FreeFrames(m)[3..FRAMES_PER_TASK];
    assert FreeFrames(e) == FreeFrames(m) && c in FreeFrames(m);
    OutsideKernel(m, v, t);
    EnlistKeepsTables(m, v);
    EnlistSpares(m.ram, v, c, f, i);
    if f in data {
      var base := Tab(m, t)[Position(data, f)].base as int;
      TaskFrames(m, t);
      KernelWords(m, v);
      EnlistSpares(m.ram, v, c, base, i);
      assert Member(base, i) == Place(base, i);
    }
  }

  /** Just before the child joins the list. */
  lemma WordsBefore(m: Mem, v: Vars, t: int, e: Mem, m2: Mem, f: int, i: Index)
    requires Inv(m) && VarsOk(m, v) && t in m.dir && FRAMES_PER_TASK <= |FreeFrames(m)|
    requires e == Enlisted(m, v) && Inv(e) && TaskNode(v, Prev(m.ram, v.tasks)) && m2 == Fork(e, t).0
    requires 0 <= f < TOTAL_PAGES && !HeadFrame(v, f) && i < TASK_LIST && f !in FreeFrames(m)[..3]
    ensures |m2.ram| == TOTAL_PAGES && WordAt(m2.ram, Member(f, i)) == Carried(m, t, f, i)
  {
    assert FreeFrames(e) == FreeFrames(m);
    FilledWord(e, t, f, i);
    EnlistCarries(m, v, t, e, f, i);
  }

  /** The caller's own words stay. */
  lemma CallerStays(m: Mem, v: Vars, t: int, e: Mem, m2: Mem, i: Index)
    requires Inv(m) && VarsOk(m, v) && t in m.dir && FRAMES_PER_TASK <= |FreeFrames(m)|
    requires e == Enlisted(m, v) && Inv(e) && TaskNode(v, Prev(m.ram, v.tasks)) && m2 == Fork(e, t).0 && i < TASK_LIST
    ensures |m2.ram| == TOTAL_PAGES && WordAt(m2.ram, Member(t, i)) == WordAt(m.ram, Member(t, i))
    ensures 0 <= t < TOTAL_PAGES && !HeadFrame(v, t) && t !in FreeFrames(m)
  {
    OutsideKernel(m, v, t);
    var fs := FreeFrames(m);
    assert t !in fs[..3] && t !in fs[3..FRAMES_PER_TASK];
    WordsBefore(m, v, t, e, m2, t, i);
  }

  // ---------- the child joins ----------

  /** The words of the new node, and of the head that it comes before. */
  ghost predicate Joined(ram: seq<Page>, ram': seq<Page>, h: Place, nodes: seq<Place>, n: Place) {
    && WordAt(ram', Plus(h, 1)) == Pointer(n) && WordAt(ram', Plus(n, 1)) == Pointer(At(h, nodes, |nodes|))
    && WordAt(ram', h) == (if nodes == [] then Pointer(n) else WordAt(ram, h))
    && (At(h, nodes, |nodes|) != n ==> WordAt(ram', n) == Pointer(h))
  }

  lemma JoinedWords(ram: seq<Page>, c: int, t: int, frames: seq<int>)
    requires |ram| == TOTAL_PAGES && 0 <= c < TOTAL_PAGES && 0 <= t < TOTAL_PAGES && c != t
    requires forall i :: 0 <= i < |frames| ==> 0 <= frames[i] < TOTAL_PAGES
    requires Prev(ram, Member(t, CHILDREN_UNBLOCKED)) == At(Member(t, CHILDREN_UNBLOCKED), Sibs(frames), |frames|)
    ensures Joined(ram, JoinFamily(ram, c, t), Member(t, CHILDREN_UNBLOCKED), Sibs(frames), Member(c, SIBILING))
  {
    var h, n := Member(t, CHILDREN_UNBLOCKED), Member(c, SIBILING);
    assert Plus(h, 1) == Member(t, CHILDREN_UNBLOCKED + 1) && Plus(n, 1) == Member(c, SIBILING + 1);
    JoinReadsAt(ram, c, t, h);
    NewFamilyReads(ram, c, t, h);
    JoinReadsAt(ram, c, t, Plus(h, 1));
    JoinReadsAt(ram, c, t, n);
    JoinReadsAt(ram, c, t, Plus(n, 1));
  }

  /** Of another node only the next link of the last one changes. */
  lemma OtherNodes(ram: seq<Page>, c: int, t: int, last: Place, f: int)
    requires |ram| == TOTAL_PAGES && 0 <= c < TOTAL_PAGES && 0 <= t < TOTAL_PAGES && c != t && 0 <= f < TOTAL_PAGES
    requires f != c && last == Prev(ram, Member(t, CHILDREN_UNBLOCKED)) && last.frame < TOTAL_PAGES
    requires last.index == CHILDREN_UNBLOCKED || last.index == SIBILING
    ensures var ram' := JoinFamily(ram, c, t);
      && WordAt(ram', Member(f, SIBILING + 1)) == WordAt(ram, Member(f, SIBILING + 1))
      && WordAt(ram', Member(f, SIBILING)) ==
        if Member(f, SIBILING) == last then Pointer(Member(c, SIBILING)) else WordAt(ram, Member(f, SIBILING))
  {
    JoinReadsAt(ram, c, t, Member(f, SIBILING));
    NewFamilyReads(ram, c, t, Member(f, SIBILING));
    JoinReadsAt(ram, c, t, Member(f, SIBILING + 1));
    NewFamilyReads(ram, c, t, Member(f, SIBILING + 1));
  }

  lemma SibsGrow(frames: seq<int>, c: int)
    ensures Sibs(frames + [c]) == Sibs(frames) + [Member(c, SIBILING)]
  {
  }

  /** Memory just before the child joins the list, and just after. */
  lemma AroundJoin(m: Mem, v: Vars, t: int, frames: seq<int>, m': Mem) returns (ram: seq<Page>, c: int)
    requires CanJoin(m, v, t, frames) && m' == LinkedFork(m, v, t).0
    ensures c == FreeFrames(m)[0] && m'.ram == JoinFamily(ram, c, t) && |ram| == TOTAL_PAGES && c != t
    ensures 0 <= c < TOTAL_PAGES && 0 <= t < TOTAL_PAGES
    ensures ram == Fork(Enlisted(m, v), t).0.ram
    ensures Prev(ram, Member(t, CHILDREN_UNBLOCKED)) == At(Member(t, CHILDREN_UNBLOCKED), Sibs(frames), |frames|)
    ensures WordAt(ram, Member(t, CHILDREN_UNBLOCKED)) == WordAt(m.ram, Member(t, CHILDREN_UNBLOCKED))
    ensures Joined(m.ram, m'.ram, Member(t, CHILDREN_UNBLOCKED), Sibs(frames), Member(c, SIBILING))
  {
    var e := Enlisted(m, v);
    c := FreeFrames(m)[0];
    ram := Fork(e, t).0.ram;
    assert FreeFrames(e) == FreeFrames(m) && c in FreeFrames(m);
    LinkedForkCases(m, v, t, e);
    CallerStays(m, v, t, e, Fork(e, t).0, CHILDREN_UNBLOCKED);
    CallerStays(m, v, t, e, Fork(e, t).0, CHILDREN_UNBLOCKED + 1);
    assert Plus(Member(t, CHILDREN_UNBLOCKED), 1) == Member(t, CHILDREN_UNBLOCKED + 1);
    LastPlace(m.ram, Member(t, CHILDREN_UNBLOCKED), Sibs(frames));
    JoinedWords(ram, c, t, frames);
  }

  /** The links of the i-th child on the list are still there when the new child joins. */
  ghost predicate Survives(m: Mem, t: int, frames: seq<int>, i: int)
    requires Sized(m) && t in m.dir && FRAMES_PER_TASK <= |FreeFrames(m)| && 0 <= i < |frames|
  {
    var f := frames[i];
    && f !in FreeFrames(m)[..3]
    && Carried(m, t, f, SIBILING + 1) == WordAt(m.ram, Member(f, SIBILING + 1))
    && (i + 1 < |frames| ==> Carried(m, t, f, SIBILING) == WordAt(m.ram, Member(f, SIBILING)))
  }

  lemma NodeBefore(m: Mem, v: Vars, t: int, frames: seq<int>, i: int)
    requires CanJoin(m, v, t, frames) && 0 <= i < |frames| && frames[i] !in FreeFrames(m)[..3]
    ensures var ram, f := Fork(Enlisted(m, v), t).0.ram, frames[i];
      && WordAt(ram, Member(f, SIBILING)) == Carried(m, t, f, SIBILING)
      && WordAt(ram, Member(f, SIBILING + 1)) == Carried(m, t, f, SIBILING + 1)
    ensures frames[i] != FreeFrames(m)[0]
  {
    var e := Enlisted(m, v);
    WordsBefore(m, v, t, e, Fork(e, t).0, frames[i], SIBILING);
    WordsBefore(m, v, t, e, Fork(e, t).0, frames[i], SIBILING + 1);
    assert FreeFrames(m)[..3][0] == FreeFrames(m)[0];
  }

  lemma NodeJoined(ram: seq<Page>, c: int, t: int, frames: seq<int>, i: int)
    requires |ram| == TOTAL_PAGES && 0 <= c < TOTAL_PAGES && 0 <= t < TOTAL_PAGES && c != t
    requires 0 <= i < |frames| && frames[i] != c && forall j :: 0 <= j < |frames| ==> 0 <= frames[j] < TOTAL_PAGES
    requires Prev(ram, Member(t, CHILDREN_UNBLOCKED)) == At(Member(t, CHILDREN_UNBLOCKED), Sibs(frames), |frames|)
    requires i + 1 < |frames| ==> Sibs(frames)[i] != Sibs(frames)[|frames| - 1]
    ensures var ram', f := JoinFamily(ram, c, t), frames[i];
      && WordAt(ram', Member(f, SIBILING + 1)) == WordAt(ram, Member(f, SIBILING + 1))
      && WordAt(ram', Member(f, SIBILING)) ==
        if i + 1 == |frames| then Pointer(Member(c, SIBILING)) else WordAt(ram, Member(f, SIBILING))
  {
    OtherNodes(ram, c, t, Sibs(frames)[|frames| - 1], frames[i]);
  }

  /** The links of a child on the list once the new one has joined. */
  lemma NodeAfter(m: Mem, v: Vars, t: int, frames: seq<int>, m': Mem, i: int)
    requires CanJoin(m, v, t, frames) && m' == LinkedFork(m, v, t).0 && 0 <= i < |frames|
    requires frames[i] !in FreeFrames(m)[..3]
    ensures var f := frames[i];
      && WordAt(m'.ram, Member(f, SIBILING + 1)) == Carried(m, t, f, SIBILING + 1)
      && WordAt(m'.ram, Member(f, SIBILING)) ==
        if i + 1 == |frames| then Pointer(Member(FreeFrames(m)[0], SIBILING)) else Carried(m, t, f, SIBILING)
  {
    var ram, c := AroundJoin(m, v, t, frames, m');
    NodeBefore(m, v, t, frames, i);
    ListIsDistinct(m, v, t, frames);
    NodeJoined(ram, c, t, frames, i);
  }

  lemma ListIsDistinct(m: Mem, v: Vars, t: int, frames: seq<int>)
    requires CanJoin(m, v, t, frames)
    ensures forall i, j :: 0 <= i < j < |frames| ==> Sibs(frames)[i] != Sibs(frames)[j]
  {
    RingIsDistinct(m.ram, Member(t, CHILDREN_UNBLOCKED), Sibs(frames));
  }

  // ---------- the list survives if and only if its nodes do ----------

  /** The words of a node that was there are what a ring with n at its end needs. */
  ghost predicate NodeKept(ram: seq<Page>, ram': seq<Page>, nodes: seq<Place>, n: Place, j: int)
    requires 0 <= j < |nodes|
  {
    && WordAt(ram', Plus(nodes[j], 1)) == WordAt(ram, Plus(nodes[j], 1))
    && WordAt(ram', nodes[j]) == if j + 1 == |nodes| then Pointer(n) else WordAt(ram, nodes[j])
  }

  ghost predicate NodesKept(ram: seq<Page>, ram': seq<Page>, nodes: seq<Place>, n: Place) {
    forall j :: 0 <= j < |nodes| ==> NodeKept(ram, ram', nodes, n, j)
  }

  lemma RingAppends(ram: seq<Page>, ram': seq<Page>, h: Place, nodes: seq<Place>, n: Place)
    requires RingAt(ram, h, nodes) && Joined(ram, ram', h, nodes, n) && At(h, nodes, |nodes|) != n
    requires NodesKept(ram, ram', nodes, n)
    ensures RingAt(ram', h, nodes + [n])
  {
    forall i | 0 <= i <= |nodes| + 1 ensures RingLink(ram', h, nodes + [n], i) {
      if i < |nodes| { assert RingLink(ram, h, nodes, i) && NodeKept(ram, ram', nodes, n, i); }
      if 0 < i <= |nodes| { assert NodeKept(ram, ram', nodes, n, i - 1); }
    }
  }

  lemma RingAppended(ram: seq<Page>, ram': seq<Page>, h: Place, nodes: seq<Place>, n: Place)
    requires RingAt(ram, h, nodes) && RingAt(ram', h, nodes + [n])
    ensures NodesKept(ram, ram', nodes, n)
  {
    forall j | 0 <= j < |nodes| ensures NodeKept(ram, ram', nodes, n, j) {
      assert RingLink(ram, h, nodes, j) && RingLink(ram, h, nodes, j + 1);
      assert RingLink(ram', h, nodes + [n], j) && RingLink(ram', h, nodes + [n], j + 1);
    }
  }

  /** In the frame of the child's directory or table, the links do not stay. */
  lemma TakenWords(m: Mem, t: int)
    requires Inv(m) && t in m.dir && FRAMES_PER_TASK <= |FreeFrames(m)|
    ensures var m', fs := Fork(m, t).0, FreeFrames(m);
      PageAt(m', fs[1])[SIBILING + 1] == ZERO_WORD && PageAt(m', fs[2])[SIBILING + 1].present
  {
    var g := LowestGrant(FreeFrames(m));
    FreeAffords(m);
    ForkFills(m, t);
    ChildDirStays(m, t, g);
    DirHasTwo(PageAt(m, m.dir[t]), g.table);
    ChildTableMaps(m, Fork(m, t).0, t, g);
  }

  lemma DirHasTwo(parent: Page, u: int)
    ensures ChildDir(parent, u)[SIBILING + 1] == ZERO_WORD
  {
  }

  lemma ChildTableMaps(m: Mem, m': Mem, t: int, g: Grant)
    requires Inv(m) && t in m.dir && Affords(m, g) && m' == Inherit(Birth(m, t, g), t, g.pcb, FIRST_SHARED)
    requires PageAt(m', g.dir) == ChildDir(PageAt(m, m.dir[t]), g.table)
    ensures PageAt(m', g.table)[SIBILING + 1].present
  {
    ForkTables(m, t, g);
    ForkedTable(m, m', t, g);
  }

  lemma ForkedTable(m: Mem, m': Mem, t: int, g: Grant)
    requires t in m.dir && Affords(m, g) && ForkedTables(m, m', t, g)
    requires PageAt(m', g.dir) == ChildDir(PageAt(m, m.dir[t]), g.table)
    ensures PageAt(m', g.table)[SIBILING + 1].present
  {
    InGrant(g, g.table);
    assert TableFrame(m', g.pcb) == g.table;
    assert Tab(m', g.pcb)[SIBILING + 1] == Pte(ToBase(g.data[SIBILING + 1]), true);
  }

  lemma SecondAndThird(fs: seq<int>)
    requires Ascending(fs) && 3 <= |fs|
    ensures fs[1] != fs[0] && fs[2] != fs[0] && fs[0] in fs && fs[1] in fs && fs[2] in fs
  {
  }

  lemma TakenPage(m: Mem, v: Vars, t: int, f: int)
    requires Inv(m) && t in m.dir && FRAMES_PER_TASK <= |FreeFrames(m)| && Inv(Enlisted(m, v))
    requires f == FreeFrames(m)[1] || f == FreeFrames(m)[2]
    ensures var w := WordAt(Fork(Enlisted(m, v), t).0.ram, Member(f, SIBILING + 1)); w == ZERO_WORD || w.present
    ensures 0 <= f < TOTAL_PAGES && f != FreeFrames(m)[0]
  {
    var m2 := Fork(Enlisted(m, v), t).0;
    assert FreeFrames(Enlisted(m, v)) == FreeFrames(m);
    SecondAndThird(FreeFrames(m));
    TakenWords(Enlisted(m, v), t);
    ForkPages(Enlisted(m, v), t, f);
    assert WordAt(m2.ram, Member(f, SIBILING + 1)) == PageAt(m2, f)[SIBILING + 1];
  }

  /** A child whose frame becomes the new one's directory or table is on no list after the fork. */
  lemma TakenIsNoLink(m: Mem, v: Vars, t: int, frames: seq<int>, m': Mem, f: int)
    requires CanJoin(m, v, t, frames) && m' == LinkedFork(m, v, t).0
    requires f == FreeFrames(m)[1] || f == FreeFrames(m)[2]
    ensures var w := WordAt(m'.ram, Member(f, SIBILING + 1)); w == ZERO_WORD || w.present
  {
    var ram, c := AroundJoin(m, v, t, frames, m');
    TakenPage(m, v, t, f);
    LastInRange(m, v, t, frames);
    OtherNodes(ram, c, t, At(Member(t, CHILDREN_UNBLOCKED), Sibs(frames), |frames|), f);
  }

  lemma LastInRange(m: Mem, v: Vars, t: int, frames: seq<int>)
    requires CanJoin(m, v, t, frames)
    ensures var last := At(Member(t, CHILDREN_UNBLOCKED), Sibs(frames), |frames|);
      last.frame < TOTAL_PAGES && (last.index == CHILDREN_UNBLOCKED || last.index == SIBILING)
  {
    TaskFrames(m, t);
  }

  lemma NoPointer(x: Place, w: Word)
    requires x != NULL && (w == ZERO_WORD || w.present)
    ensures w != Pointer(x)
  {
    PointerBack(x);
  }

  lemma NextOnRing(ram: seq<Page>, h: Place, nodes: seq<Place>, i: int)
    requires RingAt(ram, h, nodes) && 0 <= i < |nodes|
    ensures WordAt(ram, At(h, nodes, i)) == Pointer(nodes[i])
  {
    assert RingLink(ram, h, nodes, i);
  }

  lemma PrevOnRing(ram: seq<Page>, h: Place, nodes: seq<Place>, i: int)
    requires RingAt(ram, h, nodes) && 0 <= i < |nodes|
    ensures WordAt(ram, Plus(nodes[i], 1)) == Pointer(At(h, nodes, i))
  {
    assert RingLink(ram, h, nodes, i);
  }

  lemma TakenBreaks(ram: seq<Page>, h: Place, frames: seq<int>, i: int)
    requires 0 <= i < |frames| && h.index == CHILDREN_UNBLOCKED
    requires var w := WordAt(ram, Member(frames[i], SIBILING + 1)); w == ZERO_WORD || w.present
    ensures !RingAt(ram, h, Sibs(frames))
  {
    assert Plus(Sibs(frames)[i], 1) == Member(frames[i], SIBILING + 1);
    NoPointer(At(h, Sibs(frames), i), WordAt(ram, Plus(Sibs(frames)[i], 1)));
    if RingAt(ram, h, Sibs(frames)) { PrevOnRing(ram, h, Sibs(frames), i); }
  }

  lemma ListedTwice(ram: seq<Page>, h: Place, frames: seq<int>, i: int, c: int)
    requires 0 <= i < |frames| && frames[i] == c && h.index == CHILDREN_UNBLOCKED
    ensures !RingAt(ram, h, Sibs(frames + [c]))
  {
    var nodes := Sibs(frames + [c]);
    assert nodes[i] == nodes[|frames|];
    if RingAt(ram, h, nodes) { RingIsDistinct(ram, h, nodes); }
  }

  lemma OneOfThree(fs: seq<int>, f: int)
    requires 3 <= |fs| && f in fs[..3]
    ensures f == fs[0] || f == fs[1] || f == fs[2]
  {
  }

  lemma TakenOneBreaks(m: Mem, v: Vars, t: int, frames: seq<int>, m': Mem, i: int)
    requires CanJoin(m, v, t, frames) && m' == LinkedFork(m, v, t).0
    requires 0 <= i < |frames| && frames[i] in FreeFrames(m)[..3]
    ensures !RingAt(m'.ram, Member(t, CHILDREN_UNBLOCKED), Sibs(frames + [FreeFrames(m)[0]]))
  {
    OneOfThree(FreeFrames(m), frames[i]);
    if frames[i] == FreeFrames(m)[0] {
      ListedTwice(m'.ram, Member(t, CHILDREN_UNBLOCKED), frames, i, frames[i]);
    } else {
      TakenIsNoLink(m, v, t, frames, m', frames[i]);
      TakenBreaks(m'.ram, Member(t, CHILDREN_UNBLOCKED), frames + [FreeFrames(m)[0]], i);
    }
  }

  lemma KeptMeansSurvives(m: Mem, v: Vars, t: int, frames: seq<int>, m': Mem, i: int)
    requires CanJoin(m, v, t, frames) && m' == LinkedFork(m, v, t).0
    requires 0 <= i < |frames| && frames[i] !in FreeFrames(m)[..3]
    ensures NodeKept(m.ram, m'.ram, Sibs(frames), Member(FreeFrames(m)[0], SIBILING), i) <==> Survives(m, t, frames, i)
  {
    NodeAfter(m, v, t, frames, m', i);
    assert Plus(Sibs(frames)[i], 1) == Member(frames[i], SIBILING + 1);
  }

  lemma NewcomerIsNotLast(m: Mem, t: int, frames: seq<int>)
    requires Inv(m) && t in m.dir && FRAMES_PER_TASK <= |FreeFrames(m)|
    requires forall i :: 0 <= i < |frames| ==> 0 <= frames[i] < TOTAL_PAGES && frames[i] !in FreeFrames(m)[..3]
    ensures At(Member(t, CHILDREN_UNBLOCKED), Sibs(frames), |frames|) != Member(FreeFrames(m)[0], SIBILING)
  {
    assert FreeFrames(m)[0] in FreeFrames(m) && FreeFrames(m)[..3][0] == FreeFrames(m)[0];
  }

  /**
   * A fork that succeeds leaves its caller's list of unblocked children a ring of the old ones and the new one if and
   * only if no child on the list has its frame as the PCB, the directory or the table of the new one, and a child whose
   * frame is a data page of the new one finds its own links in the page of the parent that is copied there.
   */
  lemma ForkKeepsListExactly(m: Mem, v: Vars, t: int, frames: seq<int>, m': Mem)
    requires CanJoin(m, v, t, frames) && m' == LinkedFork(m, v, t).0
    ensures RingAt(m'.ram, Member(t, CHILDREN_UNBLOCKED), Sibs(frames + [FreeFrames(m)[0]])) <==>
      forall i :: 0 <= i < |frames| ==> Survives(m, t, frames, i)
  {
    if i :| 0 <= i < |frames| && frames[i] in FreeFrames(m)[..3] {
      TakenOneBreaks(m, v, t, frames, m', i);
      assert !Survives(m, t, frames, i);
    } else {
      UntakenSurvive(m, v, t, frames, m');
    }
  }

  lemma AllKept(m: Mem, v: Vars, t: int, frames: seq<int>, m': Mem)
    requires CanJoin(m, v, t, frames) && m' == LinkedFork(m, v, t).0
    requires forall i :: 0 <= i < |frames| ==> frames[i] !in FreeFrames(m)[..3]
    ensures NodesKept(m.ram, m'.ram, Sibs(frames), Member(FreeFrames(m)[0], SIBILING)) <==>
      forall i :: 0 <= i < |frames| ==> Survives(m, t, frames, i)
  {
    forall i | 0 <= i < |frames|
      ensures NodeKept(m.ram, m'.ram, Sibs(frames), Member(FreeFrames(m)[0], SIBILING), i) <==>
        Survives(m, t, frames, i)
    {
      KeptMeansSurvives(m, v, t, frames, m', i);
    }
  }

  lemma UntakenSurvive(m: Mem, v: Vars, t: int, frames: seq<int>, m': Mem)
    requires CanJoin(m, v, t, frames) && m' == LinkedFork(m, v, t).0
    requires forall i :: 0 <= i < |frames| ==> frames[i] !in FreeFrames(m)[..3]
    ensures RingAt(m'.ram, Member(t, CHILDREN_UNBLOCKED), Sibs(frames + [FreeFrames(m)[0]])) <==>
      forall i :: 0 <= i < |frames| ==> Survives(m, t, frames, i)
  {
    var ram, c := AroundJoin(m, v, t, frames, m');
    AllKept(m, v, t, frames, m');
    SibsGrow(frames, c);
    NewcomerIsNotLast(m, t, frames);
    RingExactly(m.ram, m'.ram, Member(t, CHILDREN_UNBLOCKED), Sibs(frames), Member(c, SIBILING));
  }

  lemma RingExactly(ram: seq<Page>, ram': seq<Page>, h: Place, nodes: seq<Place>, n: Place)
    requires RingAt(ram, h, nodes) && Joined(ram, ram', h, nodes, n) && At(h, nodes, |nodes|) != n
    ensures RingAt(ram', h, nodes + [n]) <==> NodesKept(ram, ram', nodes, n)
  {
    if RingAt(ram', h, nodes + [n]) { RingAppended(ram, ram', h, nodes, n); }
    if NodesKept(ram, ram', nodes, n) { RingAppends(ram, ram', h, nodes, n); }
  }

  // ---------- a walk that never ends ----------

  /** The next link of the node before place j is to the j-th node. */
  ghost predicate LeadsOn(ram: seq<Page>, h: Place, nodes: seq<Place>, j: int)
    requires 0 <= j < |nodes|
  {
    WordAt(ram, At(h, nodes, j)) == Pointer(nodes[j])
  }

  lemma {:induction false} WalkAlong(ram: seq<Page>, h: Place, nodes: seq<Place>, i: nat)
    requires i <= |nodes| && forall j :: 0 <= j < |nodes| ==> LeadsOn(ram, h, nodes, j)
    ensures Walk(ram, h, i) == At(h, nodes, i)
    decreases i
  {
    if i > 0 {
      WalkAlong(ram, h, nodes, i - 1);
      WalkOneMore(ram, h, i - 1);
      assert LeadsOn(ram, h, nodes, i - 1);
      PointerBack(nodes[i - 1]);
    }
  }

  lemma {:induction false} WalkOn(ram: seq<Page>, h: Place, p: Place, i: nat, n: nat)
    requires Walk(ram, h, i) == p && Next(ram, p) == p
    ensures Walk(ram, h, i + n) == p
    decreases n
  {
    if n > 0 {
      WalkOn(ram, h, p, i, n - 1);
      WalkOneMore(ram, h, i + n - 1);
    }
  }

  /** A walk over nodes of which the last follows itself does not get further. */
  lemma WalkStays(ram: seq<Page>, h: Place, nodes: seq<Place>, last: Place, n: nat)
    requires nodes != [] && (forall j :: 0 <= j < |nodes| ==> LeadsOn(ram, h, nodes, j)) && n >= |nodes|
    requires last == nodes[|nodes| - 1] && Next(ram, last) == last
    ensures Walk(ram, h, n) == last
  {
    WalkAlong(ram, h, nodes, |nodes|);
    WalkOn(ram, h, last, |nodes|, n - |nodes|);
  }

  /** The frame of the last child on the list is the next one to be given out, and the links of the others survive. */
  ghost predicate LastIsNext(m: Mem, t: int, frames: seq<int>)
    requires Sized(m) && t in m.dir && FRAMES_PER_TASK <= |FreeFrames(m)|
  {
    && frames != [] && frames[|frames| - 1] == FreeFrames(m)[0]
    && forall i :: 0 <= i < |frames| - 1 ==> Survives(m, t, frames, i)
  }

  lemma LastFollowsItself(m: Mem, v: Vars, t: int, frames: seq<int>, m': Mem)
    requires CanJoin(m, v, t, frames) && m' == LinkedFork(m, v, t).0 && LastIsNext(m, t, frames)
    ensures Next(m'.ram, Member(FreeFrames(m)[0], SIBILING)) == Member(FreeFrames(m)[0], SIBILING)
  {
    var ram, c := AroundJoin(m, v, t, frames, m');
    JoinReadsAt(ram, c, t, Member(c, SIBILING));
    PointerBack(Member(c, SIBILING));
  }

  lemma OthersLead(m: Mem, v: Vars, t: int, frames: seq<int>, m': Mem, j: int)
    requires CanJoin(m, v, t, frames) && m' == LinkedFork(m, v, t).0 && LastIsNext(m, t, frames) && 0 <= j < |frames|
    ensures LeadsOn(m'.ram, Member(t, CHILDREN_UNBLOCKED), Sibs(frames), j)
  {
    NextOnRing(m.ram, Member(t, CHILDREN_UNBLOCKED), Sibs(frames), j);
    if j > 0 {
      assert Survives(m, t, frames, j - 1);
      NodeAfter(m, v, t, frames, m', j - 1);
    } else {
      var ram, c := AroundJoin(m, v, t, frames, m');
    }
  }

  lemma AllLead(m: Mem, v: Vars, t: int, frames: seq<int>, m': Mem)
    requires CanJoin(m, v, t, frames) && m' == LinkedFork(m, v, t).0 && LastIsNext(m, t, frames)
    ensures forall j :: 0 <= j < |frames| ==> LeadsOn(m'.ram, Member(t, CHILDREN_UNBLOCKED), Sibs(frames), j)
  {
    forall j | 0 <= j < |frames| ensures LeadsOn(m'.ram, Member(t, CHILDREN_UNBLOCKED), Sibs(frames), j) {
      OthersLead(m, v, t, frames, m', j);
    }
  }

  lemma WalkAmong(ram: seq<Page>, h: Place, frames: seq<int>, last: Place, n: nat)
    requires frames != [] && last == Member(frames[|frames| - 1], SIBILING) && Next(ram, last) == last && n > 0
    requires forall j :: 0 <= j < |frames| ==> LeadsOn(ram, h, Sibs(frames), j)
    ensures Walk(ram, h, n) == if n <= |frames| then Member(frames[n - 1], SIBILING) else last
  {
    if n <= |frames| { WalkAlong(ram, h, Sibs(frames), n); } else { WalkStays(ram, h, Sibs(frames), last, n); }
  }

  /**
   * If fork puts the new PCB where its caller's last listed child was, a walk over the caller's unblocked children
   * meets them in order and then the new node for ever: it never gets back to the head, and unblock does not return
   * unless it finds the PID that it looks for.
   */
  lemma WalkNeverEnds(m: Mem, v: Vars, t: int, frames: seq<int>, m': Mem, n: nat)
    requires CanJoin(m, v, t, frames) && m' == LinkedFork(m, v, t).0 && LastIsNext(m, t, frames) && n > 0
    ensures Walk(m'.ram, Member(t, CHILDREN_UNBLOCKED), n) ==
      Member(if n <= |frames| then frames[n - 1] else FreeFrames(m)[0], SIBILING)
    ensures Walk(m'.ram, Member(t, CHILDREN_UNBLOCKED), n) != Member(t, CHILDREN_UNBLOCKED)
  {
    AllLead(m, v, t, frames, m');
    LastFollowsItself(m, v, t, frames, m');
    WalkAmong(m'.ram, Member(t, CHILDREN_UNBLOCKED), frames, Member(FreeFrames(m)[0], SIBILING), n);
  }
}
