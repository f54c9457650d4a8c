/** The lists of children as they are in memory: rings through the words of PCB frames, one frame for each PID. */
module FamilyWords {
  import opened Machine
  import opened Sequences
  import opened Scheduling
  import opened Rings
  import opened Scheduler
  import opened PcbLists

  /** The PCB frame of every PID that has been given out. */
  type PcbFrames = map<int, int>

  predicate IsFamily(n: Node) {
    IsKids(n) || n.SiblingOf?
  }

  /** Where a node is in memory. */
  function WordsOf(F: PcbFrames, n: Node): Place
    requires IsFamily(n) && n.pid in F
  {
    Member(F[n.pid], if n.KidsBlocked? then CHILDREN_BLOCKED else if n.KidsUnblocked? then CHILDREN_UNBLOCKED
      else SIBILING)
  }

  /** Every PID has a frame of its own. */
  ghost predicate OwnFrames(F: PcbFrames, size: int) {
    && (forall p :: p in F ==> 0 <= F[p] < size)
    && (forall p, q :: p in F && q in F && F[p] == F[q] ==> p == q)
  }

  /** Nodes have words of their own. */
  lemma WordsDiffer(F: PcbFrames, a: Node, b: Node)
    requires OwnFrames(F, TOTAL_PAGES) && IsFamily(a) && IsFamily(b) && a.pid in F && b.pid in F
    ensures WordsOf(F, a) == WordsOf(F, b) ==> a == b
    ensures WordsOf(F, a) != Plus(WordsOf(F, b), 1) && Plus(WordsOf(F, a), 1) != WordsOf(F, b)
    ensures Plus(WordsOf(F, a), 1) == Plus(WordsOf(F, b), 1) ==> a == b
    ensures WordsOf(F, a).frame == F[a.pid] && Plus(WordsOf(F, a), 1).frame == F[a.pid]
  {
  }

  // ---------- the rings of a state ----------

  ghost function KidHeads(pids: set<int>): set<Node> {
    (set p | p in pids :: KidsBlocked(p)) + (set p | p in pids :: KidsUnblocked(p))
  }

  ghost function FamilyRings(s: Sched, pids: set<int>): Rings<Node> {
    map h | h in KidHeads(pids) :: RingOf(s, h)
  }

  /** Every child is known. */
  ghost predicate KnownKin(s: Sched, pids: set<int>) {
    forall h, i :: h in KidHeads(pids) && 0 <= i < |KidsOf(s, h)| ==> KidsOf(s, h)[i] in pids
  }

  lemma FamilyNodes(s: Sched, pids: set<int>, n: Node)
    requires KnownKin(s, pids) && n in Nodes(FamilyRings(s, pids))
    ensures IsFamily(n) && n.pid in pids
  {
    var r := FamilyRings(s, pids);
    if n !in r {
      var h, i :| h in r && 0 <= i < |r[h]| && r[h][i] == n;
      assert RingOf(s, h) == SiblingNodes(KidsOf(s, h));
    }
  }

  lemma FamilyChanged(s: Sched, pids: set<int>, h: Node, q: seq<int>)
    requires IsKids(h) && h.pid in pids
    ensures h in KidHeads(pids) && FamilyRings(s, pids)[h] == SiblingNodes(KidsOf(s, h))
    ensures FamilyRings(WithKids(s, h, q), pids) == FamilyRings(s, pids)[h := SiblingNodes(q)]
  {
  }

  lemma SameFamilyRings(s: Sched, s': Sched, pids: set<int>)
    requires s'.kidsB == s.kidsB && s'.kidsU == s.kidsU
    ensures FamilyRings(s', pids) == FamilyRings(s, pids)
  {
  }

  // ---------- rings in memory ----------

  /** The words at a node are its links in l. */
  ghost predicate LinkedIn(ram: seq<Page>, F: PcbFrames, l: Links<Node>, n: Node) {
    && IsFamily(n) && n.pid in F && n in l.next && n in l.prev && l.next[n].Some? && l.prev[n].Some?
    && var next, prev := l.next[n].value, l.prev[n].value;
      && IsFamily(next) && IsFamily(prev) && next.pid in F && prev.pid in F
      && WordAt(ram, WordsOf(F, n)) == Pointer(WordsOf(F, next))
      && WordAt(ram, Plus(WordsOf(F, n), 1)) == Pointer(WordsOf(F, prev))
  }

  /** The rings r are in memory. */
  ghost predicate Carries(ram: seq<Page>, F: PcbFrames, l: Links<Node>, r: Rings<Node>) {
    && Separate(r) && AllRings(l, r)
    && forall n :: n in Nodes(r) ==> LinkedIn(ram, F, l, n)
  }

  ghost predicate InMemory(ram: seq<Page>, F: PcbFrames, r: Rings<Node>) {
    exists l :: Carries(ram, F, l, r)
  }

  /** Memory changed in no family word of the frames of F. */
  ghost predicate FamilyWordsKept(ram: seq<Page>, ram': seq<Page>, F: PcbFrames) {
    forall p, i: Index :: p in F && CHILDREN_BLOCKED <= i <= SIBILING + 1 ==>
      WordAt(ram', Member(F[p], i)) == WordAt(ram, Member(F[p], i))
  }

  lemma KeptLinks(ram: seq<Page>, ram': seq<Page>, F: PcbFrames, l: Links<Node>, n: Node)
    requires FamilyWordsKept(ram, ram', F) && LinkedIn(ram, F, l, n)
    ensures LinkedIn(ram', F, l, n)
  {
    var p := n.pid;
    assert WordAt(ram', Member(F[p], WordsOf(F, n).index)) == WordAt(ram, Member(F[p], WordsOf(F, n).index));
    assert WordAt(ram', Member(F[p], WordsOf(F, n).index + 1)) == WordAt(ram, Member(F[p], WordsOf(F, n).index + 1));
  }

  lemma KeptInMemory(ram: seq<Page>, ram': seq<Page>, F: PcbFrames, r: Rings<Node>)
    requires FamilyWordsKept(ram, ram', F) && InMemory(ram, F, r)
    ensures InMemory(ram', F, r)
  {
    var l :| Carries(ram, F, l, r);
    forall n | n in Nodes(r) ensures LinkedIn(ram', F, l, n) { KeptLinks(ram, ram', F, l, n); }
    assert Carries(ram', F, l, r);
  }

  // ---------- list_add_tail and list_del ----------

  /** The word pairs at two places are the same or do not overlap. */
  ghost predicate Apart(a: Place, b: Place) {
    a != Plus(b, 1) && Plus(a, 1) != b && (Plus(a, 1) == Plus(b, 1) ==> a == b)
  }

  lemma WordsAfterAdd(ram: seq<Page>, n: Place, h: Place, last: Place, a: Place)
    requires n.frame < |ram| && Plus(n, 1).frame < |ram| && Plus(h, 1).frame < |ram| && last.frame < |ram|
    requires WordAt(ram, Plus(h, 1)) == Pointer(last) && last != n && h != n
    requires Apart(a, n) && Apart(a, h) && Apart(a, last) && Apart(n, h) && Apart(n, last) && Apart(h, last)
    ensures var ram' := AddTail(ram, n, h);
      && WordAt(ram', a) == (if a == last then Pointer(n) else if a == n then Pointer(h) else WordAt(ram, a))
      && WordAt(ram', Plus(a, 1)) == (if a == n then Pointer(last) else if a == h then Pointer(n)
        else WordAt(ram, Plus(a, 1)))
  {
    PointersAreAddresses(last);
    AddTailReads(ram, n, h, a);
    AddTailReads(ram, n, h, Plus(a, 1));
  }

  lemma WordsAfterDel(ram: seq<Page>, e: Place, prev: Place, next: Place, a: Place)
    requires e.frame < |ram| && Plus(e, 1).frame < |ram| && Plus(next, 1).frame < |ram| && prev.frame < |ram|
    requires WordAt(ram, e) == Pointer(next) && WordAt(ram, Plus(e, 1)) == Pointer(prev) && a != e
    requires Apart(a, e) && Apart(a, prev) && Apart(a, next)
    ensures var ram' := Del(ram, e);
      && WordAt(ram', a) == (if a == prev then Pointer(next) else WordAt(ram, a))
      && WordAt(ram', Plus(a, 1)) == (if a == next then Pointer(prev) else WordAt(ram, Plus(a, 1)))
  {
    PointersAreAddresses(prev);
    PointersAreAddresses(next);
    DelReads(ram, e, a);
    DelReads(ram, e, Plus(a, 1));
  }

  lemma NodesApart(F: PcbFrames, a: Node, b: Node)
    requires OwnFrames(F, TOTAL_PAGES) && IsFamily(a) && IsFamily(b) && a.pid in F && b.pid in F
    ensures Apart(WordsOf(F, a), WordsOf(F, b)) && (WordsOf(F, a) == WordsOf(F, b) <==> a == b)
    ensures WordsOf(F, a).frame < TOTAL_PAGES && Plus(WordsOf(F, a), 1).frame < TOTAL_PAGES
  {
    WordsDiffer(F, a, b);
  }

  /** The words of node a after list_add_tail of n to h, whose last node was `last`. */
  lemma AddedLinks(ram: seq<Page>, F: PcbFrames, l: Links<Node>, l': Links<Node>, n: Node, h: Node, last: Node, a: Node)
    requires |ram| == TOTAL_PAGES && OwnFrames(F, TOTAL_PAGES) && IsFamily(n) && n.pid in F && LinkedIn(ram, F, l, h)
    requires l.prev[h] == Some(last)
    requires a == n || LinkedIn(ram, F, l, a)
    requires l' == Inserted(l, n, last, h) && n != h && n != last
    ensures LinkedIn(AddTail(ram, WordsOf(F, n), WordsOf(F, h)), F, l', a)
  {
    NodesApart(F, n, h);
    NodesApart(F, n, last);
    NodesApart(F, h, last);
    NodesApart(F, a, n);
    NodesApart(F, a, h);
    NodesApart(F, a, last);
    WordsAfterAdd(ram, WordsOf(F, n), WordsOf(F, h), WordsOf(F, last), WordsOf(F, a));
  }

  lemma CarriesAppended(ram: seq<Page>, F: PcbFrames, l: Links<Node>, r: Rings<Node>, h: Node, n: Node)
    requires |ram| == TOTAL_PAGES && OwnFrames(F, TOTAL_PAGES) && Carries(ram, F, l, r) && h in r
    requires n !in Nodes(r) && IsFamily(n) && n.pid in F && IsFamily(h) && h.pid in F
    ensures InMemory(AddTail(ram, WordsOf(F, n), WordsOf(F, h)), F, Appended(r, h, n))
  {
    var last, ram' := At(h, r[h], |r[h]|), AddTail(ram, WordsOf(F, n), WordsOf(F, h));
    var l' := Inserted(l, n, last, h);
    SeparateAppended(r, h, n);
    AllAppended(l, r, h, n);
    AppendedNodes(r, h, n);
    InNodes(r, h, 0);
    InNodes(r, h, |r[h]|);
    assert Ring(l, h, r[h]);
    assert Follows(l, At(h, r[h], |r[h]|), At(h, r[h], |r[h]| + 1));
    forall a | a in Nodes(Appended(r, h, n)) ensures LinkedIn(ram', F, l', a) {
      AddedLinks(ram, F, l, l', n, h, last, a);
    }
    assert Carries(ram', F, l', Appended(r, h, n));
  }

  /** The words of node a, which is not e, after list_del of e. */
  lemma DeletedLinks(ram: seq<Page>, F: PcbFrames, l: Links<Node>, l': Links<Node>, e: Node, a: Node)
    requires |ram| == TOTAL_PAGES && OwnFrames(F, TOTAL_PAGES) && LinkedIn(ram, F, l, e) && LinkedIn(ram, F, l, a)
    requires a != e
    requires l' == TakenOut(l, e, l.prev[e].value, l.next[e].value)
    ensures LinkedIn(Del(ram, WordsOf(F, e)), F, l', a)
  {
    var prev, next := l.prev[e].value, l.next[e].value;
    NodesApart(F, a, e);
    NodesApart(F, a, prev);
    NodesApart(F, a, next);
    NodesApart(F, prev, next);
    WordsAfterDel(ram, WordsOf(F, e), WordsOf(F, prev), WordsOf(F, next), WordsOf(F, a));
  }

  lemma CarriesDeleted(ram: seq<Page>, F: PcbFrames, l: Links<Node>, r: Rings<Node>, h: Node, k: int)
    requires |ram| == TOTAL_PAGES && OwnFrames(F, TOTAL_PAGES) && Carries(ram, F, l, r) && h in r && 0 <= k < |r[h]|
    ensures IsFamily(r[h][k]) && r[h][k].pid in F && InMemory(Del(ram, WordsOf(F, r[h][k])), F, Deleted(r, h, k))
    ensures r[h][k] !in Nodes(Deleted(r, h, k))
  {
    var e := r[h][k];
    InNodes(r, h, k + 1);
    assert LinkedIn(ram, F, l, e);
    assert Ring(l, h, r[h]);
    assert Follows(l, At(h, r[h], k), At(h, r[h], k + 1)) && Follows(l, At(h, r[h], k + 1), At(h, r[h], k + 2));
    var l' := TakenOut(l, e, At(h, r[h], k), At(h, r[h], k + 2));
    SeparateDeleted(r, h, k);
    AllDeleted(l, r, h, k);
    DeletedNodes(r, h, k);
    var ram' := Del(ram, WordsOf(F, e));
    forall a | a in Nodes(Deleted(r, h, k)) ensures LinkedIn(ram', F, l', a) {
      DeletedLinks(ram, F, l, l', e, a);
    }
    assert Carries(ram', F, l', Deleted(r, h, k));
  }

  /** The neighbours of a node in memory are nodes. */
  lemma WordNeighbours(ram: seq<Page>, F: PcbFrames, r: Rings<Node>, n: Node) returns (next: Node, prev: Node)
    requires InMemory(ram, F, r) && n in Nodes(r)
    ensures IsFamily(n) && n.pid in F && IsFamily(next) && next.pid in F && IsFamily(prev) && prev.pid in F
    ensures WordAt(ram, WordsOf(F, n)) == Pointer(WordsOf(F, next))
    ensures WordAt(ram, Plus(WordsOf(F, n), 1)) == Pointer(WordsOf(F, prev))
    ensures Next(ram, WordsOf(F, n)) == WordsOf(F, next) && Prev(ram, WordsOf(F, n)) == WordsOf(F, prev)
  {
    var l :| Carries(ram, F, l, r);
    assert LinkedIn(ram, F, l, n);
    next, prev := l.next[n].value, l.prev[n].value;
    PointersAreAddresses(WordsOf(F, next));
    PointersAreAddresses(WordsOf(F, prev));
  }

  // ---------- walking ----------

  lemma RingStep(ram: seq<Page>, F: PcbFrames, l: Links<Node>, r: Rings<Node>, h: Node, i: nat)
    requires Carries(ram, F, l, r) && h in r && i <= |r[h]|
    ensures var a, b := At(h, r[h], i), At(h, r[h], i + 1);
      IsFamily(a) && a.pid in F && IsFamily(b) && b.pid in F && Next(ram, WordsOf(F, a)) == WordsOf(F, b)
  {
    InNodes(r, h, i);
    InNodes(r, h, i + 1);
    assert LinkedIn(ram, F, l, At(h, r[h], i)) && LinkedIn(ram, F, l, At(h, r[h], i + 1));
    assert Ring(l, h, r[h]);
    assert Follows(l, At(h, r[h], i), At(h, r[h], i + 1));
    PointersAreAddresses(WordsOf(F, At(h, r[h], i + 1)));
  }

  lemma {:induction false} WalkOneMore(ram: seq<Page>, p: Place, n: nat)
    ensures Walk(ram, p, n + 1) == Next(ram, Walk(ram, p, n))
    decreases n
  {
    if n > 0 { WalkOneMore(ram, Next(ram, p), n - 1); }
  }

  lemma {:induction false} WalkRing(ram: seq<Page>, F: PcbFrames, l: Links<Node>, r: Rings<Node>, h: Node, i: nat)
    requires Carries(ram, F, l, r) && h in r && i <= |r[h]| + 1
    ensures var a := At(h, r[h], i);
      IsFamily(h) && h.pid in F && IsFamily(a) && a.pid in F && Walk(ram, WordsOf(F, h), i) == WordsOf(F, a)
  {
    if i == 0 {
      RingStep(ram, F, l, r, h, 0);
    } else {
      WalkRing(ram, F, l, r, h, i - 1);
      RingStep(ram, F, l, r, h, i - 1);
      WalkOneMore(ram, WordsOf(F, h), i - 1);
    }
  }

  /** list_for_each over a list of children meets exactly its children, in order, and comes back to the head. */
  lemma WalkMeetsChildren(ram: seq<Page>, F: PcbFrames, s: Sched, h: Node, i: nat)
    requires InMemory(ram, F, FamilyRings(s, F.Keys)) && IsKids(h) && h.pid in F && i <= |KidsOf(s, h)| + 1
    ensures 1 <= i <= |KidsOf(s, h)| ==>
      KidsOf(s, h)[i - 1] in F && Walk(ram, WordsOf(F, h), i) == Member(F[KidsOf(s, h)[i - 1]], SIBILING)
    ensures i == |KidsOf(s, h)| + 1 ==> Walk(ram, WordsOf(F, h), i) == WordsOf(F, h)
  {
    var r := FamilyRings(s, F.Keys);
    FamilyChanged(s, F.Keys, h, []);
    var l :| Carries(ram, F, l, r);
    WalkRing(ram, F, l, r, h, i);
  }

  // ---------- block and unblock ----------

  /** The state in which child c has gone from one list of children to the end of another. */
  ghost function Moved(s: Sched, from: Node, to: Node, c: int): Sched {
    WithKids(WithKids(s, from, Remove(KidsOf(s, from), c)), to, KidsOf(s, to) + [c])
  }

  lemma RingWithout(s: Sched, pids: set<int>, h: Node, c: int)
    requires IsKids(h) && h.pid in pids && c in KidsOf(s, h)
    ensures var r, k := FamilyRings(s, pids), Position(KidsOf(s, h), c);
      && h in r && k < |r[h]| && r[h][k] == SiblingOf(c)
      && Deleted(r, h, k) == FamilyRings(WithKids(s, h, Remove(KidsOf(s, h), c)), pids)
  {
    FamilyChanged(s, pids, h, Remove(KidsOf(s, h), c));
    NodesCut(KidsOf(s, h), Position(KidsOf(s, h), c));
  }

  lemma RingWith(s: Sched, pids: set<int>, h: Node, c: int)
    requires IsKids(h) && h.pid in pids
    ensures h in FamilyRings(s, pids)
    ensures Appended(FamilyRings(s, pids), h, SiblingOf(c)) == FamilyRings(WithKids(s, h, KidsOf(s, h) + [c]), pids)
  {
    FamilyChanged(s, pids, h, KidsOf(s, h) + [c]);
    NodesAppended(KidsOf(s, h), c);
  }

  lemma DelCarries(ram: seq<Page>, F: PcbFrames, s: Sched, h: Node, c: int)
    requires |ram| == TOTAL_PAGES && OwnFrames(F, TOTAL_PAGES) && InMemory(ram, F, FamilyRings(s, F.Keys))
    requires IsKids(h) && h.pid in F && c in KidsOf(s, h)
    ensures var s1 := WithKids(s, h, Remove(KidsOf(s, h), c));
      && c in F && InMemory(Del(ram, Member(F[c], SIBILING)), F, FamilyRings(s1, F.Keys))
      && SiblingOf(c) !in Nodes(FamilyRings(s1, F.Keys))
  {
    var r := FamilyRings(s, F.Keys);
    RingWithout(s, F.Keys, h, c);
    var l :| Carries(ram, F, l, r);
    CarriesDeleted(ram, F, l, r, h, Position(KidsOf(s, h), c));
  }

  lemma AddCarries(ram: seq<Page>, F: PcbFrames, s: Sched, h: Node, c: int)
    requires |ram| == TOTAL_PAGES && OwnFrames(F, TOTAL_PAGES) && InMemory(ram, F, FamilyRings(s, F.Keys))
    requires IsKids(h) && h.pid in F && c in F && SiblingOf(c) !in Nodes(FamilyRings(s, F.Keys))
    ensures InMemory(AddTail(ram, Member(F[c], SIBILING), WordsOf(F, h)), F,
      FamilyRings(WithKids(s, h, KidsOf(s, h) + [c]), F.Keys))
  {
    var r := FamilyRings(s, F.Keys);
    RingWith(s, F.Keys, h, c);
    AppendNewcomer(ram, F, r, h, SiblingOf(c));
  }

  /** list_del and list_add_tail of a child's node carry the rings over. */
  lemma MoveCarries(ram: seq<Page>, F: PcbFrames, s: Sched, from: Node, to: Node, c: int)
    requires |ram| == TOTAL_PAGES && OwnFrames(F, TOTAL_PAGES) && InMemory(ram, F, FamilyRings(s, F.Keys))
    requires IsKids(from) && IsKids(to) && from != to && from.pid in F && to.pid in F && c in KidsOf(s, from)
    ensures c in F
    ensures InMemory(AddTail(Del(ram, Member(F[c], SIBILING)), Member(F[c], SIBILING), WordsOf(F, to)), F,
      FamilyRings(Moved(s, from, to, c), F.Keys))
  {
    DelCarries(ram, F, s, from, c);
    var s1 := WithKids(s, from, Remove(KidsOf(s, from), c));
    assert KidsOf(s1, to) == KidsOf(s, to);
    AddCarries(Del(ram, Member(F[c], SIBILING)), F, s1, to, c);
  }

  // ---------- fork ----------

  lemma KeptFrames(ram: seq<Page>, F: PcbFrames, F': PcbFrames, l: Links<Node>, l': Links<Node>, n: Node)
    requires LinkedIn(ram, F, l, n) && (forall p :: p in F ==> p in F' && F'[p] == F[p])
    requires n in l'.next && n in l'.prev && l'.next[n] == l.next[n] && l'.prev[n] == l.prev[n]
    ensures LinkedIn(ram, F', l', n)
  {
  }

  ghost predicate IsOwnHead(ram: seq<Page>, p: Place) {
    WordAt(ram, p) == Pointer(p) && WordAt(ram, Plus(p, 1)) == Pointer(p)
  }

  /** An empty head with words of its own is one more ring. */
  lemma NewHead(ram: seq<Page>, F: PcbFrames, r: Rings<Node>, h: Node)
    requires InMemory(ram, F, r) && IsKids(h) && h.pid in F && h !in Nodes(r) && IsOwnHead(ram, WordsOf(F, h))
    ensures InMemory(ram, F, r[h := []]) && Nodes(r[h := []]) == Nodes(r) + {h}
  {
    var l :| Carries(ram, F, l, r);
    var l' := Links(l.next[h := Some(h)], l.prev[h := Some(h)]);
    LinksRestrict(l, l', r);
    AllOpened(l', r, h);
    forall n | n in Nodes(r[h := []]) ensures LinkedIn(ram, F, l', n) {
      if n in Nodes(r) {
        assert LinkedIn(ram, F, l, n);
        KeptFrames(ram, F, F, l, l', n);
      }
    }
    assert Carries(ram, F, l', r[h := []]);
  }

  lemma MoreFrames(ram: seq<Page>, F: PcbFrames, F': PcbFrames, r: Rings<Node>)
    requires InMemory(ram, F, r) && forall p :: p in F ==> p in F' && F'[p] == F[p]
    ensures InMemory(ram, F', r)
  {
    var l :| Carries(ram, F, l, r);
    forall n | n in Nodes(r) ensures LinkedIn(ram, F', l, n) {
      assert LinkedIn(ram, F, l, n);
      KeptFrames(ram, F, F', l, l, n);
    }
    assert Carries(ram, F', l, r);
  }

  /** The rings with those of a PID that has no children. */
  ghost function WithNewcomer(r: Rings<Node>, pid: int): Rings<Node> {
    r[KidsBlocked(pid) := []][KidsUnblocked(pid) := []]
  }

  lemma ForkRingAt(s: Sched, pid: int, g: Node)
    requires IsKids(g) && g.pid != pid && pid == s.lastPid + 1
    ensures RingOf(Scheduling.Fork(s), g) == if g == KidsUnblocked(s.cur) then RingOf(s, g) + [SiblingOf(pid)]
      else RingOf(s, g)
  {
    NodesAppended(Kids(s.kidsU, s.cur), pid);
  }

  lemma NewRingAt(s: Sched, pid: int, g: Node)
    requires IsKids(g) && g.pid == pid && pid == s.lastPid + 1 && s.cur != pid
    ensures RingOf(Scheduling.Fork(s), g) == []
  {
  }

  lemma ForkRings(s: Sched, pids: set<int>, pid: int)
    requires pid == s.lastPid + 1 && pid !in pids && s.cur in pids
    ensures var r := WithNewcomer(FamilyRings(s, pids), pid);
      && KidsUnblocked(s.cur) in r
      && FamilyRings(Scheduling.Fork(s), pids + {pid}) == Appended(r, KidsUnblocked(s.cur), SiblingOf(pid))
  {
    var r, r', h := FamilyRings(s, pids), FamilyRings(Scheduling.Fork(s), pids + {pid}), KidsUnblocked(s.cur);
    var r1 := Appended(WithNewcomer(r, pid), h, SiblingOf(pid));
    assert r'.Keys == r1.Keys by {
      assert KidHeads(pids + {pid}) == KidHeads(pids) + {KidsBlocked(pid), KidsUnblocked(pid)};
    }
    forall g | g in r' ensures r'[g] == r1[g] {
      if g.pid == pid { NewRingAt(s, pid, g); } else { ForkRingAt(s, pid, g); }
    }
  }

  lemma NewcomerCarries(ram: seq<Page>, F: PcbFrames, r: Rings<Node>, pid: int, c: int)
    requires InMemory(ram, F, r) && pid !in F && (forall n :: n in Nodes(r) ==> IsFamily(n) && n.pid in F)
    requires IsOwnHead(ram, Member(c, CHILDREN_BLOCKED)) && IsOwnHead(ram, Member(c, CHILDREN_UNBLOCKED))
    ensures InMemory(ram, F[pid := c], WithNewcomer(r, pid)) && SiblingOf(pid) !in Nodes(WithNewcomer(r, pid))
  {
    var F', b, u := F[pid := c], KidsBlocked(pid), KidsUnblocked(pid);
    assert b !in Nodes(r) && u !in Nodes(r) && SiblingOf(pid) !in Nodes(r);
    assert WordsOf(F', b) == Member(c, CHILDREN_BLOCKED) && WordsOf(F', u) == Member(c, CHILDREN_UNBLOCKED);
    MoreFrames(ram, F, F', r);
    NewHead(ram, F', r, b);
    NewHead(ram, F', r[b := []], u);
  }

  /** A new child whose words are set as fork sets them joins its parent's list in memory. */
  lemma ForkCarries(ram: seq<Page>, F: PcbFrames, s: Sched, pid: int, c: int)
    requires |ram| == TOTAL_PAGES && OwnFrames(F[pid := c], TOTAL_PAGES) && KnownKin(s, F.Keys)
    requires InMemory(ram, F, FamilyRings(s, F.Keys))
    requires pid == s.lastPid + 1 && pid !in F && s.cur in F
    requires IsOwnHead(ram, Member(c, CHILDREN_BLOCKED)) && IsOwnHead(ram, Member(c, CHILDREN_UNBLOCKED))
    ensures InMemory(AddTail(ram, Member(c, SIBILING), Member(F[s.cur], CHILDREN_UNBLOCKED)), F[pid := c],
      FamilyRings(Scheduling.Fork(s), F.Keys + {pid}))
  {
    var r := FamilyRings(s, F.Keys);
    forall n | n in Nodes(r) ensures IsFamily(n) && n.pid in F { FamilyNodes(s, F.Keys, n); }
    NewcomerCarries(ram, F, r, pid, c);
    ForkRings(s, F.Keys, pid);
    JoinCarries(ram, F, WithNewcomer(r, pid), s.cur, pid, c);
  }

  lemma JoinCarries(ram: seq<Page>, F: PcbFrames, r: Rings<Node>, cur: int, pid: int, c: int)
    requires |ram| == TOTAL_PAGES && OwnFrames(F[pid := c], TOTAL_PAGES) && InMemory(ram, F[pid := c], r)
    requires cur in F && pid !in F && KidsUnblocked(cur) in r && SiblingOf(pid) !in Nodes(r)
    ensures InMemory(AddTail(ram, Member(c, SIBILING), Member(F[cur], CHILDREN_UNBLOCKED)), F[pid := c],
      Appended(r, KidsUnblocked(cur), SiblingOf(pid)))
  {
    AppendNewcomer(ram, F[pid := c], r, KidsUnblocked(cur), SiblingOf(pid));
  }

  lemma AppendNewcomer(ram: seq<Page>, F: PcbFrames, r: Rings<Node>, h: Node, n: Node)
    requires |ram| == TOTAL_PAGES && OwnFrames(F, TOTAL_PAGES) && InMemory(ram, F, r) && h in r && n !in Nodes(r)
    requires IsFamily(n) && n.pid in F && IsFamily(h) && h.pid in F
    ensures InMemory(AddTail(ram, WordsOf(F, n), WordsOf(F, h)), F, Appended(r, h, n))
  {
    var l :| Carries(ram, F, l, r);
    CarriesAppended(ram, F, l, r, h, n);
  }
}
