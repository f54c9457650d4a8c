/** Lists of children in memory, as rings of addresses. */
module MemoryRings {
  import opened Machine
  import opened Rings
  import opened PcbLists
  import opened Scheduler
  import opened FamilyWords
  import S = Scheduling

  /** The words that join node i of the list of h with the next. */
  ghost predicate RingLink(ram: seq<Page>, h: Place, nodes: seq<Place>, i: int)
    requires 0 <= i <= |nodes|
  {
    && WordAt(ram, At(h, nodes, i)) == Pointer(At(h, nodes, i + 1))
    && WordAt(ram, Plus(At(h, nodes, i + 1), 1)) == Pointer(At(h, nodes, i))
  }

  /** In memory, the list of h is a ring through the nodes, both ways. */
  ghost predicate RingAt(ram: seq<Page>, h: Place, nodes: seq<Place>) {
    forall i :: 0 <= i <= |nodes| ==> RingLink(ram, h, nodes, i)
  }

  /** From equal nodes on, the rest of a ring is equal. */
  lemma {:induction false} RingFrom(ram: seq<Page>, h: Place, nodes: seq<Place>, i: int, j: int)
    requires RingAt(ram, h, nodes) && 0 <= i < j <= |nodes| && At(h, nodes, i) == At(h, nodes, j)
    ensures exists k :: 0 < k <= |nodes| && At(h, nodes, k) == h
    decreases |nodes| - j
  {
    assert RingLink(ram, h, nodes, i) && RingLink(ram, h, nodes, j);
    PointerBack(At(h, nodes, i + 1));
    PointerBack(At(h, nodes, j + 1));
    assert At(h, nodes, i + 1) == At(h, nodes, j + 1);
    if j == |nodes| {
      assert At(h, nodes, i + 1) == h;
    } else {
      RingFrom(ram, h, nodes, i + 1, j + 1);
    }
  }

  /** No node is on such a list twice. */
  lemma RingIsDistinct(ram: seq<Page>, h: Place, nodes: seq<Place>)
    requires RingAt(ram, h, nodes) && forall i :: 0 <= i < |nodes| ==> nodes[i] != h
    ensures forall i, j :: 0 <= i < j < |nodes| ==> nodes[i] != nodes[j]
  {
    forall i, j | 0 <= i < j < |nodes| ensures nodes[i] != nodes[j] {
      if nodes[i] == nodes[j] { RingFrom(ram, h, nodes, i + 1, j + 1); }
    }
  }

  lemma LastPlace(ram: seq<Page>, h: Place, nodes: seq<Place>)
    requires RingAt(ram, h, nodes)
    ensures Prev(ram, h) == At(h, nodes, |nodes|)
  {
    assert RingLink(ram, h, nodes, |nodes|);
    PointerBack(At(h, nodes, |nodes|));
  }

  /** A walk from the head meets the nodes in order. */
  lemma {:induction false} RingWalk(ram: seq<Page>, h: Place, nodes: seq<Place>, i: nat, n: nat)
    requires RingAt(ram, h, nodes) && i + n <= |nodes| + 1
    ensures Walk(ram, At(h, nodes, i), n) == At(h, nodes, i + n)
    decreases n
  {
    if n > 0 {
      assert RingLink(ram, h, nodes, i);
      PointerBack(At(h, nodes, i + 1));
      RingWalk(ram, h, nodes, i + 1, n - 1);
    }
  }

  // ---------- children in PCB frames ----------

  /** The sibling nodes of PCBs. */
  function Sibs(frames: seq<int>): (nodes: seq<Place>)
    ensures |nodes| == |frames| && forall i :: 0 <= i < |frames| ==> nodes[i] == Member(frames[i], SIBILING)
  {
    seq(|frames|, i requires 0 <= i < |frames| => Member(frames[i], SIBILING))
  }

  /** The PCB frames of the tasks of a list. */
  function FramesOf(F: PcbFrames, q: seq<int>): (frames: seq<int>)
    requires forall i :: 0 <= i < |q| ==> q[i] in F
    ensures |frames| == |q| && forall i :: 0 <= i < |q| ==> frames[i] == F[q[i]]
  {
    seq(|q|, i requires 0 <= i < |q| => F[q[i]])
  }

  /** In memory, the list h is a ring through the nodes of the tasks that the scheduler has on it. */
  ghost predicate ListHolds(ram: seq<Page>, F: PcbFrames, s: S.Sched, h: Node) {
    && IsKids(h) && h.pid in F && (forall i :: 0 <= i < |KidsOf(s, h)| ==> KidsOf(s, h)[i] in F)
    && RingAt(ram, WordsOf(F, h), Sibs(FramesOf(F, KidsOf(s, h))))
  }

  /** When memory holds the families, it holds each list. */
  lemma ListInMemory(ram: seq<Page>, F: PcbFrames, s: S.Sched, h: Node)
    requires InMemory(ram, F, FamilyRings(s, F.Keys)) && IsKids(h) && h.pid in F
    ensures ListHolds(ram, F, s, h)
  {
    var r, q := FamilyRings(s, F.Keys), KidsOf(s, h);
    FamilyChanged(s, F.Keys, h, []);
    var l :| Carries(ram, F, l, r);
    forall i | 0 <= i < |q| ensures q[i] in F {
      InNodes(r, h, i + 1);
      assert LinkedIn(ram, F, l, SiblingOf(q[i]));
    }
    forall i | 0 <= i <= |q| ensures RingLink(ram, WordsOf(F, h), Sibs(FramesOf(F, q)), i) {
      ListLink(ram, F, l, r, h, q, i);
    }
  }

  lemma ListLink(ram: seq<Page>, F: PcbFrames, l: Links<Node>, r: Rings<Node>, h: Node, q: seq<int>, i: int)
    requires Carries(ram, F, l, r) && h in r && IsKids(h) && h.pid in F && r[h] == SiblingNodes(q) && 0 <= i <= |q|
    requires forall j :: 0 <= j < |q| ==> q[j] in F
    ensures RingLink(ram, WordsOf(F, h), Sibs(FramesOf(F, q)), i)
  {
    InNodes(r, h, i);
    InNodes(r, h, i + 1);
    assert LinkedIn(ram, F, l, At(h, r[h], i)) && LinkedIn(ram, F, l, At(h, r[h], i + 1));
    assert Ring(l, h, r[h]);
    assert Follows(l, At(h, r[h], i), At(h, r[h], i + 1));
    PlaceOfNode(F, h, q, i);
    PlaceOfNode(F, h, q, i + 1);
  }

  lemma PlaceOfNode(F: PcbFrames, h: Node, q: seq<int>, i: int)
    requires IsKids(h) && h.pid in F && (forall j :: 0 <= j < |q| ==> q[j] in F) && 0 <= i <= |q| + 1
    ensures var a := At(h, SiblingNodes(q), i);
      IsFamily(a) && a.pid in F && WordsOf(F, a) == At(WordsOf(F, h), Sibs(FramesOf(F, q)), i)
  {
  }

  /** The places on such a list. */
  lemma ListPlaces(ram: seq<Page>, F: PcbFrames, s: S.Sched, h: Node, i: int)
    requires ListHolds(ram, F, s, h) && 0 <= i <= |KidsOf(s, h)| + 1
    ensures var x := At(WordsOf(F, h), Sibs(FramesOf(F, KidsOf(s, h))), i);
      && (x.index == CHILDREN_BLOCKED || x.index == CHILDREN_UNBLOCKED || x.index == SIBILING)
      && (x == WordsOf(F, h) || (1 <= i <= |KidsOf(s, h)| && x == Member(F[KidsOf(s, h)[i - 1]], SIBILING)))
  {
  }
}
