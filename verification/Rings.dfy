/**
 * The intrusive circular lists. Any number of rings share one heap; each is a head and the nodes that follow it.
 * Deleting is given a node only, not the ring that it is in.
 */
module Rings {

  datatype Option<+T> = None | Some(value: T)

  /** The nodes of each ring, in order, by the ring's head. */
  type Rings<N(==)> = map<N, seq<N>>

  /** The pointers of a set of nodes; None is the null pointer. */
  datatype Links<N(==)> = Links(next: map<N, Option<N>>, prev: map<N, Option<N>>)

  ghost function At<N>(h: N, nodes: seq<N>, i: int): N
    requires 0 <= i <= |nodes| + 1
  {
    if i == 0 || i == |nodes| + 1 then h else nodes[i - 1]
  }

  ghost predicate Follows<N>(l: Links<N>, a: N, b: N) {
    a in l.next && l.next[a] == Some(b) && b in l.prev && l.prev[b] == Some(a)
  }

  /** Going round from h by `next` meets the nodes in order and comes back, and `prev` goes the other way. */
  ghost predicate Ring<N>(l: Links<N>, h: N, nodes: seq<N>) {
    forall i :: 0 <= i <= |nodes| ==> Follows(l, At(h, nodes, i), At(h, nodes, i + 1))
  }

  /** No node is in two places, and no head is a node. */
  ghost predicate Separate<N>(rings: Rings<N>) {
    && (forall h, i :: h in rings && 0 <= i < |rings[h]| ==> rings[h][i] !in rings)
    && (forall h, i, k, j ::
      h in rings && 0 <= i < |rings[h]| && k in rings && 0 <= j < |rings[k]| && rings[h][i] == rings[k][j] ==>
        h == k && i == j)
  }

  ghost predicate AllRings<N>(l: Links<N>, rings: Rings<N>) {
    forall h :: h in rings ==> Ring(l, h, rings[h])
  }

  ghost function Nodes<N>(rings: Rings<N>): set<N> {
    rings.Keys + set h, i | h in rings && 0 <= i < |rings[h]| :: rings[h][i]
  }

  ghost function Appended<N>(rings: Rings<N>, h: N, n: N): Rings<N>
    requires h in rings
  {
    rings[h := rings[h] + [n]]
  }

  ghost function Deleted<N>(rings: Rings<N>, h: N, k: int): Rings<N>
    requires h in rings && 0 <= k < |rings[h]|
  {
    rings[h := rings[h][..k] + rings[h][k + 1..]]
  }

  // ---------- rings as values ----------

  lemma InNodes<N>(rings: Rings<N>, h: N, i: int)
    requires h in rings && 0 <= i <= |rings[h]| + 1
    ensures At(h, rings[h], i) in Nodes(rings)
  {
  }

  /** The links after n has been put between prev and next. */
  ghost function Inserted<N>(l: Links<N>, n: N, prev: N, next: N): Links<N> {
    Links(l.next[n := Some(next)][prev := Some(n)], l.prev[next := Some(n)][n := Some(prev)])
  }

  /** The links after entry, between prev and next, has been taken out. */
  ghost function TakenOut<N>(l: Links<N>, entry: N, prev: N, next: N): Links<N> {
    Links(l.next[prev := Some(next)][entry := None], l.prev[next := Some(prev)][entry := None])
  }

  lemma SeparateAppended<N>(rings: Rings<N>, h: N, n: N)
    requires Separate(rings) && h in rings && n !in Nodes(rings)
    ensures Separate(Appended(rings, h, n))
  {
    assert forall k, i :: k in rings && 0 <= i < |rings[k]| ==> rings[k][i] in Nodes(rings);
  }

  lemma SeparateDeleted<N>(rings: Rings<N>, h: N, k: int)
    requires Separate(rings) && h in rings && 0 <= k < |rings[h]|
    ensures Separate(Deleted(rings, h, k))
  {
    var r := Deleted(rings, h, k);
    forall g, i | g in r && 0 <= i < |r[g]| ensures r[g][i] == rings[g][if g == h && i >= k then i + 1 else i] {
    }
  }

  /** The successor of a place in a ring differs from the successors of all other places. */
  lemma PlacesDiffer<N>(rings: Rings<N>, h: N, i: int, g: N, j: int)
    requires Separate(rings) && h in rings && g in rings && 0 <= i <= |rings[h]| && 0 <= j <= |rings[g]|
    ensures At(h, rings[h], i) == At(g, rings[g], j) ==> h == g && i == j
    ensures At(h, rings[h], i + 1) == At(g, rings[g], j + 1) ==> h == g && i == j
  {
  }

  lemma RingAppended<N>(l: Links<N>, rings: Rings<N>, h: N, n: N)
    requires Separate(rings) && h in rings && n !in Nodes(rings) && Ring(l, h, rings[h])
    ensures Ring(Inserted(l, n, At(h, rings[h], |rings[h]|), h), h, rings[h] + [n])
  {
    var nodes := rings[h];
    var l' := Inserted(l, n, At(h, nodes, |nodes|), h);
    forall i | 0 <= i <= |nodes| + 1 ensures Follows(l', At(h, nodes + [n], i), At(h, nodes + [n], i + 1)) {
      if i < |nodes| {
        assert Follows(l, At(h, nodes, i), At(h, nodes, i + 1));
        InNodes(rings, h, i);
        InNodes(rings, h, i + 1);
        PlacesDiffer(rings, h, i, h, |nodes|);
      } else {
        InNodes(rings, h, |nodes|);
      }
    }
  }

  lemma OtherRingKept<N>(l: Links<N>, rings: Rings<N>, h: N, i: int, n: N, g: N)
    requires Separate(rings) && h in rings && g in rings && g != h && 0 <= i <= |rings[h]| && Ring(l, g, rings[g])
    requires n !in Nodes(rings)
    ensures Ring(Inserted(l, n, At(h, rings[h], i), At(h, rings[h], i + 1)), g, rings[g])
  {
    var l' := Inserted(l, n, At(h, rings[h], i), At(h, rings[h], i + 1));
    forall j | 0 <= j <= |rings[g]| ensures Follows(l', At(g, rings[g], j), At(g, rings[g], j + 1)) {
      assert Follows(l, At(g, rings[g], j), At(g, rings[g], j + 1));
      InNodes(rings, g, j);
      InNodes(rings, g, j + 1);
      PlacesDiffer(rings, h, i, g, j);
    }
  }

  lemma AllAppended<N>(l: Links<N>, rings: Rings<N>, h: N, n: N)
    requires Separate(rings) && AllRings(l, rings) && h in rings && n !in Nodes(rings)
    ensures AllRings(Inserted(l, n, At(h, rings[h], |rings[h]|), h), Appended(rings, h, n))
  {
    RingAppended(l, rings, h, n);
    forall g | g in rings && g != h ensures Ring(Inserted(l, n, At(h, rings[h], |rings[h]|), h), g, rings[g]) {
      OtherRingKept(l, rings, h, |rings[h]|, n, g);
    }
  }

  lemma RingDeleted<N>(l: Links<N>, rings: Rings<N>, h: N, k: int)
    requires Separate(rings) && h in rings && 0 <= k < |rings[h]| && Ring(l, h, rings[h])
    ensures Ring(TakenOut(l, rings[h][k], At(h, rings[h], k), At(h, rings[h], k + 2)), h,
      rings[h][..k] + rings[h][k + 1..])
  {
    var nodes := rings[h];
    var rest := nodes[..k] + nodes[k + 1..];
    var l' := TakenOut(l, nodes[k], At(h, nodes, k), At(h, nodes, k + 2));
    forall i | 0 <= i <= |rest| ensures Follows(l', At(h, rest, i), At(h, rest, i + 1)) {
      var j := if i < k then i else i + 1;
      assert At(h, rest, i) == At(h, nodes, if i <= k then i else i + 1);
      assert At(h, rest, i + 1) == At(h, nodes, j + 1);
      assert Follows(l, At(h, nodes, j), At(h, nodes, j + 1));
      PlacesDiffer(rings, h, j, h, k);
      PlacesDiffer(rings, h, j, h, k + 1);
    }
  }

  lemma OtherRingLeft<N>(l: Links<N>, rings: Rings<N>, h: N, k: int, g: N)
    requires Separate(rings) && h in rings && g in rings && g != h && 0 <= k < |rings[h]| && Ring(l, g, rings[g])
    ensures Ring(TakenOut(l, rings[h][k], At(h, rings[h], k), At(h, rings[h], k + 2)), g, rings[g])
  {
    var l' := TakenOut(l, rings[h][k], At(h, rings[h], k), At(h, rings[h], k + 2));
    forall j | 0 <= j <= |rings[g]| ensures Follows(l', At(g, rings[g], j), At(g, rings[g], j + 1)) {
      assert Follows(l, At(g, rings[g], j), At(g, rings[g], j + 1));
      PlacesDiffer(rings, h, k, g, j);
      PlacesDiffer(rings, h, k + 1, g, j);
    }
  }

  lemma AllDeleted<N>(l: Links<N>, rings: Rings<N>, h: N, k: int)
    requires Separate(rings) && AllRings(l, rings) && h in rings && 0 <= k < |rings[h]|
    ensures AllRings(TakenOut(l, rings[h][k], At(h, rings[h], k), At(h, rings[h], k + 2)), Deleted(rings, h, k))
  {
    RingDeleted(l, rings, h, k);
    forall g | g in rings && g != h
      ensures Ring(TakenOut(l, rings[h][k], At(h, rings[h], k), At(h, rings[h], k + 2)), g, rings[g])
    {
      OtherRingLeft(l, rings, h, k, g);
    }
  }

  /** The neighbours of a node of the rings are nodes of the rings. */
  lemma RingsClosed<N>(l: Links<N>, rings: Rings<N>, n: N)
    requires AllRings(l, rings) && n in Nodes(rings)
    ensures n in l.next && l.next[n].Some? && l.next[n].value in Nodes(rings)
    ensures n in l.prev && l.prev[n].Some? && l.prev[n].value in Nodes(rings)
  {
    var h, i := PlaceOf(rings, n);
    assert Ring(l, h, rings[h]);
    var next := if n == h then 0 else i;
    var prev := if n == h then |rings[h]| else i - 1;
    assert Follows(l, At(h, rings[h], next), At(h, rings[h], next + 1));
    assert Follows(l, At(h, rings[h], prev), At(h, rings[h], prev + 1));
    InNodes(rings, h, next + 1);
    InNodes(rings, h, prev);
  }

  /** Where a node is: in the ring of h, at place i counted from the head. */
  lemma PlaceOf<N>(rings: Rings<N>, n: N) returns (h: N, i: int)
    requires n in Nodes(rings)
    ensures h in rings && 0 <= i <= |rings[h]| && At(h, rings[h], i) == n && (n == h <==> i == 0)
  {
    if n in rings {
      h, i := n, 0;
    } else {
      var g, k :| g in rings && 0 <= k < |rings[g]| && rings[g][k] == n;
      h, i := g, k + 1;
    }
  }

  /**
   * A node joins a ring at its end, by the four writes of list_add_tail. What results is a ring of the old nodes and
   * the new one if and only if the node was not in the ring before.
   */
  lemma AppendKeepsRing<N>(l: Links<N>, h: N, nodes: seq<N>, n: N)
    requires Ring(l, h, nodes) && n != h && (forall i :: 0 <= i < |nodes| ==> nodes[i] != h)
    requires forall i, j :: 0 <= i < j < |nodes| ==> nodes[i] != nodes[j]
    ensures Ring(Inserted(l, n, At(h, nodes, |nodes|), h), h, nodes + [n]) <==> n !in nodes
  {
    var rings := map[h := nodes];
    var l' := Inserted(l, n, At(h, nodes, |nodes|), h);
    if n in nodes {
      var k :| 0 <= k < |nodes| && nodes[k] == n;
      var i := if k == |nodes| - 1 then |nodes| + 1 else k + 1;
      assert !Follows(l', At(h, nodes + [n], i), At(h, nodes + [n], i + 1));
    } else {
      assert rings[h] == nodes;
      RingAppended(l, rings, h, n);
    }
  }

  /** Nodes outside the rings do not matter. */
  lemma LinksRestrict<N>(l: Links<N>, l': Links<N>, rings: Rings<N>)
    requires AllRings(l, rings)
    requires forall n :: n in Nodes(rings) && n in l.next ==> n in l'.next && l'.next[n] == l.next[n]
    requires forall n :: n in Nodes(rings) && n in l.prev ==> n in l'.prev && l'.prev[n] == l.prev[n]
    ensures AllRings(l', rings)
  {
    forall h | h in rings ensures Ring(l', h, rings[h]) {
      forall i | 0 <= i <= |rings[h]| ensures Follows(l', At(h, rings[h], i), At(h, rings[h], i + 1)) {
        assert Ring(l, h, rings[h]);
        assert Follows(l, At(h, rings[h], i), At(h, rings[h], i + 1));
        InNodes(rings, h, i);
        InNodes(rings, h, i + 1);
      }
    }
  }

  /** A new empty ring beside the others. */
  lemma AllOpened<N>(l: Links<N>, rings: Rings<N>, h: N)
    requires Separate(rings) && AllRings(l, rings) && h !in Nodes(rings) && Follows(l, h, h)
    ensures AllRings(l, rings[h := []]) && Separate(rings[h := []]) && Nodes(rings[h := []]) == Nodes(rings) + {h}
  {
    var r := rings[h := []];
    assert forall k, i :: k in rings && 0 <= i < |rings[k]| ==> rings[k][i] in Nodes(rings);
    assert forall k, i :: k in rings && 0 <= i < |rings[k]| ==> r[k][i] == rings[k][i];
  }

  lemma AppendedNodes<N>(rings: Rings<N>, h: N, n: N)
    requires h in rings
    ensures Nodes(Appended(rings, h, n)) == Nodes(rings) + {n}
  {
    var r := Appended(rings, h, n);
    assert r[h][|rings[h]|] == n;
    forall g, i | g in rings && 0 <= i < |rings[g]| ensures rings[g][i] in Nodes(r) {
      assert r[g][i] == rings[g][i];
    }
  }

  lemma DeletedNodes<N>(rings: Rings<N>, h: N, k: int)
    requires Separate(rings) && h in rings && 0 <= k < |rings[h]|
    ensures Nodes(Deleted(rings, h, k)) == Nodes(rings) - {rings[h][k]}
  {
    var r := Deleted(rings, h, k);
    forall g, i | g in r && 0 <= i < |r[g]| ensures r[g][i] in Nodes(rings) - {rings[h][k]} {
      assert r[g][i] == rings[g][if g == h && i >= k then i + 1 else i];
    }
    forall g, i | g in rings && 0 <= i < |rings[g]| && rings[g][i] != rings[h][k] ensures rings[g][i] in Nodes(r) {
      assert rings[g][i] == r[g][if g == h && i > k then i - 1 else i];
    }
  }

  // ---------- list.c, on the heap ----------

  class ListHead {
    var next: ListHead?
    var prev: ListHead?
    /** The PID of the task_struct that holds this node, which is where list_entry leads. */
    const task: int

    /** A node in no list. */
    constructor (task: int)
      ensures next == null && prev == null && this.task == task
    {
      next := null;
      prev := null;
      this.task := task;
    }

    /** INIT_LIST_HEAD */
    constructor Init(task: int)
      ensures next == this && prev == this && this.task == task
      ensures Linked(map[this := []])
    {
      this.task := task;
      new;
      next := this;
      prev := this;
    }
  }

  ghost function OrNull(n: ListHead?): Option<ListHead> {
    if n == null then None else Some(n)
  }

  /** The pointers of a set of nodes, as values. */
  ghost function LinksOf(nodes: set<ListHead>): Links<ListHead>
    reads nodes
  {
    Links(map n | n in nodes :: OrNull(n.next), map n | n in nodes :: OrNull(n.prev))
  }

  /** The heap holds these rings. */
  ghost predicate Linked(rings: Rings<ListHead>)
    reads Nodes(rings)
  {
    Separate(rings) && AllRings(LinksOf(Nodes(rings)), rings)
  }

  /** What following the pointers of a node of a ring gives. */
  lemma Neighbours(rings: Rings<ListHead>, h: ListHead, i: int)
    requires Linked(rings) && h in rings && 0 <= i <= |rings[h]|
    ensures At(h, rings[h], i).next == At(h, rings[h], i + 1)
    ensures At(h, rings[h], i + 1).prev == At(h, rings[h], i)
  {
    assert Ring(LinksOf(Nodes(rings)), h, rings[h]);
    assert Follows(LinksOf(Nodes(rings)), At(h, rings[h], i), At(h, rings[h], i + 1));
  }

  method SetNext(n: ListHead, to: ListHead?, ghost all: set<ListHead>)
    requires n in all
    modifies n`next
    ensures n.next == to && LinksOf(all) == Links(old(LinksOf(all)).next[n := OrNull(to)], old(LinksOf(all)).prev)
  {
    n.next := to;
  }

  method SetPrev(n: ListHead, to: ListHead?, ghost all: set<ListHead>)
    requires n in all
    modifies n`prev
    ensures n.prev == to && LinksOf(all) == Links(old(LinksOf(all)).next, old(LinksOf(all)).prev[n := OrNull(to)])
  {
    n.prev := to;
  }

  /** __list_add */
  method InsertBetween(n: ListHead, prev: ListHead, next: ListHead, ghost all: set<ListHead>)
    requires n != prev && n != next && n in all && prev in all && next in all
    modifies n, prev, next
    ensures LinksOf(all) == Inserted(old(LinksOf(all)), n, prev, next)
  {
    SetPrev(next, n, all);
    SetNext(n, next, all);
    SetPrev(n, prev, all);
    SetNext(prev, n, all);
  }

  /** list_add_tail: the node becomes the last of the ring. */
  method ListAddTail(n: ListHead, head: ListHead, ghost rings: Rings<ListHead>)
    requires Linked(rings) && head in rings && n !in Nodes(rings)
    modifies n, head, head.prev
    ensures Linked(Appended(rings, head, n))
  {
    ghost var all, last := Nodes(rings) + {n}, |rings[head]|;
    Neighbours(rings, head, last);
    InNodes(rings, head, last);
    ghost var l := LinksOf(all);
    LinksRestrict(LinksOf(Nodes(rings)), l, rings);
    InsertBetween(n, head.prev, head, all);
    SeparateAppended(rings, head, n);
    AppendedNodes(rings, head, n);
    AllAppended(l, rings, head, n);
  }

  /** __list_del, and the two pointers of the node itself */
  method Unlink(entry: ListHead, prev: ListHead, next: ListHead, ghost all: set<ListHead>)
    requires entry != prev && entry != next && entry in all && prev in all && next in all
    modifies entry, prev, next
    ensures LinksOf(all) == TakenOut(old(LinksOf(all)), entry, prev, next)
    ensures entry.next == null && entry.prev == null
  {
    SetPrev(next, prev, all);
    SetNext(prev, next, all);
    SetNext(entry, null, all);
    SetPrev(entry, null, all);
  }

  /** list_del: given a node alone, it leaves its ring, whichever that is, and its pointers become null. */
  method ListDel(entry: ListHead, ghost rings: Rings<ListHead>, ghost h: ListHead, ghost k: int)
    requires Linked(rings) && h in rings && 0 <= k < |rings[h]| && rings[h][k] == entry
    modifies entry, entry.prev, entry.next
    ensures Linked(Deleted(rings, h, k)) && entry.next == null && entry.prev == null
  {
    ghost var all := Nodes(rings);
    Neighbours(rings, h, k);
    Neighbours(rings, h, k + 1);
    InNodes(rings, h, k);
    InNodes(rings, h, k + 2);
    PlacesDiffer(rings, h, k, h, k + 1);
    assert entry == At(h, rings[h], k + 1);
    ghost var l := LinksOf(all);
    Unlink(entry, entry.prev, entry.next, all);
    SeparateDeleted(rings, h, k);
    DeletedNodes(rings, h, k);
    AllDeleted(l, rings, h, k);
    LinksRestrict(LinksOf(all), LinksOf(Nodes(Deleted(rings, h, k))), Deleted(rings, h, k));
  }

  /** list_empty */
  method ListEmpty(head: ListHead, ghost rings: Rings<ListHead>) returns (empty: bool)
    requires Linked(rings) && head in rings
    ensures empty <==> rings[head] == []
  {
    Neighbours(rings, head, 0);
    empty := head.next == head;
  }

  /** list_first */
  method ListFirst(head: ListHead, ghost rings: Rings<ListHead>) returns (n: ListHead)
    requires Linked(rings) && head in rings && rings[head] != []
    ensures n == rings[head][0]
  {
    Neighbours(rings, head, 0);
    n := head.next;
  }

  /** The walk of list_for_each that looks for the node of a task; it ends, at the node or back at the head. */
  method FindTask(head: ListHead, task: int, ghost rings: Rings<ListHead>) returns (n: ListHead?, ghost k: int)
    requires Linked(rings) && head in rings
    ensures n != null ==> 0 <= k < |rings[head]| && rings[head][k] == n && n.task == task
    ensures n == null ==> forall i :: 0 <= i < |rings[head]| ==> rings[head][i].task != task
  {
    ghost var nodes := rings[head];
    Neighbours(rings, head, 0);
    var pos := head.next;
    k := 0;
    while pos != head
      invariant 0 <= k <= |nodes| && pos == At(head, nodes, k + 1)
      invariant forall i :: 0 <= i < k ==> nodes[i].task != task
      decreases |nodes| - k
    {
      assert pos == nodes[k];
      if pos.task == task { return pos, k; }
      Neighbours(rings, head, k + 1);
      pos := pos.next;
      k := k + 1;
    }
    assert k == |nodes|;
    return null, k;
  }
}
