/**
 * What list words lead to, whatever the frames have become: links of list_tasks lead to words where a task_struct has
 * its task_list, and links of families to words where it has its lists of children or its sibiling.
 */
module LinkKinds {
  import opened Machine
  import opened PcbLists
  import opened LinkedMemory
  import opened LinkedRuns

  /** The frames of the kernel's head of list_tasks. */
  predicate HeadFrame(v: Vars, f: int) {
    f == v.tasks.frame || f == Plus(v.tasks, 1).frame
  }

  predicate TaskNode(v: Vars, x: Place) {
    x == v.tasks || (x.index == TASK_LIST && !HeadFrame(v, x.frame))
  }

  predicate KidNode(v: Vars, x: Place) {
    (x.index == CHILDREN_BLOCKED || x.index == CHILDREN_UNBLOCKED || x.index == SIBILING) && !HeadFrame(v, x.frame)
  }

  /** A node of list_tasks, or one of a family. */
  predicate NodeOf(v: Vars, inTasks: bool, x: Place) {
    if inTasks then TaskNode(v, x) else KidNode(v, x)
  }

  predicate TaskWord(v: Vars, q: Place) {
    q == v.tasks || q == Plus(v.tasks, 1) || TASK_LIST <= q.index <= TASK_LIST + 1
  }

  predicate KidWord(q: Place) {
    CHILDREN_BLOCKED <= q.index <= SIBILING + 1
  }

  /** The words whose links matter: those of list_tasks' head and of the PCBs in `frames`; idle has no family. */
  predicate Watched(v: Vars, frames: set<int>, q: Place) {
    || q == v.tasks || q == Plus(v.tasks, 1)
    || (q.frame in frames && !HeadFrame(v, q.frame)
        && (TASK_LIST <= q.index <= TASK_LIST + 1 || (KidWord(q) && q.frame != v.idlePcb)))
  }

  /** The link w is one for the word q. */
  predicate Fits(v: Vars, q: Place, w: Word) {
    NodeOf(v, TaskWord(v, q), Target(w))
  }

  ghost predicate LinksFit(ram: seq<Page>, v: Vars, frames: set<int>, except: set<Place>) {
    forall q :: Watched(v, frames, q) && q !in except ==> Fits(v, q, WordAt(ram, q))
  }

  lemma LinksOf(ram: seq<Page>, v: Vars, frames: set<int>, inTasks: bool, x: Place)
    requires LinksFit(ram, v, frames, {}) && NodeOf(v, inTasks, x)
    requires x == v.tasks || (x.frame in frames && (inTasks || x.frame != v.idlePcb))
    ensures NodeOf(v, inTasks, Next(ram, x)) && NodeOf(v, inTasks, Prev(ram, x))
  {
    assert Watched(v, frames, x) && Watched(v, frames, Plus(x, 1));
  }

  /** The two words of a node are of its kind. */
  lemma NodeWords(v: Vars, inTasks: bool, x: Place)
    requires NodeOf(v, inTasks, x)
    ensures x == v.tasks || Plus(x, 1).frame == x.frame
    ensures TaskWord(v, x) <==> inTasks
    ensures TaskWord(v, Plus(x, 1)) <==> inTasks
  {
  }

  lemma PutFits(ram: seq<Page>, v: Vars, frames: set<int>, except: set<Place>, inTasks: bool, p: Place, x: Place)
    requires LinksFit(ram, v, frames, except) && (TaskWord(v, p) <==> inTasks) && NodeOf(v, inTasks, x)
    ensures LinksFit(Put(ram, p, Pointer(x)), v, frames, except)
    ensures p.frame < |ram| ==> LinksFit(Put(ram, p, Pointer(x)), v, frames, except - {p})
  {
    PointerBack(x);
    forall q | Watched(v, frames, q) && q !in except ensures Fits(v, q, WordAt(Put(ram, p, Pointer(x)), q)) {
      WordAfterPut(ram, p, Pointer(x), q);
    }
    if p.frame < |ram| { WordAfterPut(ram, p, Pointer(x), p); }
    forall q | Watched(v, frames, q) && q !in except - {p} && p.frame < |ram|
      ensures Fits(v, q, WordAt(Put(ram, p, Pointer(x)), q))
    {
      WordAfterPut(ram, p, Pointer(x), q);
    }
  }

  lemma PutElsewhere(ram: seq<Page>, v: Vars, frames: set<int>, except: set<Place>, p: Place, w: Word)
    requires LinksFit(ram, v, frames, except) && (p in except || !Watched(v, frames, p))
    ensures LinksFit(Put(ram, p, w), v, frames, except)
  {
    forall q | Watched(v, frames, q) && q !in except ensures Fits(v, q, WordAt(Put(ram, p, w), q)) {
      WordAfterPut(ram, p, w, q);
    }
  }

  /** list_add_tail of a node of the right kind. */
  lemma AddTailFits(ram: seq<Page>, v: Vars, frames: set<int>, except: set<Place>, inTasks: bool, n: Place, h: Place)
    requires LinksFit(ram, v, frames, except) && NodeOf(v, inTasks, n) && NodeOf(v, inTasks, h)
    requires NodeOf(v, inTasks, Prev(ram, h)) && n.frame < |ram| && Plus(n, 1).frame < |ram|
    ensures LinksFit(AddTail(ram, n, h), v, frames, except - {n} - {Plus(n, 1)})
  {
    var last := Prev(ram, h);
    var ram1 := Put(ram, Plus(h, 1), Pointer(n));
    var ram2 := Put(ram1, n, Pointer(h));
    var ram3 := Put(ram2, Plus(n, 1), Pointer(last));
    NodeWords(v, inTasks, n);
    NodeWords(v, inTasks, h);
    NodeWords(v, inTasks, last);
    PutFits(ram, v, frames, except, inTasks, Plus(h, 1), n);
    PutFits(ram1, v, frames, except, inTasks, n, h);
    PutFits(ram2, v, frames, except - {n}, inTasks, Plus(n, 1), last);
    PutFits(ram3, v, frames, except - {n} - {Plus(n, 1)}, inTasks, last, n);
  }

  /** list_del leaves null links in the node. */
  lemma DelFits(ram: seq<Page>, v: Vars, frames: set<int>, inTasks: bool, e: Place)
    requires LinksFit(ram, v, frames, {}) && NodeOf(v, inTasks, Next(ram, e)) && NodeOf(v, inTasks, Prev(ram, e))
    ensures LinksFit(Del(ram, e), v, frames, {e, Plus(e, 1)})
  {
    var next, prev, except := Next(ram, e), Prev(ram, e), {e, Plus(e, 1)};
    var ram1 := Put(ram, Plus(next, 1), Pointer(prev));
    var ram2 := Put(ram1, prev, Pointer(next));
    NodeWords(v, inTasks, next);
    NodeWords(v, inTasks, prev);
    PutFits(ram, v, frames, {}, inTasks, Plus(next, 1), prev);
    PutFits(ram1, v, frames, {}, inTasks, prev, next);
    PutElsewhere(ram2, v, frames, except, e, ZERO_WORD);
    PutElsewhere(Put(ram2, e, ZERO_WORD), v, frames, except, Plus(e, 1), ZERO_WORD);
  }

  lemma InitFits(ram: seq<Page>, v: Vars, frames: set<int>, inTasks: bool, h: Place)
    requires LinksFit(ram, v, frames, {}) && NodeOf(v, inTasks, h)
    ensures LinksFit(InitHead(ram, h), v, frames, {})
  {
    NodeWords(v, inTasks, h);
    PutFits(ram, v, frames, {}, inTasks, h, h);
    PutFits(Put(ram, h, Pointer(h)), v, frames, {}, inTasks, Plus(h, 1), h);
  }

  /** Fewer frames to watch. */
  lemma FewerFit(ram: seq<Page>, v: Vars, frames: set<int>, fewer: set<int>, except: set<Place>)
    requires LinksFit(ram, v, frames, except) && fewer <= frames
    requires forall q :: q in except ==> !Watched(v, fewer, q)
    ensures LinksFit(ram, v, fewer, {})
  {
    forall q | Watched(v, fewer, q) ensures Fits(v, q, WordAt(ram, q)) { assert Watched(v, frames, q); }
  }

  /** Pages that stay have the same links. */
  lemma SamePagesFit(ram: seq<Page>, ram': seq<Page>, v: Vars, frames: set<int>)
    requires LinksFit(ram, v, frames, {}) && |ram'| == |ram|
    requires forall f :: f in frames || HeadFrame(v, f) ==> 0 <= f < |ram| && ram'[f] == ram[f]
    ensures LinksFit(ram', v, frames, {})
  {
    forall q | Watched(v, frames, q) ensures Fits(v, q, WordAt(ram', q)) {
      assert q.frame in frames || HeadFrame(v, q.frame);
      assert WordAt(ram', q) == WordAt(ram, q);
    }
  }

  // ---------- the list operations of the kernel ----------

  /** alloc_pcb, in a frame that is not watched. */
  lemma EnlistFits(ram: seq<Page>, v: Vars, frames: set<int>, c: int)
    requires LinksFit(ram, v, frames, {}) && 0 <= c < |ram| <= TOTAL_PAGES && c !in frames && !HeadFrame(v, c)
    ensures LinksFit(Enlist(ram, c, v.tasks), v, frames, {}) && TaskNode(v, Prev(ram, v.tasks))
  {
    var n := Member(c, TASK_LIST);
    var ram1 := InitHead(ram, n);
    LinksOf(ram, v, frames, true, v.tasks);
    InitFits(ram, v, frames, true, n);
    InitStaysWithin(ram, n);
    assert Prev(ram1, v.tasks) == Prev(ram, v.tasks);
    AddTailFits(ram1, v, frames, {}, true, n, v.tasks);
    assert {} - {n} - {Plus(n, 1)} == {};
  }

  /** The words of list_tasks are not among those of a task_struct that come before its node there. */
  lemma TaskNodeIsElsewhere(v: Vars, x: Place, f: int, i: Index)
    requires TaskNode(v, x) && 0 <= f < TOTAL_PAGES && !HeadFrame(v, f) && i < TASK_LIST
    ensures Member(f, i) != x && Member(f, i) != Plus(x, 1)
  {
  }

  lemma EnlistSpares(ram: seq<Page>, v: Vars, c: int, f: int, i: Index)
    requires 0 <= c < TOTAL_PAGES && !HeadFrame(v, c) && TaskNode(v, Prev(ram, v.tasks))
    requires 0 <= f < TOTAL_PAGES && !HeadFrame(v, f) && i < TASK_LIST
    ensures WordAt(Enlist(ram, c, v.tasks), Member(f, i)) == WordAt(ram, Member(f, i))
  {
    var n := Member(c, TASK_LIST);
    var ram1 := InitHead(ram, n);
    InitStaysWithin(ram, n);
    assert Prev(ram1, v.tasks) == Prev(ram, v.tasks);
    AddTailStaysWithin(ram1, n, v.tasks);
    TaskNodeIsElsewhere(v, Prev(ram, v.tasks), f, i);
    TaskNodeIsElsewhere(v, v.tasks, f, i);
  }

  /** free_pcb, of a PCB that is not watched any more. */
  lemma UnlinkFits(ram: seq<Page>, v: Vars, frames: set<int>, t: int)
    requires LinksFit(ram, v, frames, {}) && 0 <= t < |ram| <= TOTAL_PAGES && t in frames && !HeadFrame(v, t)
    ensures LinksFit(Del(ram, Member(t, TASK_LIST)), v, frames - {t}, {})
  {
    var e := Member(t, TASK_LIST);
    LinksOf(ram, v, frames, true, e);
    DelFits(ram, v, frames, true, e);
    assert Plus(e, 1) == Member(t, TASK_LIST + 1);
    forall q | q in {e, Plus(e, 1)} ensures !Watched(v, frames - {t}, q) { assert q.frame == t; }
    FewerFit(Del(ram, e), v, frames, frames - {t}, {e, Plus(e, 1)});
  }

  /** The words of a new PCB that is a copy of a watched one. */
  lemma CopyFits(ram: seq<Page>, ram': seq<Page>, v: Vars, frames: set<int>, t: int, c: int)
    requires LinksFit(ram, v, frames, {}) && |ram'| == |ram| && t in frames && t != v.idlePcb && !HeadFrame(v, t)
    requires 0 <= c < |ram| <= TOTAL_PAGES && !HeadFrame(v, c) && 0 <= t < |ram| && ram'[c] == ram[t]
    requires forall f :: f in frames || HeadFrame(v, f) ==> 0 <= f < |ram| && ram'[f] == ram[f]
    ensures LinksFit(ram', v, frames + {c}, {})
  {
    SamePagesFit(ram, ram', v, frames);
    forall q | Watched(v, frames + {c}, q) ensures Fits(v, q, WordAt(ram', q)) {
      if q.frame == c {
        var q' := Member(t, q.index);
        assert Watched(v, frames, q') && WordAt(ram', q) == WordAt(ram, q');
        assert TaskWord(v, q) <==> TaskWord(v, q');
      } else {
        assert Watched(v, frames, q);
      }
    }
  }

  /** The family part of fork. */
  lemma JoinFits(ram: seq<Page>, v: Vars, frames: set<int>, t: int, c: int)
    requires LinksFit(ram, v, frames, {}) && |ram| == TOTAL_PAGES && t in frames && t != v.idlePcb && !HeadFrame(v, t)
    requires 0 <= c < TOTAL_PAGES && 0 <= t < TOTAL_PAGES && t != c && !HeadFrame(v, c)
    ensures LinksFit(JoinFamily(ram, c, t), v, frames, {})
  {
    var node, head := Member(c, SIBILING), Member(t, CHILDREN_UNBLOCKED);
    var ram1 := Put(ram, Member(c, PARENT), Pointer(Member(t, 0)));
    var ram2 := InitHead(ram1, Member(c, CHILDREN_BLOCKED));
    var ram3 := NewFamily(ram, c, t);
    LinksOf(ram, v, frames, false, head);
    PutElsewhere(ram, v, frames, {}, Member(c, PARENT), Pointer(Member(t, 0)));
    InitFits(ram1, v, frames, false, Member(c, CHILDREN_BLOCKED));
    InitFits(ram2, v, frames, false, Member(c, CHILDREN_UNBLOCKED));
    NewFamilyReads(ram, c, t, Plus(head, 1));
    AddTailFits(ram3, v, frames, {}, false, node, head);
    assert {} - {node} - {Plus(node, 1)} == {};
    PutElsewhere(LinkChild(ram, c, t), v, frames, {}, Member(c, PENDING_UNBLOCKS), ZERO_WORD);
  }

  /** A sibling's node is moved to a list of children. */
  lemma MoveFits(ram: seq<Page>, v: Vars, frames: set<int>, e: Place, h: Place)
    requires LinksFit(ram, v, frames, {}) && e.index == SIBILING && e.frame in frames && e.frame != v.idlePcb
    requires KidNode(v, e) && KidNode(v, h) && h.index != SIBILING && KidNode(v, Prev(ram, h))
    requires e.frame < |ram| && h.frame < |ram|
    ensures LinksFit(Move(ram, e, h), v, frames, {})
  {
    LinksOf(ram, v, frames, false, e);
    DelFits(ram, v, frames, false, e);
    DelReadsAt(ram, e, Plus(h, 1));
    PointerBack(Prev(ram, e));
    AddTailFits(Del(ram, e), v, frames, {e, Plus(e, 1)}, false, e, h);
    assert {e, Plus(e, 1)} - {e} - {Plus(e, 1)} == {};
  }
}
