/** The byte map of physical frames, and the frames that alloc_frame can still hand out. */
module Frames {
  import opened Machine

  /** The free frames from `lo` upwards, lowest first. */
  function FreeFrom(phys: seq<Byte>, lo: nat): (fs: seq<int>)
    requires lo <= |phys|
    ensures forall f :: f in fs <==> lo <= f < |phys| && phys[f] == FREE_FRAME
    ensures Ascending(fs)
    decreases |phys| - lo
  {
    if lo == |phys| then []
    else
      var rest := FreeFrom(phys, lo + 1);
      if phys[lo] == FREE_FRAME then
        assert forall j :: 0 <= j < |rest| ==> rest[j] in rest;
        [lo] + rest
      else rest
  }

  ghost predicate Ascending(fs: seq<int>) {
    forall i, j :: 0 <= i < j < |fs| ==> fs[i] < fs[j]
  }

  lemma InRest(q: seq<int>, x: int)
    requires x in q && x != q[0]
    ensures x in q[1..]
  {
    var k :| 0 <= k < |q| && q[k] == x;
    assert q[1..][k - 1] == x;
  }

  lemma {:induction false} AscendingUnique(a: seq<int>, b: seq<int>)
    requires Ascending(a) && Ascending(b)
    requires forall x :: x in a <==> x in b
    ensures a == b
  {
    assert a != [] ==> a[0] in a;
    assert b != [] ==> b[0] in b;
    if a == [] {
      assert b == [];
    } else {
      assert a[0] == b[0] by {
        assert forall k :: 0 <= k < |a| ==> a[0] <= a[k];
        assert forall k :: 0 <= k < |b| ==> b[0] <= b[k];
      }
      forall x ensures x in a[1..] <==> x in b[1..] {
        if x in a[1..] { InRest(b, x); }
        if x in b[1..] { InRest(a, x); }
      }
      AscendingUnique(a[1..], b[1..]);
    }
  }

  /** Marks every frame of `fs`. */
  function Marked(phys: seq<Byte>, fs: seq<int>, mark: Byte): (phys': seq<Byte>)
    ensures |phys'| == |phys|
    ensures forall f :: 0 <= f < |phys| ==> phys'[f] == if f in fs then mark else phys[f]
  {
    seq(|phys|, f requires 0 <= f < |phys| => if f in fs then mark else phys[f])
  }

  /** Using the lowest k free frames leaves exactly the others. */
  lemma UseLowest(phys: seq<Byte>, lo: nat, k: nat)
    requires lo <= |phys|
    requires k <= |FreeFrom(phys, lo)|
    ensures FreeFrom(Marked(phys, FreeFrom(phys, lo)[..k], USED_FRAME), lo) == FreeFrom(phys, lo)[k..]
  {
    var fs := FreeFrom(phys, lo);
    var rest := FreeFrom(Marked(phys, fs[..k], USED_FRAME), lo);
    forall x ensures x in rest <==> x in fs[k..] {
      if x in fs {
        var i :| 0 <= i < |fs| && fs[i] == x;
        if i < k { assert fs[..k][i] == x; } else { assert fs[k..][i - k] == x; }
      }
    }
    AscendingUnique(rest, fs[k..]);
  }

  /** Giving back frames that were in use adds exactly that many free frames. */
  lemma {:induction false} GiveBack(phys: seq<Byte>, lo: nat, fs: set<int>, phys': seq<Byte>)
    requires lo <= |phys| == |phys'|
    requires forall f :: f in fs ==> lo <= f < |phys| && phys[f] != FREE_FRAME
    requires forall f :: lo <= f < |phys| ==> phys'[f] == if f in fs then FREE_FRAME else phys[f]
    ensures |FreeFrom(phys', lo)| == |FreeFrom(phys, lo)| + |fs|
    decreases |phys| - lo
  {
    if lo == |phys| {
      assert forall f :: f !in fs;
      assert fs == {};
    } else {
      GiveBack(phys, lo + 1, fs - {lo}, phys');
    }
  }
}
