/** Sequences of task or frame numbers. */
module Sequences {
  /** The first place of t. */
  function Position(q: seq<int>, t: int): (i: int)
    requires t in q
    ensures 0 <= i < |q| && q[i] == t
  {
    if q[0] == t then 0 else 1 + Position(q[1..], t)
  }

  ghost predicate Distinct(q: seq<int>) {
    forall i, j :: 0 <= i < j < |q| ==> q[i] != q[j]
  }
}
