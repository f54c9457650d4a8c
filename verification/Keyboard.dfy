/** The circular keyboard buffer. */
module Keyboard {
  import opened Scheduling

  /** x & KBD_MASK */
  function Masked(x: nat): (r: nat)
    ensures r < KEYBOARD_BUF_SIZE
    ensures x < 2 * KEYBOARD_BUF_SIZE ==> r == if x < KEYBOARD_BUF_SIZE then x else x - KEYBOARD_BUF_SIZE
  {
    x % KEYBOARD_BUF_SIZE
  }

  /** `count` characters of a circular buffer, from `tail` on. */
  function Circle(b: seq<char>, tail: nat, count: nat): (s: seq<char>)
    requires |b| == KEYBOARD_BUF_SIZE
    ensures |s| == count
    ensures forall i :: 0 <= i < count ==> s[i] == b[Masked(tail + i)]
  {
    seq(count, i requires 0 <= i < count => b[Masked(tail + i)])
  }

  lemma CirclePut(b: seq<char>, tail: nat, count: nat, c: char)
    requires |b| == KEYBOARD_BUF_SIZE && tail < KEYBOARD_BUF_SIZE && count < KEYBOARD_BUF_SIZE
    ensures Circle(b[Masked(tail + count) := c], tail, count + 1) == Circle(b, tail, count) + [c]
    ensures Masked(Masked(tail + count) + 1) == Masked(tail + (count + 1))
  {
  }

  lemma CircleTake(b: seq<char>, tail: nat, count: nat)
    requires |b| == KEYBOARD_BUF_SIZE && tail < KEYBOARD_BUF_SIZE && 0 < count <= KEYBOARD_BUF_SIZE
    ensures Circle(b, tail, count) == [b[tail]] + Circle(b, Masked(tail + 1), count - 1)
    ensures Masked(Masked(tail + 1) + (count - 1)) == Masked(tail + count)
  {
  }

  lemma OneMore(a: seq<char>, c: char, b: seq<char>)
    ensures a + ([c] + b) == (a + [c]) + b
  {
  }

  class KeyboardBuffer {
    const buf: array<char>
    var head: nat
    var tail: nat
    var count: nat

    ghost predicate Valid()
      reads this
    {
      && buf.Length == KEYBOARD_BUF_SIZE
      && tail < KEYBOARD_BUF_SIZE && count <= KEYBOARD_BUF_SIZE
      && head == Masked(tail + count)
    }

    /** The characters waiting, oldest first. */
    ghost function Contents(): (s: seq<char>)
      requires Valid()
      reads this, buf
    {
      Circle(buf[..], tail, count)
    }

    constructor ()
      ensures Valid() && Contents() == [] && fresh(buf)
    {
      buf := new char[KEYBOARD_BUF_SIZE];
      head, tail, count := 0, 0, 0;
    }

    /** The first half of kbd_buf_write: the character is stored, unless the buffer is full. */
    method Put(c: char) returns (stored: bool)
      requires Valid()
      modifies this, buf
      ensures Valid() && stored == (|old(Contents())| < KEYBOARD_BUF_SIZE)
      ensures Contents() == if stored then old(Contents()) + [c] else old(Contents())
    {
      if count >= KEYBOARD_BUF_SIZE { return false; }
      CirclePut(buf[..], tail, count, c);
      buf[head] := c;
      head := Masked(head + 1);
      count := count + 1;
      return true;
    }

    /** kbd_buf_read: up to n characters, oldest first. */
    method Take(n: int) returns (dst: seq<char>)
      requires Valid()
      modifies this
      ensures Valid()
      ensures dst == old(Contents())[..Min(if n < 0 then 0 else n, |old(Contents())|)]
      ensures Contents() == old(Contents())[|dst|..]
    {
      ghost var was := Contents();
      dst := [];
      while |dst| < n && count > 0
        invariant Valid() && dst + Contents() == was && (|dst| <= n || dst == [])
      {
        CircleTake(buf[..], tail, count);
        OneMore(dst, buf[tail], Circle(buf[..], Masked(tail + 1), count - 1));
        dst := dst + [buf[tail]];
        tail := Masked(tail + 1);
        count := count - 1;
      }
      assert was[..|dst|] == dst && was[|dst|..] == Contents();
    }

    /** kbd_buf_flush */
    method Flush()
      requires Valid()
      modifies this
      ensures Valid() && Contents() == []
    {
      head, tail, count := 0, 0, 0;
    }
  }
}
