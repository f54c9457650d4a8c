/** Printing integers (itoa, itoa_hex, itoa_hexadecimal) and reading them back from the keyboard (read_int). */
module Numerals {
  import opened Machine

  const NUL: char := '\0'
  type Int32 = i: int | -0x8000_0000 <= i < 0x8000_0000

  predicate IsBase(base: int) {
    base == 10 || base == 16
  }

  function DigitChar(d: int): char
    requires 0 <= d < 16
  {
    "0123456789ABCDEF"[d]
  }

  /** The digits of a, most significant first; none for 0. */
  function Digits(base: int, a: int): (ds: seq<int>)
    requires IsBase(base) && 0 <= a
    ensures forall i :: 0 <= i < |ds| ==> 0 <= ds[i] < base
    decreases a
  {
    if a == 0 then [] else Digits(base, a / base) + [a % base]
  }

  function Chars(ds: seq<int>): (t: string)
    requires forall i :: 0 <= i < |ds| ==> 0 <= ds[i] < 16
  {
    seq(|ds|, i requires 0 <= i < |ds| => DigitChar(ds[i]))
  }

  /** The usual way of writing a. */
  function Numeral(base: int, a: int): string
    requires IsBase(base) && 0 <= a
  {
    if a == 0 then "0" else Chars(Digits(base, a))
  }

  /** What digits stand for. */
  function Value(base: int, ds: seq<int>): int {
    if ds == [] then 0 else Value(base, ds[..|ds| - 1]) * base + ds[|ds| - 1]
  }

  lemma {:induction false} DigitsDenote(base: int, a: int)
    requires IsBase(base) && 0 <= a
    ensures Value(base, Digits(base, a)) == a
    ensures a > 0 ==> Digits(base, a) != [] && Digits(base, a)[0] != 0
    decreases a
  {
    if a > 0 {
      DigitsDenote(base, a / base);
      var ds := Digits(base, a);
      assert ds[..|ds| - 1] == Digits(base, a / base);
      if base == 10 { assert a / 10 * 10 + a % 10 == a; } else { assert a / 16 * 16 + a % 16 == a; }
    }
  }

  lemma {:induction false} ValuePositive(base: int, ds: seq<int>)
    requires IsBase(base) && ds != [] && ds[0] != 0 && forall i :: 0 <= i < |ds| ==> 0 <= ds[i] < base
    ensures Value(base, ds) > 0
  {
    if |ds| > 1 { ValuePositive(base, ds[..|ds| - 1]); }
  }

  /** Digits without a leading zero are the digits of what they stand for. */
  lemma {:induction false} DigitsUnique(base: int, ds: seq<int>)
    requires IsBase(base) && (ds != [] ==> ds[0] != 0) && forall i :: 0 <= i < |ds| ==> 0 <= ds[i] < base
    ensures Value(base, ds) >= 0 && Digits(base, Value(base, ds)) == ds
  {
    if ds != [] {
      ValuePositive(base, ds);
      var rest, last := ds[..|ds| - 1], ds[|ds| - 1];
      DigitsUnique(base, rest);
      if base == 10 { LastDigit10(Value(10, rest), last); } else { LastDigit16(Value(16, rest), last); }
      assert ds == rest + [last];
    }
  }

  lemma LastDigit10(v: int, d: int)
    requires 0 <= d < 10
    ensures (v * 10 + d) / 10 == v && (v * 10 + d) % 10 == d
  {
  }

  lemma LastDigit16(v: int, d: int)
    requires 0 <= d < 16
    ensures (v * 16 + d) / 16 == v && (v * 16 + d) % 16 == d
  {
  }

  // ---------- the three printers ----------

  function Backwards<T>(s: seq<T>): (r: seq<T>)
    ensures |r| == |s| && forall i :: 0 <= i < |s| ==> r[i] == s[|s| - 1 - i]
  {
    seq(|s|, i requires 0 <= i < |s| => s[|s| - 1 - i])
  }

  /** The buffer b holds the text t with its terminator, and is otherwise as it was. */
  ghost predicate Holds(b: seq<char>, was: seq<char>, t: string) {
    |t| < |b| == |was| && b[..|t|] == t && b[|t|] == NUL && b[|t| + 1..] == was[|t| + 1..]
  }

  /** The last loop of each printer: the first n characters are put in the opposite order, and terminated. */
  method Finish(b: array<char>, n: int, ghost was: seq<char>)
    requires 0 <= n < b.Length == |was| && b[n..] == was[n..]
    modifies b
    ensures Holds(b[..], was, Backwards(old(b[..n])))
  {
    ghost var s := b[..n];
    var i := 0;
    while i < n / 2
      invariant 0 <= i <= n / 2
      invariant forall j :: 0 <= j < i ==> b[j] == s[n - 1 - j] && b[n - 1 - j] == s[j]
      invariant forall j :: i <= j < n - i ==> b[j] == s[j]
      invariant b[n..] == was[n..]
    {
      var c := b[i];
      b[i] := b[n - i - 1];
      b[n - i - 1] := c;
      i := i + 1;
    }
    forall j | 0 <= j < n ensures b[j] == s[n - 1 - j] {
      if n - i <= j { assert b[n - 1 - (n - 1 - j)] == s[n - 1 - j]; }
    }
    b[n] := NUL;
    assert b[..n] == Backwards(s);
    assert forall j :: n + 1 <= j < b.Length ==> b[j] == b[n..][j - n] && was[j] == was[n..][j - n];
  }

  /** Writing the last digit of what is left behind the characters written so far. */
  lemma OneMore(base: int, a: int, left: int, written: string, c: char)
    requires IsBase(base) && 0 < left && 0 <= a && c == DigitChar(left % base)
    requires Chars(Digits(base, a)) == Chars(Digits(base, left)) + Backwards(written)
    ensures Chars(Digits(base, a)) == Chars(Digits(base, left / base)) + Backwards(written + [c])
    ensures |Chars(Digits(base, a))| > |written|
  {
    var ds := Digits(base, left);
    assert Chars(ds) == Chars(Digits(base, left / base)) + [c];
    assert Backwards(written + [c]) == [c] + Backwards(written);
  }

  /** What itoa and itoa_hexadecimal print: nothing for a negative number. */
  function Printed(base: int, a: Int32): string
    requires IsBase(base)
  {
    if a < 0 then "" else Numeral(base, a)
  }

  /** One step of the first loop of each printer. */
  method PutDigit(b: array<char>, i: int, c: char, ghost was: seq<char>)
    requires 0 <= i < b.Length == |was| && b[i..] == was[i..]
    modifies b
    ensures b[..i + 1] == old(b[..i]) + [c] && b[i + 1..] == was[i + 1..]
  {
    b[i] := c;
    assert forall j :: i < j < b.Length ==> b[j] == old(b[i..])[j - i] && was[j] == was[i..][j - i];
  }

  method Itoa(a: Int32, b: array<char>)
    requires |Printed(10, a)| < b.Length
    modifies b
    ensures Holds(b[..], old(b[..]), Printed(10, a))
  {
    if a == 0 { b[0], b[1] := '0', NUL; return; }
    var i, left := 0, a;
    while left > 0
      invariant 0 <= i < b.Length && b[i..] == old(b[..])[i..]
      invariant a < 0 ==> left == a && i == 0
      invariant 0 <= a ==> 0 <= left <= a && Chars(Digits(10, a)) == Chars(Digits(10, left)) + Backwards(b[..i])
    {
      var c := (left % 10) as char + '0';
      assert c == DigitChar(left % 10);
      OneMore(10, a, left, b[..i], c);
      PutDigit(b, i, c, old(b[..]));
      left := left / 10;
      i := i + 1;
    }
    Finish(b, i, old(b[..]));
  }

  method HexDigit(rest: int) returns (c: char)
    requires 0 <= rest < 16
    ensures c == DigitChar(rest)
  {
    if rest < 10 {
      c := rest as char + '0';
    } else {
      c := (rest - 10) as char + 'A';
    }
  }

  method ItoaHexadecimal(a: Int32, b: array<char>)
    requires |Printed(16, a)| < b.Length
    modifies b
    ensures Holds(b[..], old(b[..]), Printed(16, a))
  {
    if a == 0 { b[0], b[1] := '0', NUL; return; }
    var i, left := 0, a;
    while left > 0
      invariant 0 <= i < b.Length && b[i..] == old(b[..])[i..]
      invariant a < 0 ==> left == a && i == 0
      invariant 0 <= a ==> 0 <= left <= a && Chars(Digits(16, a)) == Chars(Digits(16, left)) + Backwards(b[..i])
    {
      var rest := left % 16;
      OneMore(16, a, left, b[..i], DigitChar(rest));
      var c := HexDigit(rest);
      PutDigit(b, i, c, old(b[..]));
      left := left / 16;
      i := i + 1;
    }
    Finish(b, i, old(b[..]));
  }

  /** The conversion from int to unsigned int. */
  function Unsigned(a: Int32): Uint32 {
    if a < 0 then a + TWO_32 else a
  }

  method ItoaHex(a: Int32, b: array<char>)
    requires |Numeral(16, Unsigned(a))| < b.Length
    modifies b
    ensures Holds(b[..], old(b[..]), Numeral(16, Unsigned(a)))
  {
    if a == 0 { b[0], b[1] := '0', NUL; return; }
    var i, left := 0, Unsigned(a);
    while left > 0
      invariant 0 <= i < b.Length && b[i..] == old(b[..])[i..]
      invariant 0 <= left && Chars(Digits(16, Unsigned(a))) == Chars(Digits(16, left)) + Backwards(b[..i])
    {
      OneMore(16, Unsigned(a), left, b[..i], DigitChar(left % 16));
      PutDigit(b, i, "0123456789ABCDEF"[left % 16], old(b[..]));
      left := left / 16;
      i := i + 1;
    }
    Finish(b, i, old(b[..]));
  }

  /** itoa_hex prints a modulo 2^32 with no leading zero, and itoa_hexadecimal prints the same exactly when a >= 0. */
  lemma HexPrinters(a: Int32)
    ensures a != 0 ==>
      Value(16, Digits(16, Unsigned(a))) == Unsigned(a) && Numeral(16, Unsigned(a)) == Chars(Digits(16, Unsigned(a)))
    ensures a != 0 ==> Numeral(16, Unsigned(a)) != "" && Numeral(16, Unsigned(a))[0] != '0'
    ensures Printed(16, a) == Numeral(16, Unsigned(a)) <==> 0 <= a
  {
    DigitsDenote(16, Unsigned(a));
  }

  // ---------- reading ----------

  predicate IsDigit(c: char) {
    '0' <= c <= '9'
  }

  /** 32-bit arithmetic, which wraps around. */
  function Wrap(v: int): Int32 {
    if -0x8000_0000 <= v < 0x8000_0000 then v else (v + 0x8000_0000) % TWO_32 - 0x8000_0000
  }

  /** The digits among the characters typed before the first '.'. */
  function Typed(input: string): (ds: seq<int>)
    ensures forall i :: 0 <= i < |ds| ==> 0 <= ds[i] < 10
  {
    if input == "" || input[0] == '.' then []
    else (if IsDigit(input[0]) then [(input[0] - '0') as int] else []) + Typed(input[1..])
  }

  /** What follows the first '.'. */
  function AfterPeriod(input: string): string {
    if input == "" then "" else if input[0] == '.' then input[1..] else AfterPeriod(input[1..])
  }

  /** `val` after one more digit. */
  function Shifted(val: Int32, d: int): Int32 {
    Wrap(val * 10 + d)
  }

  /** `val` after some more digits. */
  function Accumulate(val: Int32, ds: seq<int>): Int32
    decreases |ds|
  {
    if ds == [] then val else Accumulate(Shifted(val, ds[0]), ds[1..])
  }

  lemma OneTyped(val: Int32, input: string)
    requires input != "" && input[0] != '.'
    ensures
      if IsDigit(input[0]) then
        && Accumulate(val, Typed(input)) == Accumulate(Shifted(val, (input[0] - '0') as int), Typed(input[1..]))
        && Chars(Typed(input)) == [input[0]] + Chars(Typed(input[1..]))
      else
        Typed(input) == Typed(input[1..])
  {
    if IsDigit(input[0]) {
      var ds := Typed(input);
      assert ds == [(input[0] - '0') as int] + Typed(input[1..]);
      assert ds[1..] == Typed(input[1..]);
    } else {
      assert Typed(input) == [] + Typed(input[1..]);
    }
  }

  /** What a read of one character comes back with. */
  datatype Read = Nothing | Got(c: char)

  /** The variable `c` of read_int after one more read: one that comes back with nothing leaves it as it was. */
  function After(answer: Read, c: char): char {
    match answer
    case Nothing => c
    case Got(d) => d
  }

  /** The variable after each read. */
  function Heard(answers: seq<Read>, c: char): (t: string)
    ensures |t| == |answers|
  {
    if answers == [] then "" else [After(answers[0], c)] + Heard(answers[1..], After(answers[0], c))
  }

  /** The reads that are not made any more once the variable is '.'. */
  function Unread(answers: seq<Read>, c: char): (rest: seq<Read>)
    ensures |rest| <= |answers| && rest == answers[|answers| - |rest|..]
    ensures |rest| == |AfterPeriod(Heard(answers, c))|
  {
    if answers == [] then []
    else
      HeardFirst(answers, c);
      if After(answers[0], c) == '.' then answers[1..] else Unread(answers[1..], After(answers[0], c))
  }

  lemma HeardFirst(answers: seq<Read>, c: char)
    requires answers != []
    ensures var input := Heard(answers, c);
      input != "" && input[0] == After(answers[0], c) && input[1..] == Heard(answers[1..], After(answers[0], c))
  {
  }

  /** The characters that were typed. */
  function Delivered(answers: seq<Read>): string {
    if answers == [] then "" else (if answers[0].Got? then [answers[0].c] else "") + Delivered(answers[1..])
  }

  /** One round of read_int. */
  lemma OneRound(answers: seq<Read>, c: char, val: Int32)
    requires answers != [] && '.' in Heard(answers, c)
    ensures var c', ds := After(answers[0], c), Typed(Heard(answers, c));
      var more := Typed(Heard(answers[1..], c'));
      if c' == '.' then ds == [] && Unread(answers, c) == answers[1..]
      else
        && '.' in Heard(answers[1..], c') && Unread(answers, c) == Unread(answers[1..], c')
        && (!IsDigit(c') ==> ds == more)
        && (IsDigit(c') ==> Accumulate(val, ds) == Accumulate(Shifted(val, (c' - '0') as int), more))
        && (IsDigit(c') ==> Chars(ds) == [c'] + Chars(more))
  {
    HeardFirst(answers, c);
    if After(answers[0], c) != '.' { OneTyped(val, Heard(answers, c)); }
  }

  /** Where read_int stands: what is still to be read completes `val` and `echo` to what all the reads give. */
  ghost predicate Reading(answers: seq<Read>, garbage: char, rest: seq<Read>, c: char, val: Int32, echo: string) {
    var ds, more := Typed(Heard(answers, garbage)), Typed(Heard(rest, c));
    && '.' in Heard(rest, c) && Unread(rest, c) == Unread(answers, garbage)
    && Accumulate(val, more) == Accumulate(0, ds) && echo + Chars(more) == Chars(ds)
  }

  lemma ReadingGoesOn(answers: seq<Read>, garbage: char, rest: seq<Read>, c: char, val: Int32, echo: string)
    requires rest != [] && Reading(answers, garbage, rest, c, val, echo)
    ensures var c' := After(rest[0], c);
      if c' == '.' then
        && val == Accumulate(0, Typed(Heard(answers, garbage))) && echo == Chars(Typed(Heard(answers, garbage)))
        && rest[1..] == Unread(answers, garbage)
      else if IsDigit(c') then
        Reading(answers, garbage, rest[1..], c', Shifted(val, (c' - '0') as int), echo + [c'])
      else
        Reading(answers, garbage, rest[1..], c', val, echo)
  {
    OneRound(rest, c, val);
  }

  /** read_int, with what its reads come back with and what is in `c` at first; `echo` is what it writes. */
  method ReadInt(answers: seq<Read>, garbage: char) returns (val: Int32, echo: string, rest: seq<Read>)
    requires '.' in Heard(answers, garbage)
    ensures var ds := Typed(Heard(answers, garbage)); val == Accumulate(0, ds) && echo == Chars(ds) + " "
    ensures rest == Unread(answers, garbage)
  {
    var c := garbage;
    val, echo, rest := 0, "", answers;
    while true
      invariant Reading(answers, garbage, rest, c, val, echo)
      decreases |rest|
    {
      ReadingGoesOn(answers, garbage, rest, c, val, echo);
      c := After(rest[0], c);
      rest := rest[1..];
      if c == '.' { break; }
      if IsDigit(c) {
        echo := echo + [c];
        val := Shifted(val, (c - '0') as int);
      }
    }
    echo := echo + " ";
  }

  /** Before the first '.', some read comes back with nothing while `c` holds a digit. */
  predicate Repeats(answers: seq<Read>, c: char) {
    answers != [] &&
    match answers[0]
    case Nothing => IsDigit(c) || Repeats(answers[1..], c)
    case Got(d) => d != '.' && Repeats(answers[1..], d)
  }

  lemma TypedFirst(c: char, t: string)
    ensures |[c] + t| == 1 + |t| && ([c] + t)[1..] == t
    ensures Typed([c] + t) == if c == '.' then [] else if IsDigit(c) then [(c - '0') as int] + Typed(t) else Typed(t)
  {
    assert ([c] + t)[1..] == t;
    if c != '.' && !IsDigit(c) { assert [] + Typed(t) == Typed(t); }
  }

  /**
   * read_int takes exactly the digits that were typed unless a read fails just after a digit, which then counts again.
   */
  lemma {:induction false} DigitsCountOnce(answers: seq<Read>, c: char)
    requires c != '.'
    ensures |Typed(Heard(answers, c))| >= |Typed(Delivered(answers))|
    ensures Typed(Heard(answers, c)) == Typed(Delivered(answers)) <==> !Repeats(answers, c)
    decreases |answers|
  {
    if answers != [] {
      var c', more := After(answers[0], c), answers[1..];
      TypedFirst(c', Heard(more, c'));
      if answers[0].Got? { TypedFirst(c', Delivered(more)); } else { assert Delivered(answers) == Delivered(more); }
      if c' != '.' {
        DigitsCountOnce(more, c');
        if IsDigit(c') { SameHead((c' - '0') as int, Typed(Heard(more, c')), Typed(Delivered(more))); }
      }
    }
  }

  /** When no read fails, read_int hears what was typed. */
  lemma {:induction false} AllHeard(answers: seq<Read>, c: char)
    requires forall i :: 0 <= i < |answers| ==> answers[i].Got?
    ensures Heard(answers, c) == Delivered(answers)
  {
    if answers != [] { AllHeard(answers[1..], answers[0].c); }
  }

  lemma SameHead(d: int, a: seq<int>, b: seq<int>)
    ensures [d] + a == [d] + b <==> a == b
  {
    assert ([d] + a)[1..] == a && ([d] + b)[1..] == b;
  }

  lemma {:induction false} ValueAppend(base: int, ds: seq<int>, more: seq<int>)
    requires IsBase(base) && forall i :: 0 <= i < |more| ==> 0 <= more[i] < base
    requires Value(base, ds) >= 0
    ensures Value(base, ds) <= Value(base, ds + more)
  {
    if more != [] {
      var all := ds + more;
      assert all[..|all| - 1] == ds + more[..|more| - 1];
      ValueAppend(base, ds, more[..|more| - 1]);
      if base == 10 { assert Value(10, all) == Value(10, all[..|all| - 1]) * 10 + all[|all| - 1]; }
    } else {
      assert ds + more == ds;
    }
  }

  lemma ValueOneMore(done: seq<int>, d: int)
    ensures Value(10, done + [d]) == Value(10, done) * 10 + d
  {
    assert (done + [d])[..|done|] == done;
  }

  /** As long as the number fits, reading it never overflows and gives what the digits stand for. */
  lemma {:induction false} NoOverflow(done: seq<int>, ds: seq<int>)
    requires forall i :: 0 <= i < |ds| ==> 0 <= ds[i] < 10
    requires 0 <= Value(10, done) && Value(10, done + ds) < 0x8000_0000
    ensures Value(10, done) < 0x8000_0000 && Accumulate(Value(10, done), ds) == Value(10, done + ds)
    decreases |ds|
  {
    ValueAppend(10, done, ds);
    if ds != [] {
      var more := done + [ds[0]];
      ValueOneMore(done, ds[0]);
      assert done + ds == more + ds[1..];
      NoOverflow(more, ds[1..]);
      assert Wrap(Value(10, done) * 10 + ds[0]) == Value(10, more);
    } else {
      assert done + ds == done;
    }
  }

  lemma DigitBack(d: int)
    requires 0 <= d < 10
    ensures IsDigit(DigitChar(d)) && DigitChar(d) != '.' && (DigitChar(d) - '0') as int == d
  {
  }

  lemma TypedOne(d: int, t: string)
    requires 0 <= d < 10
    ensures Typed([DigitChar(d)] + t) == [d] + Typed(t) && AfterPeriod([DigitChar(d)] + t) == AfterPeriod(t)
  {
    DigitBack(d);
    assert ([DigitChar(d)] + t)[1..] == t;
  }

  lemma {:induction false} TypedBack(ds: seq<int>, rest: string)
    requires forall i :: 0 <= i < |ds| ==> 0 <= ds[i] < 10
    ensures Typed(Chars(ds) + "." + rest) == ds && AfterPeriod(Chars(ds) + "." + rest) == rest
    ensures '.' in Chars(ds) + "." + rest
  {
    if ds != [] {
      var t := Chars(ds[1..]) + "." + rest;
      assert Chars(ds) + "." + rest == [DigitChar(ds[0])] + t;
      TypedBack(ds[1..], rest);
      TypedOne(ds[0], t);
      assert ds == [ds[0]] + ds[1..];
    }
  }

  /**
   * The printed form of a number, followed by '.', is read back as that number, without overflow, and echoed as it was.
   */
  lemma PrintThenRead(a: Int32, rest: string)
    requires 0 <= a
    ensures var input := Printed(10, a) + "." + rest;
      '.' in input && Accumulate(0, Typed(input)) == a && Chars(Typed(input)) == Printed(10, a)
        && AfterPeriod(input) == rest
    ensures var ds := Typed(Printed(10, a) + "." + rest);
      forall n :: 0 <= n <= |ds| ==> 0 <= Value(10, ds[..n]) < 0x8000_0000
  {
    var ds := if a == 0 then [0] else Digits(10, a);
    DigitsDenote(10, a);
    assert Printed(10, a) == Chars(ds);
    TypedBack(ds, rest);
    assert Value(10, ds) == a;
    assert [] + ds == ds;
    NoOverflow([], ds);
    forall n | 0 <= n <= |ds| ensures 0 <= Value(10, ds[..n]) < 0x8000_0000 { PrefixValue(ds, n); }
  }

  lemma PrefixValue(ds: seq<int>, n: int)
    requires 0 <= n <= |ds| && forall i :: 0 <= i < |ds| ==> 0 <= ds[i] < 10
    ensures 0 <= Value(10, ds[..n]) <= Value(10, ds)
  {
    assert ds[..n] + ds[n..] == ds;
    assert [] + ds[..n] == ds[..n];
    ValueAppend(10, [], ds[..n]);
    ValueAppend(10, ds[..n], ds[n..]);
  }

  /** And the other way: digits without a leading zero are printed as they were typed, if they fit. */
  lemma ReadThenPrint(ds: seq<int>, rest: string)
    requires ds != [] && ds[0] != 0 && Value(10, ds) < 0x8000_0000 && forall i :: 0 <= i < |ds| ==> 0 <= ds[i] < 10
    ensures Printed(10, Accumulate(0, Typed(Chars(ds) + "." + rest))) == Chars(ds)
  {
    TypedBack(ds, rest);
    assert [] + ds == ds;
    NoOverflow([], ds);
    DigitsUnique(10, ds);
    ValuePositive(10, ds);
  }
}
