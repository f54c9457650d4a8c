/** The text screen: printc, and write as a sequence of pieces of at most 256 characters. */
module Console {
  import opened Machine

  const NUM_COLUMNS: int := 80
  const NUM_ROWS: int := 25
  const BUFF_SIZE: int := 256
  const EBADF: int := 9

  /** A coordinate of the cursor, which is a byte. */
  type Coordinate = i: int | 0 <= i < 0x100

  datatype Cell = Cell(c: char, color: Byte)

  /** The memory from 0xb8000 on that a cursor of two bytes can reach: 255 rows of 80, and 256 cells. */
  const VIDEO_CELLS: int := 20656

  /** The memory of the screen, whose first 2000 cells are shown, and the cursor. */
  datatype Screen = Screen(cells: seq<Cell>, x: Coordinate, y: Coordinate, color: Byte)

  predicate InVideo(s: Screen) {
    |s.cells| == VIDEO_CELLS
  }

  predicate OnScreen(s: Screen) {
    InVideo(s) && s.x < NUM_COLUMNS && s.y < NUM_ROWS
  }

  /** The cursor as an index of the screen memory. */
  function Cursor(s: Screen): int {
    s.y * 80 + s.x
  }

  function NextRow(s: Screen): Screen {
    s.(x := 0, y := (s.y + 1) % NUM_ROWS)
  }

  function Printc(s: Screen, c: char): (s': Screen)
    requires InVideo(s)
    ensures InVideo(s') && (OnScreen(s) ==> OnScreen(s'))
  {
    if c == '\n' then NextRow(s)
    else
      var s1 := s.(cells := s.cells[Cursor(s) := Cell(c, s.color)], x := (s.x + 1) % 0x100);
      if s1.x >= NUM_COLUMNS then NextRow(s1) else s1
  }

  /** Printing a text one character after the other. */
  function Print(s: Screen, text: seq<char>): (s': Screen)
    requires OnScreen(s)
    ensures OnScreen(s')
    decreases |text|
  {
    if text == [] then s else Print(Printc(s, text[0]), text[1..])
  }

  lemma {:induction false} PrintJoins(s: Screen, a: seq<char>, b: seq<char>)
    requires OnScreen(s)
    ensures Print(s, a + b) == Print(Print(s, a), b)
    decreases |a|
  {
    if a == [] {
      assert a + b == b;
    } else {
      assert (a + b)[1..] == a[1..] + b;
      PrintJoins(Printc(s, a[0]), a[1..], b);
    }
  }

  lemma PrintOne(s: Screen, c: char)
    requires OnScreen(s)
    ensures Print(s, [c]) == Printc(s, c)
  {
    assert Print(Printc(s, c), [c][1..]) == Printc(s, c);
  }

  // ---------- where characters go ----------

  /** A place k characters further on, round the screen. */
  function Ahead(from: int, k: int): int {
    (from + k) % 2000
  }

  lemma AheadOnce(from: int, k: int)
    ensures Ahead(Ahead(from, 1), k) == Ahead(from, k + 1)
  {
  }

  /** Fewer than 2000 characters apart means different places. */
  lemma PlacesApart(from: int, i: int, k: int)
    requires i < k < i + 2000
    ensures Ahead(from, i) != Ahead(from, k)
  {
  }

  lemma PrintcMoves(s: Screen, c: char)
    requires OnScreen(s) && c != '\n'
    ensures Cursor(Printc(s, c)) == Ahead(Cursor(s), 1) && Printc(s, c).color == s.color
    ensures Printc(s, c).cells == s.cells[Cursor(s) := Cell(c, s.color)]
  {
  }

  /** A newline goes to the start of the next row, which after the last is the first, and writes nothing. */
  lemma NewlineMoves(s: Screen)
    requires OnScreen(s)
    ensures Printc(s, '\n').cells == s.cells && Cursor(Printc(s, '\n')) == Ahead(Cursor(s) - s.x, 80)
  {
  }

  /** Characters that are not newlines move the cursor by their number, modulo 2000. */
  lemma {:induction false} TextMoves(s: Screen, text: seq<char>)
    requires OnScreen(s) && '\n' !in text
    ensures Cursor(Print(s, text)) == Ahead(Cursor(s), |text|) && Print(s, text).color == s.color
    decreases |text|
  {
    if text != [] {
      PrintcMoves(s, text[0]);
      TextMoves(Printc(s, text[0]), text[1..]);
      AheadOnce(Cursor(s), |text| - 1);
    }
  }

  /** The screen shows the last 2000 characters, each at its place, and keeps every place that none of them reaches. */
  lemma {:induction false} TextAppears(s: Screen, text: seq<char>, i: int)
    requires OnScreen(s) && '\n' !in text
    ensures 0 <= i < |text| && |text| - 2000 <= i ==>
      Print(s, text).cells[Ahead(Cursor(s), i)] == Cell(text[i], s.color)
    ensures |text| <= i < 2000 ==> Print(s, text).cells[Ahead(Cursor(s), i)] == s.cells[Ahead(Cursor(s), i)]
    decreases |text|
  {
    if text != [] {
      var last := |text| - 1;
      var init, c := text[..last], text[last];
      assert text == init + [c];
      var s1 := Print(s, init);
      PrintJoins(s, init, [c]);
      PrintOne(s1, c);
      TextMoves(s, init);
      PrintcMoves(s1, c);
      TextAppears(s, init, i);
      if 0 <= i < last && |text| - 2000 <= i { PlacesApart(Cursor(s), i, last); }
      if |text| <= i < 2000 { PlacesApart(Cursor(s), last, i); }
    }
  }

  // ---------- the kernel's console ----------

  class Console {
    var x: Coordinate
    var y: Coordinate
    var color: Byte
    const screen: array<Cell>
    /** buffer_sys */
    const buffer: array<char>

    constructor ()
      ensures Valid() && fresh(screen) && fresh(buffer)
      ensures x == 0 && y == 19 && color == 2
    {
      x, y, color := 0, 19, 2;
      screen := new Cell[VIDEO_CELLS](i => Cell(' ', 0));
      buffer := new char[BUFF_SIZE](i => '\0');
    }

    ghost function Shown(): Screen
      reads this, screen
    {
      Screen(screen[..], x, y, color)
    }

    ghost predicate Valid()
      reads this, screen
    {
      OnScreen(Shown()) && buffer.Length == BUFF_SIZE
    }

    /** printc, wherever the cursor is. */
    method PutChar(c: char)
      requires InVideo(Shown())
      modifies this`x, this`y, screen
      ensures Shown() == Printc(old(Shown()), c)
      ensures OnScreen(old(Shown())) ==> OnScreen(Shown())
    {
      if c == '\n' {
        x := 0;
        y := (y + 1) % NUM_ROWS;
      } else {
        screen[y * 80 + x] := Cell(c, color);
        x := (x + 1) % 0x100;
        if x >= NUM_COLUMNS {
          x := 0;
          y := (y + 1) % NUM_ROWS;
        }
      }
    }

    /**
     * printc_xy, on any two bytes: the cursor is where it was, and only the one cell has changed, which may be off the
     * screen.
     */
    method PutCharAt(mx: Coordinate, my: Coordinate, c: char)
      requires Valid()
      modifies this`x, this`y, screen
      ensures Valid()
      ensures Shown() == if c == '\n' then old(Shown()) else
        old(Shown()).(cells := old(Shown()).cells[my * 80 + mx := Cell(c, color)])
    {
      var cx, cy := x, y;
      x, y := mx, my;
      PutChar(c);
      x, y := cx, cy;
    }

    /** sys_write_console, on the first characters of buffer_sys */
    method WriteConsole(size: int) returns (written: int)
      requires Valid() && 0 <= size <= BUFF_SIZE
      modifies this`x, this`y, screen
      ensures Valid() && written == size && Shown() == Print(old(Shown()), buffer[..size])
      ensures buffer[..] == old(buffer[..])
    {
      var i := 0;
      while i < size
        invariant 0 <= i <= size && Valid() && Shown() == Print(old(Shown()), buffer[..i])
        invariant buffer[..] == old(buffer[..])
      {
        assert buffer[..i + 1] == buffer[..i] + [buffer[i]];
        PrintJoins(old(Shown()), buffer[..i], [buffer[i]]);
        PrintOne(Shown(), buffer[i]);
        PutChar(buffer[i]);
        i := i + 1;
      }
      return size;
    }

    /** copy_from_user into buffer_sys, from offset `from` of the user's buffer; see the module Copy for the loops. */
    method CopyFromUser(user: seq<char>, from: int, size: int)
      requires Valid() && 0 <= size <= BUFF_SIZE && 0 <= from <= |user| - size
      modifies buffer
      ensures buffer[..size] == user[from..from + size]
    {
      forall i | 0 <= i < size { buffer[i] := user[from + i]; }
    }

    /** The loop of write: pieces of BUFF_SIZE while more is left, and then the rest. */
    method WritePieces(user: seq<char>, size: int) returns (r: int)
      requires Valid() && 0 <= size <= |user|
      modifies this`x, this`y, screen, buffer
      ensures Valid() && r == size && Shown() == Print(old(Shown()), user[..size])
    {
      var left, from := size, 0;
      while left > BUFF_SIZE
        invariant 0 <= left && from == size - left && Valid()
        invariant Shown() == Print(old(Shown()), user[..from])
      {
        CopyFromUser(user, from, BUFF_SIZE);
        PrintJoins(old(Shown()), user[..from], user[from..from + BUFF_SIZE]);
        assert user[..from + BUFF_SIZE] == user[..from] + user[from..from + BUFF_SIZE];
        var written := WriteConsole(BUFF_SIZE);
        from := from + written;
        left := left - written;
      }
      CopyFromUser(user, from, left);
      PrintJoins(old(Shown()), user[..from], user[from..from + left]);
      assert user[..size] == user[..from] + user[from..from + left];
      var written := WriteConsole(left);
      left := left - written;
      return size - left;
    }

    /**
     * write: one character after the other, as if there were no pieces. The pointer checks are given by their outcome.
     */
    method SysWrite(fd: int, isNull: bool, accessOk: bool, user: seq<char>, size: int) returns (r: int)
      requires Valid() && (!isNull && 0 <= size && accessOk ==> size <= |user|)
      modifies this`x, this`y, screen, buffer
      ensures Valid()
      ensures r ==
        if fd != 1 then -EBADF else if isNull then -EFAULT else if size < 0 || !accessOk then -EINVAL else size
      ensures Shown() == if r < 0 then old(Shown()) else Print(old(Shown()), user[..size])
    {
      if fd != 1 { return -EBADF; }
      if isNull { return -EFAULT; }
      if size < 0 || !accessOk { return -EINVAL; }
      r := WritePieces(user, size);
    }
  }
}
