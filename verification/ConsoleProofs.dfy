// Each operation on video memory does to the picture what the reference does to the rows.

module ConsoleProofs {
  import opened ConsoleModel
  import opened ConsoleScreen

  lemma UpCell(mem: seq<nat>, o: int, cols: nat, lines: nat, t: nat, b: nat, d: int, e: int, r: nat, k: nat)
    requires 0 <= o && o + Rows(lines, cols) <= |mem| && t < b <= lines && r < lines && k < cols
    requires d == o + Rows(t, cols) && e == o + Rows(b - 1, cols) && e + cols == o + Rows(b, cols) <= o + Rows(lines, cols)
    ensures Cell(Fill(Shift(mem, d, e, cols), e, cols, ERASE), o + Rows(r, cols) + k) ==
      if r == b - 1 then ERASE else if t <= r < b then Cell(mem, o + Rows(r, cols) + k + cols) else Cell(mem, o + Rows(r, cols) + k)
  {
    hide Fill, Shift, Cell, Rows;
    ShiftCell(mem, o, cols, lines, d, e, cols, t, 0, b - 1, 0, r, k);
    FillCell(Shift(mem, d, e, cols), o, cols, lines, e, cols, ERASE, b - 1, 0, b, 0, r, k);
  }

  lemma DownCell(mem: seq<nat>, o: int, cols: nat, lines: nat, t: nat, b: nat, d: int, e: int, r: nat, k: nat)
    requires 0 <= o && o + Rows(lines, cols) <= |mem| && t < b <= lines && r < lines && k < cols
    requires d == o + Rows(t, cols) && d + cols == o + Rows(t + 1, cols) && e == o + Rows(b, cols) <= o + Rows(lines, cols)
    ensures Cell(Fill(Shift(mem, d + cols, e, 0 - cols), d, cols, ERASE), o + Rows(r, cols) + k) ==
      if r == t then ERASE else if t < r < b then Cell(mem, o + Rows(r, cols) + k - cols) else Cell(mem, o + Rows(r, cols) + k)
  {
    hide Fill, Shift, Cell, Rows;
    ShiftCell(mem, o, cols, lines, d + cols, e, 0 - cols, t + 1, 0, b, 0, r, k);
    FillCell(Shift(mem, d + cols, e, 0 - cols), o, cols, lines, d, cols, ERASE, t, 0, t + 1, 0, r, k);
  }

  /** Two pictures with the same cells are the same. */
  lemma SameRows(p: seq<Row>, q: seq<Row>, cols: nat)
    requires |p| == |q| && forall r | 0 <= r < |p| :: |p[r]| == cols && |q[r]| == cols
    requires forall r: nat, k: nat | r < |p| && k < cols :: p[r][k] == q[r][k]
    ensures p == q
  {
    forall r | 0 <= r < |p| ensures p[r] == q[r] {}
  }

  lemma UpRows(mem: seq<nat>, o: int, cols: nat, lines: nat, t: nat, b: nat, d: int, e: int)
    requires 0 <= o && o + Rows(lines, cols) <= |mem| && t < b <= lines
    requires d == o + Rows(t, cols) && e == o + Rows(b - 1, cols) && e + cols == o + Rows(b, cols) <= o + Rows(lines, cols)
    ensures Picture(Fill(Shift(mem, d, e, cols), e, cols, ERASE), o, cols, lines) == Up(Picture(mem, o, cols, lines), t, b, cols)
  {
    hide Fill, Shift, Cell;
    var p, q := Picture(Fill(Shift(mem, d, e, cols), e, cols, ERASE), o, cols, lines), Up(Picture(mem, o, cols, lines), t, b, cols);
    forall r: nat, k: nat | r < lines && k < cols ensures p[r][k] == q[r][k] {
      UpCell(mem, o, cols, lines, t, b, d, e, r, k);
      assert Rows(r + 1, cols) == Rows(r, cols) + cols;
    }
    SameRows(p, q, cols);
  }

  lemma DownRows(mem: seq<nat>, o: int, cols: nat, lines: nat, t: nat, b: nat, d: int, e: int)
    requires 0 <= o && o + Rows(lines, cols) <= |mem| && t < b <= lines
    requires d == o + Rows(t, cols) && d + cols == o + Rows(t + 1, cols) && e == o + Rows(b, cols) <= o + Rows(lines, cols)
    ensures Picture(Fill(Shift(mem, d + cols, e, 0 - cols), d, cols, ERASE), o, cols, lines) == Down(Picture(mem, o, cols, lines), t, b, cols)
  {
    hide Fill, Shift, Cell;
    var p, q := Picture(Fill(Shift(mem, d + cols, e, 0 - cols), d, cols, ERASE), o, cols, lines), Down(Picture(mem, o, cols, lines), t, b, cols);
    forall r: nat, k: nat | r < lines && k < cols ensures p[r][k] == q[r][k] {
      DownCell(mem, o, cols, lines, t, b, d, e, r, k);
      assert r > 0 ==> Rows(r, cols) == Rows(r - 1, cols) + cols;
    }
    SameRows(p, q, cols);
  }

  /** Where the rows of [t, b) are. */
  lemma RowSpan(cols: nat, lines: nat, t: nat, b: nat)
    requires cols % 2 == 0 && t < b <= lines
    ensures var n := Rows(b - t - 1, cols);
      n / 2 * 2 == n && Rows(t + 1, cols) == Rows(t, cols) + cols && Rows(t, cols) + n == Rows(b - 1, cols) &&
      Rows(b - 1, cols) + cols == Rows(b, cols) <= Rows(lines, cols)
  {
    RowsLe(b, lines, cols);
    RowsApart(t, b - 1, cols);
    RowsEven(b - t - 1, cols);
  }

  /** A picture moved up by a row, cell by cell. */
  lemma UpAt(mem: seq<nat>, o: int, cols: nat, lines: nat, r: nat, k: nat)
    requires r < lines && k < cols
    ensures var q := Up(Picture(mem, o, cols, lines), 0, lines, cols);
      |q| == lines && |q[r]| == cols && q[r][k] == if r == lines - 1 then ERASE else Cell(mem, o + Rows(r + 1, cols) + k)
  {
    hide Cell, Rows;
  }

  lemma PictureAt(mem: seq<nat>, o: int, cols: nat, lines: nat, r: nat, k: nat)
    requires r < lines && k < cols
    ensures var p := Picture(mem, o, cols, lines); |p| == lines && |p[r]| == cols && p[r][k] == Cell(mem, o + Rows(r, cols) + k)
  {
    hide Cell, Rows;
  }

  /** A picture is known by its cells. */
  lemma IsUp(p: seq<Row>, mem: seq<nat>, o: int, cols: nat, lines: nat)
    requires |p| == lines > 0 && (forall r | 0 <= r < lines :: |p[r]| == cols)
    requires forall r: nat, k: nat | r < lines && k < cols ::
      p[r][k] == if r == lines - 1 then ERASE else Cell(mem, o + Rows(r + 1, cols) + k)
    ensures p == Up(Picture(mem, o, cols, lines), 0, lines, cols)
  {
    var q := Up(Picture(mem, o, cols, lines), 0, lines, cols);
    forall r | 0 <= r < lines ensures |q[r]| == cols { if cols > 0 { UpAt(mem, o, cols, lines, r, 0); } }
    hide Cell, Rows, Up, Picture;
    forall r: nat, k: nat | r < lines && k < cols ensures p[r][k] == q[r][k] { UpAt(mem, o, cols, lines, r, k); }
    SameRows(p, q, cols);
  }

  /** The window moved down by a row, with the row that came into it cleared. */
  lemma SlidePicture(mem: seq<nat>, o: int, cols: nat, lines: nat)
    requires 0 <= o && o + Rows(lines + 1, cols) <= |mem| && lines > 0
    ensures Picture(Fill(mem, o + Rows(lines, cols), cols, ERASE), o + cols, cols, lines) == Up(Picture(mem, o, cols, lines), 0, lines, cols)
  {
    hide Fill, Cell, Up, Picture;
    var m := Fill(mem, o + Rows(lines, cols), cols, ERASE);
    var p := Picture(m, o + cols, cols, lines);
    forall r: nat, k: nat | r < lines && k < cols
      ensures p[r][k] == if r == lines - 1 then ERASE else Cell(mem, o + Rows(r + 1, cols) + k)
    {
      PictureAt(m, o + cols, cols, lines, r, k);
      FillCell(mem, o, cols, lines + 1, o + Rows(lines, cols), cols, ERASE, lines, 0, lines + 1, 0, r + 1, k);
      assert o + cols + Rows(r, cols) + k == o + Rows(r + 1, cols) + k;
    }
    IsUp(p, mem, o, cols, lines);
  }

  /** The window at the end of video memory, copied back to its start a row higher. */
  lemma RewindPicture(mem: seq<nat>, o: int, cols: nat, lines: nat)
    requires 0 <= o && o + Rows(lines, cols) <= |mem| && cols % 2 == 0 && lines > 0
    ensures var n := Rows(lines - 1, cols);
      Picture(Fill(Move(mem, 0, o + cols, n), n / 2 * 2, cols, ERASE), 0, cols, lines) == Up(Picture(mem, o, cols, lines), 0, lines, cols)
  {
    hide Fill, Cell, Up, Picture;
    var n := Rows(lines - 1, cols);
    RowsEven(lines - 1, cols);
    var g := Move(mem, 0, o + cols, n);
    var m := Fill(g, n, cols, ERASE);
    var p := Picture(m, 0, cols, lines);
    forall r: nat, k: nat | r < lines && k < cols
      ensures p[r][k] == if r == lines - 1 then ERASE else Cell(mem, o + Rows(r + 1, cols) + k)
    {
      PictureAt(m, 0, cols, lines, r, k);
      FillCell(g, 0, cols, lines, n, cols, ERASE, lines - 1, 0, lines, 0, r, k);
      ShiftCell(mem, 0, cols, lines, 0, n, o + cols, 0, 0, lines - 1, 0, r, k);
      assert Rows(r, cols) + k + (o + cols) == o + Rows(r + 1, cols) + k;
    }
    IsUp(p, mem, o, cols, lines);
  }

  /** The fast path, when the window reaches past the end of memory and when it does not. */
  lemma WindowShows(s: Con)
    requires Ok(s) && s.fast && s.top == 0 && s.bottom == s.lines
    ensures Ok(ScrollUp(s)) && View(ScrollUp(s)).rows == Up(View(s).rows, s.top, s.bottom, s.cols)
  {
    hide Fill, Shift, Cell;
    assert Rows(s.lines + 1, s.cols) == Rows(s.lines, s.cols) + s.cols;
    if s.scrEnd + s.cols > |s.mem| {
      RewindPicture(s.mem, s.origin, s.cols, s.lines);
    } else {
      SlidePicture(s.mem, s.origin, s.cols, s.lines);
    }
  }

  lemma CopyUpShows(s: Con)
    requires Ok(s)
    ensures Ok(CopyUp(s)) && View(CopyUp(s)) == View(s).(rows := Up(View(s).rows, s.top, s.bottom, s.cols))
  {
    hide Fill, Shift, Cell, Rows;
    RowSpan(s.cols, s.lines, s.top, s.bottom);
    UpRows(s.mem, s.origin, s.cols, s.lines, s.top, s.bottom, s.origin + Rows(s.top, s.cols), s.origin + Rows(s.bottom - 1, s.cols));
  }

  lemma ScrollUpShows(s: Con)
    requires Ok(s)
    ensures Ok(ScrollUp(s)) && View(ScrollUp(s)) == View(s).(rows := Up(View(s).rows, s.top, s.bottom, s.cols))
  {
    hide Fill, Move, CopyUp;
    if s.fast && s.top == 0 && s.bottom == s.lines {
      WindowShows(s);
    } else {
      CopyUpShows(s);
    }
  }

  lemma ScrollDownShows(s: Con)
    requires Ok(s)
    ensures Ok(ScrollDown(s)) && View(ScrollDown(s)) == View(s).(rows := Down(View(s).rows, s.top, s.bottom, s.cols))
  {
    hide Fill, Shift, Cell, Rows;
    RowSpan(s.cols, s.lines, s.top, s.bottom);
    DownRows(s.mem, s.origin, s.cols, s.lines, s.top, s.bottom, s.origin + Rows(s.top, s.cols), s.origin + Rows(s.bottom, s.cols));
  }

  lemma LfShows(s: Con)
    requires Ok(s)
    ensures Ok(Lf(s)) && View(Lf(s)) == NextLine(View(s))
  {
    hide ScrollUp;
    if s.y + 1 >= s.bottom { ScrollUpShows(s); }
    assert Rows(s.y + 1, s.cols) == Rows(s.y, s.cols) + s.cols;
  }

  lemma RiShows(s: Con)
    requires Ok(s)
    ensures Ok(Ri(s)) && View(Ri(s)) == PriorLine(View(s))
  {
    hide ScrollDown;
    if s.y <= s.top { ScrollDownShows(s); }
    assert s.y > 0 ==> Rows(s.y - 1, s.cols) == Rows(s.y, s.cols) - s.cols;
  }

  /** Replacing a stretch of the cursor's row. */
  lemma RowShows(s: Con, a: nat, n: nat, v: nat)
    requires Ok(s) && a + n <= s.cols
    ensures var m := Fill(s.mem, s.origin + Rows(s.y, s.cols) + a, n, v);
      var row := View(s).rows[s.y];
      Picture(m, s.origin, s.cols, s.lines) == View(s).rows[s.y := row[..a] + seq(n, _ => v) + row[a + n..]]
  {
    hide Fill, Cell;
    var m := Fill(s.mem, s.origin + Rows(s.y, s.cols) + a, n, v);
    var row := View(s).rows[s.y];
    var p, q := Picture(m, s.origin, s.cols, s.lines), View(s).rows[s.y := row[..a] + seq(n, _ => v) + row[a + n..]];
    FillPicture(s.mem, s.origin, s.cols, s.lines, s.origin + Rows(s.y, s.cols) + a, n, v, s.y, a, s.y, a + n);
    SameRows(p, q, s.cols);
  }

  lemma PutShows(s: Con, c: nat)
    requires Ok(s)
    ensures Ok(PutChar(s, c)) && View(PutChar(s, c)) == Type(View(s), c)
  {
    hide Fill, Lf, Cell;
    var t := if s.x >= s.cols then WrapLine(s) else s;
    if s.x >= s.cols { WrapShows(s); }
    RowShows(t, t.x, 1, c + 256 * t.attr);
    var row := View(t).rows[t.y];
    assert row[..t.x] + seq(1, _ => c + 256 * t.attr) + row[t.x + 1..] == row[t.x := c + 256 * t.attr];
  }

  /** x may be up to a tab past the margin here. */
  lemma WrapShows(s: Con)
    requires s.cols <= s.x && Ok(s.(x := s.x - s.cols, pos := s.pos - s.cols))
    ensures Ok(WrapLine(s)) && View(WrapLine(s)) == NextLine(View(s.(x := s.x - s.cols)))
  {
    hide Lf;
    LfShows(s.(x := s.x - s.cols, pos := s.pos - s.cols));
  }

  lemma TabInLine(s: Con, n: nat)
    requires Ok(s) && s.x + n <= s.cols
    ensures var t := s.(x := s.x + n, pos := s.pos + n); Ok(t) && View(t) == View(s).(x := s.x + n)
  {
  }

  lemma TabPast(s: Con, n: nat)
    requires Ok(s) && 1 <= n <= 8 && s.x + n > s.cols
    ensures var t := s.(x := s.x + n, pos := s.pos + n);
      Ok(WrapLine(t)) && View(WrapLine(t)) == NextLine(View(s).(x := s.x + n - s.cols))
  {
    hide Lf;
    var t := s.(x := s.x + n, pos := s.pos + n);
    assert t.(x := t.x - t.cols, pos := t.pos - t.cols) == s.(x := s.x + n - s.cols, pos := s.pos + n - s.cols);
    WrapShows(t);
    assert View(t.(x := t.x - t.cols)) == View(s).(x := s.x + n - s.cols);
  }

  lemma TabShows(s: Con)
    requires Ok(s)
    ensures Ok(TabStop(s)) && View(TabStop(s)) == TabTo(View(s))
  {
    hide Lf;
    var n := ToStop(s.x);
    if s.x + n > s.cols { TabPast(s, n); } else { TabInLine(s, n); }
  }

  lemma DeleteShows(s: Con)
    requires Ok(s)
    ensures Ok(DeleteBack(s)) && View(DeleteBack(s)) == Perform(View(s), Delete)
  {
    hide Fill, Cell;
    if s.x > 0 {
      RowShows(s, s.x - 1, 1, ERASE);
      var row := View(s).rows[s.y];
      assert row[..s.x - 1] + seq(1, _ => ERASE) + row[s.x..] == row[s.x - 1 := ERASE];
    }
  }

  lemma EraseBelow(s: Con)
    requires Ok(s)
    ensures View(CsiJ(s, 0)).rows == EraseRows(View(s), 0).rows
  {
    hide Fill, Cell, Rows;
    FillPicture(s.mem, s.origin, s.cols, s.lines, s.pos, s.scrEnd - s.pos, ERASE, s.y, s.x, s.lines, 0);
    SameRows(View(CsiJ(s, 0)).rows, EraseRows(View(s), 0).rows, s.cols);
  }

  lemma EraseAbove(s: Con)
    requires Ok(s)
    ensures View(CsiJ(s, 1)).rows == EraseRows(View(s), 1).rows
  {
    hide Fill, Cell;
    FillPicture(s.mem, s.origin, s.cols, s.lines, s.origin, s.pos - s.origin, ERASE, 0, 0, s.y, s.x);
    SameRows(View(CsiJ(s, 1)).rows, EraseRows(View(s), 1).rows, s.cols);
  }

  lemma EraseDisplayShows(s: Con, n: nat)
    requires Ok(s)
    ensures Ok(CsiJ(s, n)) && View(CsiJ(s, n)) == EraseRows(View(s), n)
  {
    hide Fill, Cell;
    if n == 0 {
      EraseBelow(s);
    } else if n == 1 {
      EraseAbove(s);
    } else if n == 2 {
      FillPicture(s.mem, s.origin, s.cols, s.lines, s.origin, Rows(s.lines, s.cols), ERASE, 0, 0, s.lines, 0);
      SameRows(View(CsiJ(s, n)).rows, EraseRows(View(s), n).rows, s.cols);
    }
  }

  lemma EraseLineShows(s: Con, n: nat)
    requires Ok(s)
    ensures Ok(CsiK(s, n)) && View(CsiK(s, n)) == EraseCells(View(s), n)
  {
    hide Fill, Cell;
    var row := View(s).rows[s.y];
    if n == 0 {
      RowShows(s, s.x, s.cols - s.x, ERASE);
      assert row[..s.x] + seq(s.cols - s.x, _ => ERASE) + row[s.cols..] == row[..s.x] + Blank(s.cols - s.x);
      if s.x == s.cols { assert row[..s.x] + Blank(0) == row; }
    } else if n == 1 {
      RowShows(s, 0, s.x, ERASE);
      assert row[..0] + seq(s.x, _ => ERASE) + row[s.x..] == Blank(s.x) + row[s.x..];
    } else if n == 2 {
      RowShows(s, 0, s.cols, ERASE);
      assert row[..0] + seq(s.cols, _ => ERASE) + row[s.cols..] == Blank(s.cols);
    }
  }

  lemma InsertedCell(mem: seq<nat>, o: int, cols: nat, lines: nat, y: nat, x: nat, pos: int, r: nat, k: nat)
    requires 0 <= o && o + Rows(lines, cols) <= |mem| && x < cols && y < lines && pos == o + Rows(y, cols) + x && r < lines && k < cols
    ensures Cell(Fill(Shift(mem, pos + 1, pos + cols - x, -1), pos, 1, ERASE), o + Rows(r, cols) + k) ==
      if r == y && k == x then ERASE else if r == y && k > x then Cell(mem, o + Rows(r, cols) + k - 1) else Cell(mem, o + Rows(r, cols) + k)
  {
    hide Fill, Shift, Cell, Rows;
    InWindow(cols, lines, y, cols - 1);
    ShiftCell(mem, o, cols, lines, pos + 1, pos + cols - x, -1, y, x + 1, y, cols, r, k);
    FillCell(Shift(mem, pos + 1, pos + cols - x, -1), o, cols, lines, pos, 1, ERASE, y, x, y, x + 1, r, k);
  }

  /** The edited row, cell by cell. */
  lemma OnceAt(c: Screen, r: nat, k: nat)
    requires Good(c) && c.x < c.cols && r < c.lines && k < c.cols
    ensures |c.rows[r]| == c.cols && |Once(c, CharIn).rows[r]| == c.cols && |Once(c, CharOut).rows[r]| == c.cols
    ensures Once(c, CharIn).rows[r][k] == if r == c.y && k == c.x then ERASE else if r == c.y && k > c.x then c.rows[r][k - 1] else c.rows[r][k]
    ensures Once(c, CharOut).rows[r][k] ==
      if r == c.y && k == c.cols - 1 then ERASE else if r == c.y && k >= c.x then c.rows[r][k + 1] else c.rows[r][k]
  {
  }

  lemma ViewAt(s: Con, r: nat, k: nat)
    requires Ok(s) && r < s.lines && k < s.cols
    ensures var p := View(s).rows; |p| == s.lines && |p[r]| == s.cols && p[r][k] == Cell(s.mem, s.origin + Rows(r, s.cols) + k)
  {
    PictureAt(s.mem, s.origin, s.cols, s.lines, r, k);
    hide Cell, Rows, Picture;
  }

  lemma InsertCharShows(s: Con)
    requires Ok(s)
    ensures Ok(InsertChar(s)) && View(InsertChar(s)) == Once(View(s), CharIn)
  {
    hide Fill, Shift, Cell, Rows;
    if s.x < s.cols {
      var t := InsertChar(s);
      var p, q := View(t).rows, Once(View(s), CharIn).rows;
      forall r: nat, k: nat | r < s.lines && k < s.cols ensures p[r][k] == q[r][k] {
        InsertedCell(s.mem, s.origin, s.cols, s.lines, s.y, s.x, s.pos, r, k);
        ViewAt(t, r, k);
        ViewAt(s, r, k);
        if k > 0 { ViewAt(s, r, k - 1); }
        OnceAt(View(s), r, k);
      }
      SameRows(p, q, s.cols);
    }
  }

  lemma DeletedCell(s: Con, r: nat, k: nat)
    requires Ok(s) && s.x < s.cols && r < s.lines && k < s.cols
    ensures Cell(DeleteChar(s).mem, s.origin + Rows(r, s.cols) + k) ==
      if r == s.y && k == s.cols - 1 then ERASE else if r == s.y && k >= s.x then Cell(s.mem, s.origin + Rows(r, s.cols) + k + 1) else Cell(s.mem, s.origin + Rows(r, s.cols) + k)
  {
    hide Fill, Shift, Cell, Rows;
    var last := s.pos + s.cols - s.x - 1;
    InWindow(s.cols, s.lines, s.y, s.cols - 1);
    ShiftCell(s.mem, s.origin, s.cols, s.lines, s.pos, last, 1, s.y, s.x, s.y, s.cols - 1, r, k);
    FillCell(Shift(s.mem, s.pos, last, 1), s.origin, s.cols, s.lines, last, 1, ERASE, s.y, s.cols - 1, s.y, s.cols, r, k);
  }

  lemma DeleteCharShows(s: Con)
    requires Ok(s)
    ensures Ok(DeleteChar(s)) && View(DeleteChar(s)) == Once(View(s), CharOut)
  {
    hide Fill, Shift, Cell, Rows;
    if s.x < s.cols {
      var p, q := View(DeleteChar(s)).rows, Once(View(s), CharOut).rows;
      forall r: nat, k: nat | r < s.lines && k < s.cols ensures p[r][k] == q[r][k] {
        DeletedCell(s, r, k);
        ViewAt(DeleteChar(s), r, k);
        ViewAt(s, r, k);
        if k + 1 < s.cols { ViewAt(s, r, k + 1); }
        OnceAt(View(s), r, k);
      }
      SameRows(p, q, s.cols);
    }
  }

  lemma EditShows(s: Con, e: Edit)
    requires Ok(s)
    ensures Ok(EditOnce(s, e)) && View(EditOnce(s, e)) == Once(View(s), e)
  {
    hide ScrollUp, ScrollDown, InsertChar, DeleteChar;
    match e
    case CharIn => InsertCharShows(s);
    case CharOut => DeleteCharShows(s);
    case LineIn => ScrollDownShows(s.(top := s.y, bottom := s.lines));
    case LineOut => ScrollUpShows(s.(top := s.y, bottom := s.lines));
  }

  lemma {:induction false} RepeatShows(s: Con, e: Edit, n: nat)
    requires Ok(s)
    ensures Ok(Repeat(s, e, n)) && View(Repeat(s, e, n)) == Times(View(s), e, n)
    decreases n
  {
    hide EditOnce;
    if n > 0 {
      EditShows(s, e);
      RepeatShows(EditOnce(s, e), e, n - 1);
    }
  }

  lemma ExecErases(s: Con, cmd: Cmd)
    requires Ok(s) && (cmd.EraseDisplay? || cmd.EraseLine?)
    ensures Ok(Exec(s, cmd)) && View(Exec(s, cmd)) == Perform(View(s), cmd)
  {
    hide CsiJ, CsiK, Repeat, Times;
    match cmd
    case EraseDisplay(n) => EraseDisplayShows(s, n);
    case EraseLine(n) => EraseLineShows(s, n);
  }

  lemma ExecChars(s: Con, cmd: Cmd)
    requires Ok(s) && (cmd.InsertChars? || cmd.DeleteChars?)
    ensures Ok(Exec(s, cmd)) && View(Exec(s, cmd)) == Perform(View(s), cmd)
  {
    hide CsiJ, CsiK, Repeat, Times;
    match cmd
    case InsertChars(n) => RepeatShows(s, CharIn, AtMost(n, s.cols));
    case DeleteChars(n) => RepeatShows(s, CharOut, AtMost(n, s.cols));
  }

  lemma ExecLines(s: Con, cmd: Cmd)
    requires Ok(s) && (cmd.InsertLines? || cmd.DeleteLines?)
    ensures Ok(Exec(s, cmd)) && View(Exec(s, cmd)) == Perform(View(s), cmd)
  {
    hide CsiJ, CsiK, Repeat, Times;
    match cmd
    case InsertLines(n) => RepeatShows(s, LineIn, AtMost(n, s.lines));
    case DeleteLines(n) => RepeatShows(s, LineOut, AtMost(n, s.lines));
  }

  lemma ExecMoves(s: Con, cmd: Cmd)
    requires Ok(s) && (cmd.Region? ==> cmd.top < cmd.bottom <= s.lines)
    requires cmd.Nothing? || cmd.Return? || cmd.Back? || cmd.Goto? || cmd.Attributes? || cmd.Region? || cmd.Save? || cmd.Restore?
    ensures Ok(Exec(s, cmd)) && View(Exec(s, cmd)) == Perform(View(s), cmd)
  {
    hide Rows;
  }

  lemma ExecShows(s: Con, cmd: Cmd)
    requires Ok(s) && (cmd.Region? ==> cmd.top < cmd.bottom <= s.lines)
    ensures Ok(Exec(s, cmd)) && View(Exec(s, cmd)) == Perform(View(s), cmd)
  {
    hide PutChar, Lf, Ri, DeleteBack, TabStop, Repeat, Times, CsiJ, CsiK;
    match cmd
    case Put(c) => PutShows(s, c);
    case LineFeed => LfShows(s);
    case ReverseIndex => RiShows(s);
    case Delete => DeleteShows(s);
    case Tab => TabShows(s);
    case Nothing => ExecMoves(s, cmd);
    case Return => ExecMoves(s, cmd);
    case Back => ExecMoves(s, cmd);
    case Goto(_, _) => ExecMoves(s, cmd);
    case Attributes(_) => ExecMoves(s, cmd);
    case Region(_, _) => ExecMoves(s, cmd);
    case Save => ExecMoves(s, cmd);
    case Restore => ExecMoves(s, cmd);
    case EraseDisplay(_) => ExecErases(s, cmd);
    case EraseLine(_) => ExecErases(s, cmd);
    case InsertChars(_) => ExecChars(s, cmd);
    case DeleteChars(_) => ExecChars(s, cmd);
    case _ => ExecLines(s, cmd);
  }

  lemma WriteShows(s: Con, c: int, erase: nat)
    requires Ok(s)
    ensures Ok(Write(s, c, erase)) && View(Write(s, c, erase)) == Show(View(s), c, erase)
  {
    hide Exec, Perform;
    RegionFits(s.parser, c, erase, s.x, s.y, s.lines);
    var (p, cmd) := Decode(s.parser, c, erase, s.x, s.y, s.lines);
    assert View(s.(parser := p)) == View(s).(parser := p);
    ExecShows(s.(parser := p), cmd);
  }

  // ----- whole streams -------------------------------------------------------------------------

  function Stream(s: Con, bytes: seq<int>, erase: nat): (t: Con)
    requires Ok(s)
    ensures Ok(t)
    decreases |bytes|
  {
    if bytes == [] then s else WriteShows(s, bytes[0], erase); Stream(Write(s, bytes[0], erase), bytes[1..], erase)
  }

  function Showing(c: Screen, bytes: seq<int>, erase: nat): (d: Screen)
    requires Good(c)
    decreases |bytes|
  {
    if bytes == [] then c else Showing(Show(c, bytes[0], erase), bytes[1..], erase)
  }

  /** Either way of scrolling, memory shows at every moment what the plain terminal shows. */
  lemma {:induction false} StreamShows(s: Con, bytes: seq<int>, erase: nat)
    requires Ok(s)
    ensures View(Stream(s, bytes, erase)) == Showing(View(s), bytes, erase)
    decreases |bytes|
  {
    if bytes != [] {
      WriteShows(s, bytes[0], erase);
      StreamShows(Write(s, bytes[0], erase), bytes[1..], erase);
    }
  }

  /** The moving origin and plain copying show the same screen, cursor and attribute after any bytes,
      however much video memory each has. */
  lemma MovingOriginIsCopying(s: Con, t: Con, bytes: seq<int>, erase: nat)
    requires Ok(s) && Ok(t) && s.fast && !t.fast && View(s) == View(t)
    ensures View(Stream(s, bytes, erase)) == View(Stream(t, bytes, erase))
  {
    StreamShows(s, bytes, erase);
    StreamShows(t, bytes, erase);
  }

  // ----- what is written is visible ------------------------------------------------------------

  /** Every cell that differs is in [lo, hi). */
  ghost predicate Inside(m: seq<nat>, m': seq<nat>, lo: int, hi: int) {
    |m'| == |m| && forall k: nat | k < |m| && m'[k] != m[k] :: lo <= k < hi
  }

  ghost predicate Visible(s: Con, t: Con) { Inside(s.mem, t.mem, t.origin, t.scrEnd) }

  lemma FillInside(m: seq<nat>, d: int, n: int, v: nat, lo: int, hi: int)
    requires lo <= d && d + n <= hi
    ensures Inside(m, Fill(m, d, n, v), lo, hi)
  {
  }

  /** A copy, then a fill. */
  lemma BothInside(m: seq<nat>, a: int, b: int, step: int, d: int, n: int, v: nat, lo: int, hi: int)
    requires lo <= a && b <= hi && lo <= d && d + n <= hi
    ensures Inside(m, Fill(Shift(m, a, b, step), d, n, v), lo, hi)
  {
    var g := Shift(m, a, b, step);
    assert Inside(m, g, lo, hi);
    FillInside(g, d, n, v, lo, hi);
  }

  lemma Spans(s: Con)
    requires Ok(s)
    ensures var n := Rows(s.bottom - s.top - 1, s.cols);
      n / 2 * 2 == n && 0 <= Rows(s.top, s.cols) && Rows(s.top + 1, s.cols) == Rows(s.top, s.cols) + s.cols &&
      Rows(s.top, s.cols) + n + s.cols == Rows(s.bottom, s.cols) <= s.scrEnd - s.origin
  {
    RowsApart(s.top, s.bottom - 1, s.cols);
    RowsLe(s.bottom, s.lines, s.cols);
    RowsEven(s.bottom - s.top - 1, s.cols);
  }

  lemma UpVisible(s: Con)
    requires Ok(s)
    ensures Visible(s, CopyUp(s))
  {
    hide Fill, Shift, Rows;
    var n := Rows(s.bottom - s.top - 1, s.cols);
    var d := s.origin + Rows(s.top, s.cols);
    Spans(s);
    BothInside(s.mem, d, d + n / 2 * 2, s.origin + Rows(s.top + 1, s.cols) - d, d + n / 2 * 2, s.cols, ERASE, s.origin, s.scrEnd);
  }

  lemma DownVisible(s: Con)
    requires Ok(s)
    ensures Visible(s, ScrollDown(s))
  {
    hide Fill, Shift, Rows;
    var n := Rows(s.bottom - s.top - 1, s.cols) / 2 * 2;
    var d := s.origin + Rows(s.bottom, s.cols) - n;
    Spans(s);
    BothInside(s.mem, d, d + n / 2 * 2, 0 - s.cols, d - s.cols, s.cols, ERASE, s.origin, s.scrEnd);
  }

  lemma WindowVisible(s: Con)
    requires Ok(s) && s.fast && s.top == 0 && s.bottom == s.lines
    ensures Visible(s, ScrollUp(s))
  {
    var t := ScrollUp(s);
    RowsApart(0, s.lines - 1, s.cols);
    RowsEven(s.lines - 1, s.cols);
    var n := Rows(s.lines - 1, s.cols);
    if s.scrEnd + s.cols > |s.mem| {
      BothInside(s.mem, 0, n / 2 * 2, s.origin + s.cols, n / 2 * 2, s.cols, ERASE, 0, n + s.cols);
    } else {
      FillInside(s.mem, s.scrEnd, s.cols, ERASE, t.origin, t.scrEnd);
    }
  }

  lemma ScrollsVisible(s: Con)
    requires Ok(s)
    ensures Visible(s, ScrollUp(s)) && Visible(s, ScrollDown(s))
  {
    UpVisible(s);
    DownVisible(s);
    if s.fast && s.top == 0 && s.bottom == s.lines { WindowVisible(s); }
  }

  lemma CursorInside(s: Con, x: nat)
    requires Ok(s) && x < s.cols
    ensures s.origin <= s.origin + Rows(s.y, s.cols) + x < s.scrEnd
  {
    InWindow(s.cols, s.lines, s.y, x);
  }

  lemma InsideTwice(m: seq<nat>, g: seq<nat>, m': seq<nat>, lo: int, hi: int)
    requires Inside(m, g, lo, hi) && Inside(g, m', lo, hi)
    ensures Inside(m, m', lo, hi)
  {
  }

  lemma WrapVisible(s: Con)
    requires s.cols <= s.x && Ok(s.(x := s.x - s.cols, pos := s.pos - s.cols))
    ensures Visible(s, WrapLine(s))
  {
    hide ScrollUp, ScrollDown, Rows;
    ScrollsVisible(s.(x := s.x - s.cols, pos := s.pos - s.cols));
  }

  lemma PutVisible(s: Con, c: nat)
    requires Ok(s)
    ensures Visible(s, PutChar(s, c))
  {
    hide Lf, ScrollUp, Fill;
    var t := if s.x >= s.cols then WrapLine(s) else s;
    if s.x >= s.cols {
      WrapShows(s);
      WrapVisible(s);
    }
    CursorInside(t, t.x);
    FillInside(t.mem, t.pos, 1, c + 256 * t.attr, t.origin, t.scrEnd);
    InsideTwice(s.mem, t.mem, PutChar(s, c).mem, t.origin, t.scrEnd);
  }

  /** Where a character goes. */
  lemma PutInside(s: Con)
    requires Ok(s)
    ensures s.x >= s.cols ==> Ok(s.(x := s.x - s.cols, pos := s.pos - s.cols))
    ensures var t := if s.x >= s.cols then WrapLine(s) else s; Ok(t) && 0 <= t.pos < |t.mem|
  {
    hide Lf;
    if s.x >= s.cols { WrapShows(s); }
    var t := if s.x >= s.cols then WrapLine(s) else s;
    assert t.x < t.cols by { if s.x >= s.cols { WrapColumn(s); } }
    CursorInside(t, t.x);
  }

  lemma WrapColumn(s: Con)
    requires s.cols <= s.x
    ensures WrapLine(s).x == s.x - s.cols && WrapLine(s).cols == s.cols
  {
  }

  lemma CharsVisible(s: Con)
    requires Ok(s)
    ensures Visible(s, InsertChar(s)) && Visible(s, DeleteChar(s))
  {
    hide Fill, Shift, Rows;
    if s.x < s.cols {
      CursorInside(s, s.x);
      CursorInside(s, s.cols - 1);
      var end := s.pos + s.cols - s.x;
      BothInside(s.mem, s.pos + 1, end, -1, s.pos, 1, ERASE, s.origin, s.scrEnd);
      BothInside(s.mem, s.pos, end - 1, 1, end - 1, 1, ERASE, s.origin, s.scrEnd);
    }
  }

  lemma EditVisible(s: Con, e: Edit)
    requires Ok(s)
    ensures Visible(s, EditOnce(s, e))
  {
    hide ScrollUp, ScrollDown;
    match e
    case LineIn => ScrollsVisible(s.(top := s.y, bottom := s.lines));
    case LineOut => ScrollsVisible(s.(top := s.y, bottom := s.lines));
    case _ => CharsVisible(s);
  }

  lemma EraseVisible(s: Con, n: nat)
    requires Ok(s)
    ensures Visible(s, CsiJ(s, n)) && Visible(s, CsiK(s, n))
  {
    hide Fill, Rows;
    CursorInside(s, 0);
    CursorInside(s, s.cols - 1);
    FillInside(s.mem, s.pos, s.scrEnd - s.pos, ERASE, s.origin, s.scrEnd);
    FillInside(s.mem, s.origin, s.pos - s.origin, ERASE, s.origin, s.scrEnd);
    FillInside(s.mem, s.origin, Rows(s.lines, s.cols), ERASE, s.origin, s.scrEnd);
    FillInside(s.mem, s.pos, s.cols - s.x, ERASE, s.origin, s.scrEnd);
    FillInside(s.mem, s.pos - s.x, s.x, ERASE, s.origin, s.scrEnd);
    FillInside(s.mem, s.pos - s.x, s.cols, ERASE, s.origin, s.scrEnd);
  }

  lemma RepeatVisible(s: Con, e: Edit, n: nat)
    requires Ok(s) && !e.LineOut?
    ensures Visible(s, Repeat(s, e, n)) && Repeat(s, e, n).origin == s.origin && Repeat(s, e, n).scrEnd == s.scrEnd
    decreases n
  {
    hide ScrollUp, Fill, Shift;
    if n > 0 {
      EditShows(s, e);
      EditVisible(s, e);
      RepeatVisible(EditOnce(s, e), e, n - 1);
    }
  }

  lemma TabVisible(s: Con)
    requires Ok(s)
    ensures Visible(s, TabStop(s))
  {
    hide Lf;
    var n := ToStop(s.x);
    if s.x + n > s.cols {
      var t := s.(x := s.x + n, pos := s.pos + n);
      assert t.(x := t.x - t.cols, pos := t.pos - t.cols) == s.(x := s.x + n - s.cols, pos := s.pos + n - s.cols);
      WrapVisible(t);
    }
  }

  /** Each of n edits, one after the other, writes inside the window it leaves. */
  ghost predicate EachVisible(s: Con, e: Edit, n: nat)
    decreases n
  {
    n > 0 ==> Visible(s, EditOnce(s, e)) && EachVisible(EditOnce(s, e), e, n - 1)
  }

  lemma {:induction false} EditsVisible(s: Con, e: Edit, n: nat)
    requires Ok(s)
    ensures EachVisible(s, e, n)
    decreases n
  {
    hide Visible, EditOnce;
    if n > 0 {
      EditShows(s, e);
      EditVisible(s, e);
      EditsVisible(EditOnce(s, e), e, n - 1);
    }
  }

  /** Every cell the command writes is inside the window at the time.  Deleting several lines may move the
      window several times; every other command moves it at most once, before it writes the new line. */
  ghost predicate WritesInside(s: Con, cmd: Cmd)
    requires Ok(s)
  {
    if cmd.DeleteLines? then EachVisible(s, LineOut, AtMost(cmd.n, s.lines)) else Visible(s, Exec(s, cmd))
  }

  /** No command writes a cell outside the window. */
  lemma ExecVisible(s: Con, cmd: Cmd)
    requires Ok(s)
    ensures WritesInside(s, cmd)
  {
    hide PutChar, ScrollUp, ScrollDown, TabStop, CsiJ, CsiK, Repeat, Fill, Rows;
    match cmd
    case Put(c) => PutVisible(s, c);
    case LineFeed => ScrollsVisible(s);
    case ReverseIndex => ScrollsVisible(s);
    case Tab => TabVisible(s);
    case Delete => if s.x > 0 {
      CursorInside(s, s.x - 1);
      FillInside(s.mem, s.pos - 1, 1, ERASE, s.origin, s.scrEnd);
    }
    case EraseDisplay(n) => EraseVisible(s, n);
    case EraseLine(n) => EraseVisible(s, n);
    case InsertChars(n) => RepeatVisible(s, CharIn, AtMost(n, s.cols));
    case DeleteChars(n) => RepeatVisible(s, CharOut, AtMost(n, s.cols));
    case InsertLines(n) => RepeatVisible(s, LineIn, AtMost(n, s.lines));
    case DeleteLines(n) => EditsVisible(s, LineOut, AtMost(n, s.lines));
    case _ =>
  }

  /** ESC 7 and ESC 8 are meant to save and restore the cursor.  The source compares the column x there
      instead of the character, so it saves and restores in columns 55 and 56 only, and there for any character
      that follows ESC and means nothing else. */
  lemma SavingDependsOnTheColumn(p: Parser, c: int, x: nat, y: nat)
    requires c !in {'[' as int, 'E' as int, 'M' as int, 'D' as int, 'Z' as int}
    ensures Escape(p, c, x, y).1 == (if x == 55 then Save else if x == 56 then Restore else Nothing)
  {
    assert '7' as int == 55 && '8' as int == 56;
  }
}
