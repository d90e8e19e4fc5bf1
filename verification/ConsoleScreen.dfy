// The screen as rows of cells, and what each command does to it: the reference for both ways of
// scrolling.

module ConsoleScreen {
  import opened ConsoleModel

  type Row = seq<nat>

  datatype Screen = Screen(
    rows: seq<Row>, cols: nat, lines: nat,
    x: nat, y: nat, top: nat, bottom: nat,
    attr: nat, savedX: nat, savedY: nat, parser: Parser)

  predicate Good(c: Screen) {
    && 8 <= c.cols && c.y < c.lines == |c.rows| && c.x <= c.cols && c.top < c.bottom <= c.lines
    && c.savedX <= c.cols && c.savedY < c.lines
    && (forall r | 0 <= r < c.lines :: |c.rows[r]| == c.cols)
    && WellFormed(c.parser)
  }

  function Blank(n: nat): (r: Row)
    ensures |r| == n
  {
    seq(n, _ => ERASE)
  }

  /** The rows of [t, b) move up by one. */
  function Up(rows: seq<Row>, t: nat, b: nat, cols: nat): (r: seq<Row>)
    requires t < b <= |rows|
    ensures |r| == |rows|
  {
    rows[..t] + rows[t + 1..b] + [Blank(cols)] + rows[b..]
  }

  /** The rows of [t, b) move down by one. */
  function Down(rows: seq<Row>, t: nat, b: nat, cols: nat): (r: seq<Row>)
    requires t < b <= |rows|
    ensures |r| == |rows|
  {
    rows[..t] + [Blank(cols)] + rows[t..b - 1] + rows[b..]
  }

  function NextLine(c: Screen): (d: Screen)
    requires Good(c)
    ensures Good(d)
  {
    if c.y + 1 < c.bottom then c.(y := c.y + 1) else c.(rows := Up(c.rows, c.top, c.bottom, c.cols))
  }

  function PriorLine(c: Screen): (d: Screen)
    requires Good(c)
    ensures Good(d)
  {
    if c.y > c.top then c.(y := c.y - 1) else c.(rows := Down(c.rows, c.top, c.bottom, c.cols))
  }

  function MoveTo(c: Screen, x: nat, y: nat): (d: Screen)
    requires Good(c)
    ensures Good(d)
  {
    if x > c.cols || y >= c.lines then c else c.(x := x, y := y)
  }

  function SetRow(c: Screen, row: Row): (d: Screen)
    requires Good(c) && |row| == c.cols
    ensures Good(d)
  {
    c.(rows := c.rows[c.y := row])
  }

  function Type(c: Screen, ch: nat): (d: Screen)
    requires Good(c)
    ensures Good(d)
  {
    var d := if c.x >= c.cols then NextLine(c.(x := 0)) else c;
    SetRow(d, d.rows[d.y][d.x := ch + 256 * d.attr]).(x := d.x + 1)
  }

  function TabTo(c: Screen): (d: Screen)
    requires Good(c)
    ensures Good(d)
  {
    var x := c.x + ToStop(c.x);
    if x > c.cols then NextLine(c.(x := x - c.cols)) else c.(x := x)
  }

  function EraseRows(c: Screen, n: nat): (d: Screen)
    requires Good(c)
    ensures Good(d)
  {
    var row := c.rows[c.y];
    if n == 0 then c.(rows := c.rows[..c.y] + [row[..c.x] + Blank(c.cols - c.x)] + seq(c.lines - c.y - 1, _ => Blank(c.cols)))
    else if n == 1 then c.(rows := seq(c.y, _ => Blank(c.cols)) + [Blank(c.x) + row[c.x..]] + c.rows[c.y + 1..])
    else if n == 2 then c.(rows := seq(c.lines, _ => Blank(c.cols)))
    else c
  }

  function EraseCells(c: Screen, n: nat): (d: Screen)
    requires Good(c)
    ensures Good(d)
  {
    var row := c.rows[c.y];
    if n == 0 then SetRow(c, row[..c.x] + Blank(c.cols - c.x))
    else if n == 1 then SetRow(c, Blank(c.x) + row[c.x..])
    else if n == 2 then SetRow(c, Blank(c.cols))
    else c
  }

  function Once(c: Screen, e: Edit): (d: Screen)
    requires Good(c)
    ensures Good(d)
  {
    var row := c.rows[c.y];
    match e
    case CharIn => if c.x >= c.cols then c else SetRow(c, row[..c.x] + [ERASE] + row[c.x..c.cols - 1])
    case CharOut => if c.x >= c.cols then c else SetRow(c, row[..c.x] + row[c.x + 1..] + [ERASE])
    case LineIn => c.(rows := Down(c.rows, c.y, c.lines, c.cols))
    case LineOut => c.(rows := Up(c.rows, c.y, c.lines, c.cols))
  }

  function Times(c: Screen, e: Edit, n: nat): (d: Screen)
    requires Good(c)
    ensures Good(d)
    decreases n
  {
    if n == 0 then c else Times(Once(c, e), e, n - 1)
  }

  function Perform(c: Screen, cmd: Cmd): (d: Screen)
    requires Good(c) && (cmd.Region? ==> cmd.top < cmd.bottom <= c.lines)
    ensures Good(d)
  {
    match cmd
    case Nothing => c
    case Put(ch) => Type(c, ch)
    case LineFeed => NextLine(c)
    case ReverseIndex => PriorLine(c)
    case Return => c.(x := 0)
    case Delete => if c.x == 0 then c else SetRow(c, c.rows[c.y][c.x - 1 := ERASE]).(x := c.x - 1)
    case Back => if c.x == 0 then c else c.(x := c.x - 1)
    case Tab => TabTo(c)
    case Goto(x, y) => MoveTo(c, x, y)
    case EraseDisplay(n) => EraseRows(c, n)
    case EraseLine(n) => EraseCells(c, n)
    case InsertChars(n) => Times(c, CharIn, AtMost(n, c.cols))
    case DeleteChars(n) => Times(c, CharOut, AtMost(n, c.cols))
    case InsertLines(n) => Times(c, LineIn, AtMost(n, c.lines))
    case DeleteLines(n) => Times(c, LineOut, AtMost(n, c.lines))
    case Attributes(ps) => c.(attr := Attr(c.attr, ps))
    case Region(t, b) => c.(top := t, bottom := b)
    case Save => c.(savedX := c.x, savedY := c.y)
    case Restore => MoveTo(c, c.savedX, c.savedY)
  }

  lemma RegionFits(p: Parser, c: int, erase: nat, x: nat, y: nat, lines: nat)
    requires WellFormed(p)
    ensures var cmd := Decode(p, c, erase, x, y, lines).1; cmd.Region? ==> cmd.top < cmd.bottom <= lines
  {
  }

  /** The plain terminal: one character in, one screen out. */
  function Show(c: Screen, ch: int, erase: nat): (d: Screen)
    requires Good(c)
    ensures Good(d)
  {
    RegionFits(c.parser, ch, erase, c.x, c.y, c.lines);
    var (p, cmd) := Decode(c.parser, ch, erase, c.x, c.y, c.lines);
    Perform(c.(parser := p), cmd)
  }

  // ----- the picture in video memory ---------------------------------------------------------

  function Cell(mem: seq<nat>, i: int): nat { if 0 <= i < |mem| then mem[i] else 0 }

  function RowOf(mem: seq<nat>, o: int, cols: nat, r: nat): (row: Row)
    ensures |row| == cols && forall k: nat | k < cols :: row[k] == Cell(mem, o + Rows(r, cols) + k)
  {
    seq<nat>(cols, (k: nat) => Cell(mem, o + Rows(r, cols) + k))
  }

  /** The window of mem at o, cut into rows. */
  function Picture(mem: seq<nat>, o: int, cols: nat, lines: nat): (p: seq<Row>)
    ensures |p| == lines && forall r: nat | r < lines :: p[r] == RowOf(mem, o, cols, r)
  {
    seq(lines, (r: nat) => RowOf(mem, o, cols, r))
  }

  function View(s: Con): Screen {
    Screen(Picture(s.mem, s.origin, s.cols, s.lines), s.cols, s.lines, s.x, s.y, s.top, s.bottom, s.attr, s.savedX, s.savedY, s.parser)
  }

  predicate Before(r: nat, k: nat, y: nat, x: nat) { r < y || (r == y && k < x) }

  lemma {:induction false} RowsLe(a: nat, b: nat, c: nat)
    requires a <= b
    ensures Rows(a, c) <= Rows(b, c)
    decreases b
  {
    if a < b { RowsLe(a, b - 1, c); }
  }

  lemma {:induction false} RowsApart(t: nat, b: nat, c: nat)
    requires t <= b
    ensures Rows(b - t, c) + Rows(t, c) == Rows(b, c)
    decreases b
  {
    if t < b {
      RowsApart(t, b - 1, c);
      assert Rows(b - 1 - t, c) + c == Rows(b - t, c);
    }
  }

  lemma {:induction false} RowsEven(n: nat, c: nat)
    requires c % 2 == 0
    ensures Rows(n, c) / 2 * 2 == Rows(n, c)
  {
    if n > 0 { RowsEven(n - 1, c); }
  }

  /** Reading order is address order. */
  lemma ReadingOrder(cols: nat, r: nat, k: nat, y: nat, x: nat)
    requires k < cols && x <= cols
    ensures Rows(r, cols) + k < Rows(y, cols) + x <==> Before(r, k, y, x)
  {
    if r < y { RowsLe(r + 1, y, cols); }
    if y < r { RowsLe(y + 1, r, cols); }
  }

  lemma InWindow(cols: nat, lines: nat, r: nat, k: nat)
    requires k < cols && r < lines
    ensures 0 <= Rows(r, cols) + k < Rows(lines, cols)
  {
    ReadingOrder(cols, r, k, lines, 0);
  }

  lemma FillCell(mem: seq<nat>, o: int, cols: nat, lines: nat, d: int, n: int, v: nat, y0: nat, x0: nat, y1: nat, x1: nat, r: nat, k: nat)
    requires 0 <= o && o + Rows(lines, cols) <= |mem| && x0 <= cols && x1 <= cols && r < lines && k < cols
    requires d == o + Rows(y0, cols) + x0 && d + n == o + Rows(y1, cols) + x1
    ensures Cell(Fill(mem, d, n, v), o + Rows(r, cols) + k) == if !Before(r, k, y0, x0) && Before(r, k, y1, x1) then v else Cell(mem, o + Rows(r, cols) + k)
  {
    hide Rows;
    InWindow(cols, lines, r, k);
    ReadingOrder(cols, r, k, y0, x0);
    ReadingOrder(cols, r, k, y1, x1);
  }

  /** Filling from (y0, x0) up to (y1, x1) in reading order. */
  lemma FillPicture(mem: seq<nat>, o: int, cols: nat, lines: nat, d: int, n: int, v: nat, y0: nat, x0: nat, y1: nat, x1: nat)
    requires 0 <= o && o + Rows(lines, cols) <= |mem| && x0 <= cols && x1 <= cols
    requires d == o + Rows(y0, cols) + x0 && d + n == o + Rows(y1, cols) + x1
    ensures var p, q := Picture(mem, o, cols, lines), Picture(Fill(mem, d, n, v), o, cols, lines);
      forall r: nat, k: nat | r < lines && k < cols :: q[r][k] == if !Before(r, k, y0, x0) && Before(r, k, y1, x1) then v else p[r][k]
  {
    forall r: nat, k: nat | r < lines && k < cols
      ensures Cell(Fill(mem, d, n, v), o + Rows(r, cols) + k) == if !Before(r, k, y0, x0) && Before(r, k, y1, x1) then v else Cell(mem, o + Rows(r, cols) + k)
    {
      FillCell(mem, o, cols, lines, d, n, v, y0, x0, y1, x1, r, k);
    }
  }

  lemma ShiftCell(mem: seq<nat>, o: int, cols: nat, lines: nat, a: int, b: int, step: int, y0: nat, x0: nat, y1: nat, x1: nat, r: nat, k: nat)
    requires 0 <= o && o + Rows(lines, cols) <= |mem| && x0 <= cols && x1 <= cols && r < lines && k < cols
    requires a == o + Rows(y0, cols) + x0 && b == o + Rows(y1, cols) + x1 && 0 <= a + step && (a < b ==> b + step <= |mem|)
    ensures Cell(Shift(mem, a, b, step), o + Rows(r, cols) + k) ==
      if !Before(r, k, y0, x0) && Before(r, k, y1, x1) then Cell(mem, o + Rows(r, cols) + k + step) else Cell(mem, o + Rows(r, cols) + k)
  {
    hide Rows;
    InWindow(cols, lines, r, k);
    ReadingOrder(cols, r, k, y0, x0);
    ReadingOrder(cols, r, k, y1, x1);
  }
}
