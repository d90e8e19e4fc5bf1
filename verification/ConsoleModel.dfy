// The console of chr_drv/console.c: a window of video memory that either moves (EGA/VGA) or stays
// put, and the screen it is meant to show.  Addresses are in cells of two bytes from the start of
// video memory, so a byte address A of the source is the cell (A - video_mem_start) / 2.

module ConsoleModel {

  const ERASE: nat := 0x0720
  const NPAR: nat := 16
  const WORD: nat := 0x1_0000_0000

  datatype Parser = Parser(state: nat, npar: nat, par: seq<nat>, ques: bool)

  /** What one character asks for, once the escape sequence it ends has been read. */
  datatype Cmd =
    | Nothing
    | Put(c: nat)
    | LineFeed
    | ReverseIndex
    | Return
    | Delete
    | Back
    | Tab
    | Goto(x: nat, y: nat)
    | EraseDisplay(n: nat)
    | EraseLine(n: nat)
    | InsertChars(n: nat)
    | DeleteChars(n: nat)
    | InsertLines(n: nat)
    | DeleteLines(n: nat)
    | Attributes(ps: seq<nat>)
    | Region(top: nat, bottom: nat)
    | Save
    | Restore

  // ----- the escape sequences --------------------------------------------------------------

  function Wrap(v: int): nat { v % WORD }

  function OneAtLeast(n: nat): nat { if n == 0 then 1 else n }

  function OneLess(n: nat): nat { if n == 0 then 0 else n - 1 }

  predicate WellFormed(p: Parser) {
    p.state <= 3 && p.npar < NPAR && |p.par| == NPAR
  }

  /** State 0: a plain character, negative for the codes above 127.  erase is the terminal's ERASE_CHAR. */
  function Plain(p: Parser, c: int, erase: nat): (r: (Parser, Cmd))
    ensures WellFormed(p) ==> WellFormed(r.0)
  {
    if 31 < c < 127 then (p, Put(c))
    else if c == 27 then (p.(state := 1), Nothing)
    else if c == 10 || c == 11 || c == 12 then (p, LineFeed)
    else if c == 13 then (p, Return)
    else if c == erase then (p, Delete)
    else if c == 8 then (p, Back)
    else if c == 9 then (p, Tab)
    else (p, Nothing)
  }

  /** State 1: the character after ESC.  Saving and restoring the cursor test the column x where the
      character was meant, as the source does. */
  function Escape(p: Parser, c: int, x: nat, y: nat): (r: (Parser, Cmd))
    ensures WellFormed(p) ==> WellFormed(r.0)
  {
    var q := p.(state := 0);
    if c == '[' as int then (p.(state := 2), Nothing)
    else if c == 'E' as int then (q, Goto(0, Wrap(y + 1)))
    else if c == 'M' as int then (q, ReverseIndex)
    else if c == 'D' as int then (q, LineFeed)
    else if c == 'Z' as int then (q, Nothing)
    else if x == '7' as int then (q, Save)
    else if x == '8' as int then (q, Restore)
    else (q, Nothing)
  }

  /** State 3: a parameter, a separator, or the end of the sequence. */
  function Parameter(p: Parser, c: int, x: nat, y: nat, lines: nat): (r: (Parser, Cmd))
    requires WellFormed(p)
    ensures WellFormed(r.0)
  {
    if c == ';' as int && p.npar < NPAR - 1 then (p.(npar := p.npar + 1), Nothing)
    else if '0' as int <= c <= '9' as int then
      (p.(par := p.par[p.npar := Wrap(10 * p.par[p.npar] + c - '0' as int)]), Nothing)
    else (p.(state := 0), Final(p, c, x, y, lines))
  }

  /** State 4: the command of a finished sequence. */
  function Final(p: Parser, c: int, x: nat, y: nat, lines: nat): Cmd
    requires WellFormed(p)
  {
    var n := p.par[0];
    var m := p.par[1];
    if c == 'G' as int || c == '`' as int then Goto(OneLess(n), y)
    else if c == 'A' as int then Goto(x, Wrap(y - OneAtLeast(n)))
    else if c == 'B' as int || c == 'e' as int then Goto(x, Wrap(y + OneAtLeast(n)))
    else if c == 'C' as int || c == 'a' as int then Goto(Wrap(x + OneAtLeast(n)), y)
    else if c == 'D' as int then Goto(Wrap(x - OneAtLeast(n)), y)
    else if c == 'E' as int then Goto(0, Wrap(y + OneAtLeast(n)))
    else if c == 'F' as int then Goto(0, Wrap(y - OneAtLeast(n)))
    else if c == 'd' as int then Goto(x, OneLess(n))
    else if c == 'H' as int || c == 'f' as int then Goto(OneLess(m), OneLess(n))
    else if c == 'J' as int then EraseDisplay(n)
    else if c == 'K' as int then EraseLine(n)
    else if c == 'L' as int then InsertLines(n)
    else if c == 'M' as int then DeleteLines(n)
    else if c == 'P' as int then DeleteChars(n)
    else if c == '@' as int then InsertChars(n)
    else if c == 'm' as int then Attributes(p.par[..p.npar + 1])
    else if c == 'r' as int then
      var b := if m == 0 then lines else m;
      if OneLess(n) < b <= lines then Region(OneLess(n), b) else Nothing
    else if c == 's' as int then Save
    else if c == 'u' as int then Restore
    else Nothing
  }

  function Decode(p: Parser, c: int, erase: nat, x: nat, y: nat, lines: nat): (r: (Parser, Cmd))
    requires WellFormed(p)
    ensures WellFormed(r.0)
  {
    if p.state == 0 then Plain(p, c, erase)
    else if p.state == 1 then Escape(p, c, x, y)
    else if p.state == 2 then
      var q := Parser(3, 0, seq(NPAR, _ => 0), c == '?' as int);
      if q.ques then (q, Nothing) else Parameter(q, c, x, y, lines)
    else Parameter(p, c, x, y, lines)
  }

  /** csi_m: the parameters in turn; most are ignored. */
  function Attr(attr: nat, ps: seq<nat>): nat
    decreases |ps|
  {
    if ps == [] then attr
    else
      var n := ps[0];
      Attr(if n == 0 || n == 27 then 0x07 else if n == 1 || n == 4 then 0x0f else if n == 7 then 0x70 else attr, ps[1..])
  }

  function AtMost(n: nat, most: nat): nat {
    if n > most then most else if n == 0 then 1 else n
  }

  // ----- the machine -----------------------------------------------------------------------

  /** `mem` is all of the video memory; the screen is the window [origin, scrEnd) of it. */
  datatype Con = Con(
    fast: bool, cols: nat, lines: nat,
    mem: seq<nat>, origin: int, scrEnd: int, pos: int,
    x: nat, y: nat, top: nat, bottom: nat,
    attr: nat, savedX: nat, savedY: nat, parser: Parser)

  /** The cells of n rows: n * cols, by addition so that addresses stay linear in proofs. */
  function Rows(n: int, cols: nat): nat {
    if n <= 0 then 0 else Rows(n - 1, cols) + cols
  }

  lemma {:induction false} RowsProduct(n: nat, cols: nat)
    ensures Rows(n, cols) == n * cols
  {
    if n > 0 { RowsProduct(n - 1, cols); }
  }

  predicate Ok(s: Con) {
    && 8 <= s.cols && s.cols % 2 == 0 && s.lines > 0
    && 0 <= s.origin && s.origin + Rows(s.lines, s.cols) == s.scrEnd <= |s.mem|
    && s.pos == s.origin + Rows(s.y, s.cols) + s.x
    && s.x <= s.cols && s.y < s.lines
    && s.top < s.bottom <= s.lines
    && s.savedX <= s.cols && s.savedY < s.lines
    && WellFormed(s.parser)
  }

  /** rep movsl: n cells, a pair at a time, to d from src. */
  function Move(mem: seq<nat>, d: int, src: int, n: int): (r: seq<nat>)
    ensures |r| == |mem|
  {
    Shift(mem, d, d + n / 2 * 2, src - d)
  }

  /** rep stosw: n cells from d. */
  function Fill(mem: seq<nat>, d: int, n: int, v: nat): (r: seq<nat>)
    ensures |r| == |mem|
  {
    seq(|mem|, (k: nat) requires k < |mem| => if d <= k < d + n then v else mem[k])
  }

  /** The cells of [a, b) each take the value of the cell at a distance. */
  function Shift(mem: seq<nat>, a: int, b: int, step: int): (r: seq<nat>)
    ensures |r| == |mem|
  {
    seq(|mem|, (k: nat) requires k < |mem| => if a <= k < b && 0 <= k + step < |mem| then mem[k + step] else mem[k])
  }

  function Gotoxy(s: Con, x: nat, y: nat): Con {
    if x > s.cols || y >= s.lines then s else s.(x := x, y := y, pos := s.origin + Rows(y, s.cols) + x)
  }

  function CopyUp(s: Con): Con {
    var d := s.origin + Rows(s.top, s.cols);
    var n := Rows(s.bottom - s.top - 1, s.cols);
    s.(mem := Fill(Move(s.mem, d, s.origin + Rows(s.top + 1, s.cols), n), d + n / 2 * 2, s.cols, ERASE))
  }

  function ScrollUp(s: Con): Con {
    if s.fast && s.top == 0 && s.bottom == s.lines then
      var t := s.(origin := s.origin + s.cols, pos := s.pos + s.cols, scrEnd := s.scrEnd + s.cols);
      if t.scrEnd > |t.mem| then
        var n := Rows(t.lines - 1, t.cols);
        t.(mem := Fill(Move(t.mem, 0, t.origin, n), n / 2 * 2, t.cols, ERASE),
           scrEnd := t.scrEnd - t.origin, pos := t.pos - t.origin, origin := 0)
      else t.(mem := Fill(t.mem, t.scrEnd - t.cols, t.cols, ERASE))
    else CopyUp(s)
  }

  /** The backward copy leaves its destination one row above the moved block. */
  function ScrollDown(s: Con): Con {
    var n := Rows(s.bottom - s.top - 1, s.cols) / 2 * 2;
    var d := s.origin + Rows(s.bottom, s.cols) - n;
    s.(mem := Fill(Move(s.mem, d, d - s.cols, n), d - s.cols, s.cols, ERASE))
  }

  function Lf(s: Con): Con {
    if s.y + 1 < s.bottom then s.(y := s.y + 1, pos := s.pos + s.cols) else ScrollUp(s)
  }

  function Ri(s: Con): Con {
    if s.y > s.top then s.(y := s.y - 1, pos := s.pos - s.cols) else ScrollDown(s)
  }

  /** Past the right margin: back by a line, then a line feed. */
  function WrapLine(s: Con): Con
    requires s.x >= s.cols
  {
    Lf(s.(x := s.x - s.cols, pos := s.pos - s.cols))
  }

  function PutChar(s: Con, c: nat): Con {
    var t := if s.x >= s.cols then WrapLine(s) else s;
    t.(mem := Fill(t.mem, t.pos, 1, c + 256 * t.attr), pos := t.pos + 1, x := t.x + 1)
  }

  function DeleteBack(s: Con): Con {
    if s.x == 0 then s else s.(pos := s.pos - 1, x := s.x - 1, mem := Fill(s.mem, s.pos - 1, 1, ERASE))
  }

  function ToStop(x: nat): (n: nat)
    ensures 1 <= n <= 8 && (x + n) % 8 == 0
  {
    8 - x % 8
  }

  function TabStop(s: Con): Con {
    var n := ToStop(s.x);
    var t := s.(x := s.x + n, pos := s.pos + n);
    if t.x > t.cols then WrapLine(t) else t
  }

  function CsiJ(s: Con, n: nat): Con {
    if n == 0 then s.(mem := Fill(s.mem, s.pos, s.scrEnd - s.pos, ERASE))
    else if n == 1 then s.(mem := Fill(s.mem, s.origin, s.pos - s.origin, ERASE))
    else if n == 2 then s.(mem := Fill(s.mem, s.origin, Rows(s.lines, s.cols), ERASE))
    else s
  }

  function CsiK(s: Con, n: nat): Con {
    if n == 0 then if s.x >= s.cols then s else s.(mem := Fill(s.mem, s.pos, s.cols - s.x, ERASE))
    else if n == 1 then s.(mem := Fill(s.mem, s.pos - s.x, if s.x < s.cols then s.x else s.cols, ERASE))
    else if n == 2 then s.(mem := Fill(s.mem, s.pos - s.x, s.cols, ERASE))
    else s
  }

  /** insert_char: the cells from the cursor to the margin each take the one before. */
  function InsertChar(s: Con): Con {
    if s.x >= s.cols then s
    else s.(mem := Fill(Shift(s.mem, s.pos + 1, s.pos + s.cols - s.x, -1), s.pos, 1, ERASE))
  }

  function DeleteChar(s: Con): Con {
    if s.x >= s.cols then s
    else
      var last := s.pos + s.cols - s.x - 1;
      s.(mem := Fill(Shift(s.mem, s.pos, last, 1), last, 1, ERASE))
  }

  function InsertLine(s: Con): Con {
    ScrollDown(s.(top := s.y, bottom := s.lines)).(top := s.top, bottom := s.bottom)
  }

  function DeleteLine(s: Con): Con {
    ScrollUp(s.(top := s.y, bottom := s.lines)).(top := s.top, bottom := s.bottom)
  }

  datatype Edit = CharIn | CharOut | LineIn | LineOut

  function EditOnce(s: Con, e: Edit): Con {
    match e
    case CharIn => InsertChar(s)
    case CharOut => DeleteChar(s)
    case LineIn => InsertLine(s)
    case LineOut => DeleteLine(s)
  }

  function Repeat(s: Con, e: Edit, n: nat): Con
    decreases n
  {
    if n == 0 then s else Repeat(EditOnce(s, e), e, n - 1)
  }

  function Exec(s: Con, cmd: Cmd): Con {
    match cmd
    case Nothing => s
    case Put(c) => PutChar(s, c)
    case LineFeed => Lf(s)
    case ReverseIndex => Ri(s)
    case Return => s.(pos := s.pos - s.x, x := 0)
    case Delete => DeleteBack(s)
    case Back => if s.x == 0 then s else s.(x := s.x - 1, pos := s.pos - 1)
    case Tab => TabStop(s)
    case Goto(x, y) => Gotoxy(s, x, y)
    case EraseDisplay(n) => CsiJ(s, n)
    case EraseLine(n) => CsiK(s, n)
    case InsertChars(n) => Repeat(s, CharIn, AtMost(n, s.cols))
    case DeleteChars(n) => Repeat(s, CharOut, AtMost(n, s.cols))
    case InsertLines(n) => Repeat(s, LineIn, AtMost(n, s.lines))
    case DeleteLines(n) => Repeat(s, LineOut, AtMost(n, s.lines))
    case Attributes(ps) => s.(attr := Attr(s.attr, ps))
    case Region(t, b) => s.(top := t, bottom := b)
    case Save => s.(savedX := s.x, savedY := s.y)
    case Restore => Gotoxy(s, s.savedX, s.savedY)
  }

  /** One round of con_write's loop. */
  function Write(s: Con, c: int, erase: nat): Con
    requires WellFormed(s.parser)
  {
    var (p, cmd) := Decode(s.parser, c, erase, s.x, s.y, s.lines);
    Exec(s.(parser := p), cmd)
  }
}
