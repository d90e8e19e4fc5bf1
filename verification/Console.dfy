// The console driver on its video memory.  Every method leaves the fields as the model says.

module Console {
  import opened ConsoleModel
  import opened ConsoleScreen
  import opened ConsoleProofs
  import opened ConsoleLanguage

  class Vt {
    const fast: bool          // EGA or VGA
    const cols: nat
    const lines: nat
    const mem: array<nat>
    var origin: nat
    var scrEnd: nat
    var pos: int
    var x: nat
    var y: nat
    var top: nat
    var bottom: nat
    var attr: nat
    var savedX: nat
    var savedY: nat
    var parser: Parser

    ghost function Abs(): Con
      reads this, mem
    {
      Con(fast, cols, lines, mem[..], origin, scrEnd, pos, x, y, top, bottom, attr, savedX, savedY, parser)
    }

    ghost predicate Valid()
      reads this, mem
    {
      Ok(Abs())
    }

    /** con_init: the window at the start of video memory, the cursor where the boot left it. */
    constructor (fast: bool, cols: nat, lines: nat, video: seq<nat>, x0: nat, y0: nat)
      requires 8 <= cols && cols % 2 == 0 && lines > 0 && Rows(lines, cols) <= |video| && x0 <= cols && y0 < lines
      ensures Valid() && fresh(mem) && mem[..] == video && origin == 0 && this.fast == fast && (x, y) == (x0, y0)
    {
      this.fast, this.cols, this.lines := fast, cols, lines;
      mem := new nat[|video|](k requires 0 <= k < |video| => video[k]);
      origin, scrEnd, top, bottom := 0, Rows(lines, cols), 0, lines;
      x, y, pos := x0, y0, Rows(y0, cols) + x0;
      attr, savedX, savedY, parser := 0x07, 0, 0, Parser(0, 0, seq(NPAR, _ => 0), false);
      new;
      assert mem[..] == video;
    }

    // ----- the string instructions ---------------------------------------------------------

    /** One more cell at either end of a copied stretch. */
    static lemma ShiftGrows(m: seq<nat>, a: nat, b: nat, step: int)
      requires a < b <= |m| && 0 <= a + step && b + step <= |m|
      ensures Shift(m, a, b, step) == Shift(m, a, b - 1, step)[b - 1 := m[b - 1 + step]]
      ensures Shift(m, a, b, step) == Shift(m, a + 1, b, step)[a := m[a + step]]
      ensures 0 <= step ==> Shift(m, a, b - 1, step)[b - 1 + step] == m[b - 1 + step]
      ensures step <= 0 ==> Shift(m, a + 1, b, step)[a + step] == m[a + step]
    {
    }

    static lemma ShiftNone(m: seq<nat>, a: nat, step: int)
      ensures Shift(m, a, a, step) == m
    {
    }

    /** cld; rep movsl */
    method CopyForward(d: nat, src: nat, pairs: nat)
      requires d <= src && src + 2 * pairs <= mem.Length
      modifies mem
      ensures mem[..] == Move(old(mem[..]), d, src, 2 * pairs)
    {
      hide Shift;
      ghost var m := mem[..];
      ShiftNone(m, d, src - d);
      var i, n := 0, 2 * pairs;
      while i < n
        invariant 0 <= i <= n && mem[..] == Shift(m, d, d + i, src - d)
      {
        ShiftGrows(m, d, d + i + 1, src - d);
        assert mem[..][src + i] == m[src + i];
        mem[d + i] := mem[src + i];
        i := i + 1;
      }
      assert n / 2 * 2 == n;
    }

    /** std; rep movsl: the last pair first. */
    method CopyBackward(d: nat, src: nat, pairs: nat)
      requires src <= d && d + 2 * pairs <= mem.Length
      modifies mem
      ensures mem[..] == Move(old(mem[..]), d, src, 2 * pairs)
    {
      hide Shift;
      ghost var m := mem[..];
      var n := 2 * pairs;
      ShiftNone(m, d + n, src - d);
      var i := n;
      while i > 0
        invariant 0 <= i <= n && mem[..] == Shift(m, d + i, d + n, src - d)
      {
        i := i - 1;
        ShiftGrows(m, d + i, d + n, src - d);
        assert mem[..][src + i] == m[src + i];
        mem[d + i] := mem[src + i];
      }
      assert n / 2 * 2 == n;
    }

    /** rep stosw */
    method Stos(d: nat, n: nat, v: nat)
      requires d + n <= mem.Length
      modifies mem
      ensures mem[..] == Fill(old(mem[..]), d, n, v)
    {
      var i := 0;
      while i < n
        invariant 0 <= i <= n
        invariant forall k | 0 <= k < mem.Length :: mem[k] == if d <= k < d + i then v else old(mem[k])
      {
        mem[d + i] := v;
        i := i + 1;
      }
    }

    // ----- scrolling -------------------------------------------------------------------------

    method Gotoxy(newX: nat, newY: nat)
      requires Valid()
      modifies `x, `y, `pos
      ensures Valid() && Abs() == ConsoleModel.Gotoxy(old(Abs()), newX, newY)
    {
      if newX > cols || newY >= lines { return; }
      x := newX;
      y := newY;
      pos := origin + Rows(y, cols) + x;
    }

    /** EGA and VGA, with the whole screen as scroll region. */
    method SlideWindow()
      requires Valid() && fast && top == 0 && bottom == lines
      modifies `origin, `pos, `scrEnd, mem
      ensures Abs() == ScrollUp(old(Abs()))
    {
      hide Fill, Shift, Rows;
      RowSpan(cols, lines, 0, lines);
      origin, pos, scrEnd := origin + cols, pos + cols, scrEnd + cols;
      if scrEnd > mem.Length {
        var n := Rows(lines - 1, cols) / 2;
        CopyForward(0, origin, n);
        Stos(2 * n, cols, ERASE);
        scrEnd := scrEnd - origin;
        pos := pos - origin;
        origin := 0;
      } else {
        Stos(scrEnd - cols, cols, ERASE);
      }
    }

    method CopyRowsUp()
      requires Valid()
      modifies mem
      ensures Abs() == CopyUp(old(Abs()))
    {
      hide Fill, Shift, Rows;
      RowSpan(cols, lines, top, bottom);
      var n := Rows(bottom - top - 1, cols) / 2;
      CopyForward(origin + Rows(top, cols), origin + Rows(top + 1, cols), n);
      Stos(origin + Rows(top, cols) + 2 * n, cols, ERASE);
    }

    method Scrup()
      requires Valid()
      modifies `origin, `pos, `scrEnd, mem
      ensures Valid() && Abs() == ScrollUp(old(Abs()))
    {
      hide CopyUp;
      ScrollUpShows(Abs());
      if fast && top == 0 && bottom == lines {
        SlideWindow();
      } else {
        CopyRowsUp();
      }
    }

    method Scrdown()
      requires Valid()
      modifies mem
      ensures Valid() && Abs() == ScrollDown(old(Abs()))
    {
      hide Fill, Shift;
      ScrollDownShows(Abs());
      RowSpan(cols, lines, top, bottom);
      var n := Rows(bottom - top - 1, cols) / 2;
      var d := origin + Rows(bottom, cols) - 2 * n;
      CopyBackward(d, d - cols, n);
      Stos(d - cols, cols, ERASE);
    }

    method LineFeed()
      requires Valid()
      modifies `y, `origin, `pos, `scrEnd, mem
      ensures Valid() && Abs() == Lf(old(Abs()))
    {
      hide ScrollUp;
      if y + 1 < bottom {
        y := y + 1;
        pos := pos + cols;
        return;
      }
      Scrup();
    }

    method ReverseLineFeed()
      requires Valid()
      modifies `y, `pos, mem
      ensures Valid() && Abs() == Ri(old(Abs()))
    {
      RiShows(Abs());
      if y > top {
        y := y - 1;
        pos := pos - cols;
        return;
      }
      Scrdown();
    }

    // ----- cells -----------------------------------------------------------------------------

    /** x >= cols: go back by a line, then feed one. */
    method NextLineStart()
      requires x >= cols && Ok(Abs().(x := x - cols, pos := pos - cols))
      modifies `x, `y, `origin, `pos, `scrEnd, mem
      ensures Valid() && Abs() == WrapLine(old(Abs()))
    {
      hide ScrollUp, Rows;
      x := x - cols;
      pos := pos - cols;
      LineFeed();
    }

    method PutCharacter(c: nat)
      requires Valid()
      modifies `x, `y, `origin, `pos, `scrEnd, mem
      ensures Valid() && Abs() == PutChar(old(Abs()), c)
    {
      PutShows(Abs(), c);
      PutInside(Abs());
      hide Fill, WrapLine, Ok, View, Type;
      if x >= cols { NextLineStart(); }
      Stos(pos, 1, c + 256 * attr);
      pos := pos + 1;
      x := x + 1;
    }

    method Delete()
      requires Valid()
      modifies `x, `pos, mem
      ensures Valid() && Abs() == DeleteBack(old(Abs()))
    {
      if x > 0 {
        CursorInside(Abs(), x - 1);
        pos := pos - 1;
        x := x - 1;
        Stos(pos, 1, ERASE);
      }
    }

    method TabForward()
      requires Valid()
      modifies `x, `y, `origin, `pos, `scrEnd, mem
      ensures Valid() && Abs() == TabStop(old(Abs()))
    {
      hide Lf, ScrollUp;
      TabShows(Abs());
      var c := ToStop(x);
      x := x + c;
      pos := pos + c;
      if x > cols { NextLineStart(); }
    }

    method EraseInDisplay(n: nat)
      requires Valid()
      modifies mem
      ensures Valid() && Abs() == CsiJ(old(Abs()), n)
    {
      hide Fill;
      CursorInside(Abs(), 0);
      CursorInside(Abs(), cols - 1);
      if n == 0 {
        Stos(pos, scrEnd - pos, ERASE);
      } else if n == 1 {
        Stos(origin, pos - origin, ERASE);
      } else if n == 2 {
        Stos(origin, Rows(lines, cols), ERASE);
      }
    }

    method EraseInLine(n: nat)
      requires Valid()
      modifies mem
      ensures Valid() && Abs() == CsiK(old(Abs()), n)
    {
      hide Fill;
      CursorInside(Abs(), 0);
      CursorInside(Abs(), cols - 1);
      if n == 0 {
        if x < cols { Stos(pos, cols - x, ERASE); }
      } else if n == 1 {
        Stos(pos - x, if x < cols then x else cols, ERASE);
      } else if n == 2 {
        Stos(pos - x, cols, ERASE);
      }
    }

    method InsertCharacter()
      requires Valid()
      modifies mem
      ensures Valid() && Abs() == InsertChar(old(Abs()))
    {
      InsertCharShows(Abs());
      if x < cols { CursorInside(Abs(), cols - 1); }
      var i, p, carried := x, pos, ERASE;
      while i < cols
        invariant x <= i && (if x < cols then i <= cols else i == x) && p == pos + i - x
        invariant x < cols ==> carried == if i == x then ERASE else old(mem[p - 1])
        invariant forall k | 0 <= k < mem.Length :: mem[k] == if pos < k < p then old(mem[k - 1]) else if k == pos && pos < p then ERASE else old(mem[k])
      {
        var tmp := mem[p];
        mem[p] := carried;
        carried := tmp;
        p := p + 1;
        i := i + 1;
      }
      ghost var m, t := old(mem[..]), InsertChar(old(Abs())).mem;
      if x < cols {
        assert t == Fill(Shift(m, pos + 1, pos + cols - x, -1), pos, 1, ERASE);
        forall k | 0 <= k < mem.Length ensures mem[k] == t[k] {}
      }
      assert mem[..] == t;
    }

    method DeleteCharacter()
      requires Valid()
      modifies mem
      ensures Valid() && Abs() == DeleteChar(old(Abs()))
    {
      DeleteCharShows(Abs());
      if x >= cols { return; }
      CursorInside(Abs(), cols - 1);
      CursorInside(Abs(), x);
      var i, p := x + 1, pos;
      while i < cols
        invariant x + 1 <= i <= cols && p == pos + i - x - 1
        invariant forall k | 0 <= k < mem.Length :: mem[k] == if pos <= k < p then old(mem[k + 1]) else old(mem[k])
      {
        mem[p] := mem[p + 1];
        p := p + 1;
        i := i + 1;
      }
      mem[p] := ERASE;
      assert mem[..] == DeleteChar(old(Abs())).mem;
    }

    /** insert_line and delete_line scroll from the cursor's row with the region opened to the end. */
    method InsertALine()
      requires Valid()
      modifies `top, `bottom, mem
      ensures Valid() && Abs() == InsertLine(old(Abs()))
    {
      EditShows(Abs(), LineIn);
      var oldTop, oldBottom := top, bottom;
      top, bottom := y, lines;
      Scrdown();
      top, bottom := oldTop, oldBottom;
    }

    method DeleteALine()
      requires Valid()
      modifies `top, `bottom, `origin, `pos, `scrEnd, mem
      ensures Valid() && Abs() == DeleteLine(old(Abs()))
    {
      EditShows(Abs(), LineOut);
      var oldTop, oldBottom := top, bottom;
      top, bottom := y, lines;
      Scrup();
      top, bottom := oldTop, oldBottom;
    }

    /** csi_at, csi_P, csi_L and csi_M */
    method Edits(e: Edit, n: nat)
      requires Valid()
      modifies `top, `bottom, `origin, `pos, `scrEnd, mem
      ensures Valid() && Abs() == Repeat(old(Abs()), e, n)
    {
      hide EditOnce;
      var left := n;
      while left > 0
        invariant 0 <= left <= n && Valid() && Repeat(Abs(), e, left) == Repeat(old(Abs()), e, n)
      {
        OneEdit(e);
        left := left - 1;
      }
    }

    method OneEdit(e: Edit)
      requires Valid()
      modifies `top, `bottom, `origin, `pos, `scrEnd, mem
      ensures Valid() && Abs() == EditOnce(old(Abs()), e)
    {
      match e
      case CharIn => InsertCharacter();
      case CharOut => DeleteCharacter();
      case LineIn => InsertALine();
      case LineOut => DeleteALine();
    }

    /** csi_m */
    method SetAttributes(ps: seq<nat>)
      modifies `attr
      ensures attr == Attr(old(attr), ps)
    {
      var i := 0;
      while i < |ps|
        invariant 0 <= i <= |ps| && Attr(attr, ps[i..]) == Attr(old(attr), ps)
      {
        if ps[i] == 0 || ps[i] == 27 {
          attr := 0x07;
        } else if ps[i] == 1 || ps[i] == 4 {
          attr := 0x0f;
        } else if ps[i] == 7 {
          attr := 0x70;
        }
        assert ps[i..][1..] == ps[i + 1..];
        i := i + 1;
      }
    }

    // ----- con_write -------------------------------------------------------------------------

    /** The commands that move the cursor. */
    method MoveCursor(cmd: Cmd)
      requires Valid() && (cmd.Return? || cmd.Back? || cmd.Goto? || cmd.Restore?)
      modifies `pos, `x, `y
      ensures Valid() && Abs() == Exec(old(Abs()), cmd)
    {
      hide Rows;
      match cmd
      case Return => pos, x := pos - x, 0;
      case Back => if x > 0 { x, pos := x - 1, pos - 1; }
      case Goto(newX, newY) => Gotoxy(newX, newY);
      case Restore => Gotoxy(savedX, savedY);
    }

    /** The commands that set a field. */
    method SetField(cmd: Cmd)
      requires Valid() && (cmd.Region? ==> cmd.top < cmd.bottom <= lines)
      requires cmd.Nothing? || cmd.Attributes? || cmd.Region? || cmd.Save?
      modifies `attr, `top, `bottom, `savedX, `savedY
      ensures Valid() && Abs() == Exec(old(Abs()), cmd)
    {
      hide Rows;
      match cmd
      case Nothing =>
      case Attributes(ps) => SetAttributes(ps);
      case Region(t, b) => top, bottom := t, b;
      case Save => savedX, savedY := x, y;
    }

    /** The commands that erase and edit. */
    method Rewrite(cmd: Cmd)
      requires Valid()
      requires cmd.EraseDisplay? || cmd.EraseLine? || cmd.InsertChars? || cmd.DeleteChars? || cmd.InsertLines? || cmd.DeleteLines?
      modifies `top, `bottom, `origin, `pos, `scrEnd, mem
      ensures Valid() && Abs() == Exec(old(Abs()), cmd)
    {
      hide CsiJ, CsiK, Repeat, Ok;
      match cmd
      case EraseDisplay(n) => EraseInDisplay(n);
      case EraseLine(n) => EraseInLine(n);
      case InsertChars(n) => Edits(CharIn, AtMost(n, cols));
      case DeleteChars(n) => Edits(CharOut, AtMost(n, cols));
      case InsertLines(n) => Edits(LineIn, AtMost(n, lines));
      case DeleteLines(n) => Edits(LineOut, AtMost(n, lines));
    }

    method Dispatch(cmd: Cmd)
      requires Valid() && (cmd.Region? ==> cmd.top < cmd.bottom <= lines)
      modifies this, mem
      ensures Valid() && Abs() == Exec(old(Abs()), cmd) && parser == old(parser)
    {
      hide PutChar, Lf, Ri, DeleteBack, TabStop, CsiJ, CsiK, Repeat, Ok, ConsoleModel.Gotoxy;
      match cmd
      case Put(c) => PutCharacter(c);
      case LineFeed => LineFeed();
      case ReverseIndex => ReverseLineFeed();
      case Delete => Delete();
      case Tab => TabForward();
      case EraseDisplay(_) => Rewrite(cmd);
      case EraseLine(_) => Rewrite(cmd);
      case InsertChars(_) => Rewrite(cmd);
      case DeleteChars(_) => Rewrite(cmd);
      case InsertLines(_) => Rewrite(cmd);
      case DeleteLines(_) => Rewrite(cmd);
      case Return => MoveCursor(cmd);
      case Back => MoveCursor(cmd);
      case Goto(_, _) => MoveCursor(cmd);
      case Restore => MoveCursor(cmd);
      case _ => SetField(cmd);
    }

    /** One round of con_write's loop. */
    method WriteByte(c: int, erase: nat)
      requires Valid()
      modifies this, mem
      ensures Valid() && Abs() == Write(old(Abs()), c, erase)
    {
      RegionFits(parser, c, erase, x, y, lines);
      hide Decode, Exec, Rows;
      var (p, cmd) := Decode(parser, c, erase, x, y, lines);
      parser := p;
      Dispatch(cmd);
    }

    /** con_write: whatever the bytes, video memory shows what the plain terminal would. */
    method ConWrite(bytes: seq<int>, erase: nat)
      requires Valid()
      modifies this, mem
      ensures Valid() && Abs() == Stream(old(Abs()), bytes, erase)
      ensures View(Abs()) == Showing(View(old(Abs())), bytes, erase)
      ensures Good(View(old(Abs()))) && Meant(View(old(Abs())), bytes, erase, View(Abs()))
    {
      StreamShows(Abs(), bytes, erase);
      ViewGood(Abs());
      ShowingMeant(View(Abs()), bytes, erase);
      hide Ok, View, Showing, Write, Meant, Good;
      assert bytes[0..] == bytes;
      var i := 0;
      while i < |bytes|
        invariant 0 <= i <= |bytes| && Valid()
        invariant Stream(Abs(), bytes[i..], erase) == Stream(old(Abs()), bytes, erase)
      {
        WriteByte(bytes[i], erase);
        assert bytes[i..][1..] == bytes[i + 1..];
        i := i + 1;
      }
      assert bytes[i..] == [];
    }
  }
}
