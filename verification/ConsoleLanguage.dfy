// What the terminal's control language means: every byte stream is plain characters and escape sequences, each
// of which does to the screen what is written down here for it, without a word about the parser's states.

module ConsoleLanguage {
  import opened ConsoleModel
  import opened ConsoleScreen
  import opened ConsoleProofs

  // ----- numerals --------------------------------------------------------------------------------

  predicate Digit(c: int) { '0' as int <= c <= '9' as int }

  predicate Numeral(ds: seq<int>) { forall i | 0 <= i < |ds| :: Digit(ds[i]) }

  /** The number that digits stand for; no digits stand for 0. */
  function Value(ds: seq<int>): nat
    requires Numeral(ds)
  {
    if ds == [] then 0 else 10 * Value(ds[..|ds| - 1]) + (ds[|ds| - 1] - '0' as int)
  }

  /** A number in decimal. */
  function Decimal(n: nat): seq<int>
    decreases n
  {
    (if n < 10 then [] else Decimal(n / 10)) + ['0' as int + n % 10]
  }

  lemma {:induction false} DecimalReadsBack(n: nat)
    ensures Numeral(Decimal(n)) && Value(Decimal(n)) == n && Decimal(n) != []
    decreases n
  {
    var front := if n < 10 then [] else Decimal(n / 10);
    if n >= 10 { DecimalReadsBack(n / 10); }
    assert Value([]) == 0;
    hide Value;
    assert Decimal(n)[..|front|] == front;
    ValueLast(Decimal(n));
  }

  lemma ValueLast(ds: seq<int>)
    requires ds != [] && Numeral(ds)
    ensures Value(ds) == 10 * Value(ds[..|ds| - 1]) + (ds[|ds| - 1] - '0' as int)
  {
  }

  // ----- tokens ----------------------------------------------------------------------------------

  /** A character, ESC and a character, or ESC [ with an optional ?, parameters between semicolons, and a final byte. */
  datatype Token = Char(c: int) | Esc(c: int) | Csi(ques: bool, params: seq<seq<int>>, final: int)

  /** Where a stream can stop: between tokens or within one. */
  datatype Open = Between | AfterEsc | InCsi(ques: bool, params: seq<seq<int>>)

  predicate Params(params: seq<seq<int>>) {
    1 <= |params| <= 16 && forall i | 0 <= i < |params| :: Numeral(params[i])
  }

  function Join(params: seq<seq<int>>): seq<int>
    requires |params| > 0
  {
    var last := |params| - 1;
    if last == 0 then params[0] else Join(params[..last]) + [';' as int] + params[last]
  }

  predicate Proper(t: Token) {
    match t
    case Char(c) => c != 27
    case Esc(c) => c != '[' as int
    case Csi(q, ps, f) =>
      Params(ps) && !Digit(f) && (f == ';' as int ==> |ps| == 16) && (f == '?' as int ==> q || Join(ps) != [])
  }

  predicate Unfinished(o: Open) { o.InCsi? ==> Params(o.params) }

  function Header(ques: bool): seq<int> {
    [27, '[' as int] + if ques then ['?' as int] else []
  }

  function Bytes(t: Token): seq<int>
    requires Proper(t)
  {
    match t
    case Char(c) => [c]
    case Esc(c) => [27, c]
    case Csi(q, ps, f) => Header(q) + Join(ps) + [f]
  }

  function OpenBytes(o: Open): seq<int>
    requires Unfinished(o)
  {
    match o
    case Between => []
    case AfterEsc => [27]
    case InCsi(q, ps) => Header(q) + Join(ps)
  }

  predicate AllProper(ts: seq<Token>) { forall i | 0 <= i < |ts| :: Proper(ts[i]) }

  function Text(ts: seq<Token>): seq<int>
    requires AllProper(ts)
  {
    if ts == [] then [] else Text(ts[..|ts| - 1]) + Bytes(ts[|ts| - 1])
  }

  lemma TextAppend(ts: seq<Token>, t: Token)
    requires AllProper(ts) && Proper(t)
    ensures AllProper(ts + [t]) && Text(ts + [t]) == Text(ts) + Bytes(t)
  {
    assert (ts + [t])[..|ts|] == ts;
  }

  lemma JoinDigit(ps: seq<seq<int>>, c: int)
    requires |ps| > 0
    ensures Join(ps[|ps| - 1 := ps[|ps| - 1] + [c]]) == Join(ps) + [c]
  {
    var n := |ps| - 1;
    var qs := ps[n := ps[n] + [c]];
    assert qs[..n] == ps[..n];
    if n > 0 { assert Join(ps[..n]) + [';' as int] + (ps[n] + [c]) == (Join(ps[..n]) + [';' as int] + ps[n]) + [c]; }
  }

  lemma JoinMore(ps: seq<seq<int>>)
    requires |ps| > 0
    ensures Join(ps + [[]]) == Join(ps) + [';' as int]
  {
    assert (ps + [[]])[..|ps|] == ps;
  }

  lemma TextOne(t: Token)
    requires Proper(t)
    ensures AllProper([t]) && Text([t]) == Bytes(t)
  {
    TextAppend([], t);
  }

  lemma NextInCsi(q: bool, ps: seq<seq<int>>, c: int) returns (ts: seq<Token>, o': Open)
    requires Params(ps)
    ensures AllProper(ts) && Unfinished(o') && Header(q) + Join(ps) + [c] == Text(ts) + OpenBytes(o') && |ts| <= 1
  {
    hide Text;
    ts, o' := [], Between;
    if Digit(c) {
      o' := InCsi(q, ps[|ps| - 1 := ps[|ps| - 1] + [c]]);
      JoinDigit(ps, c);
      TextNone(Header(q), Join(ps), c, o');
    } else if c == ';' as int && |ps| < 16 {
      o' := InCsi(q, ps + [[]]);
      JoinMore(ps);
      TextNone(Header(q), Join(ps), c, o');
    } else if c == '?' as int && !q && Join(ps) == [] {
      o' := InCsi(true, ps);
      assert Header(false) + [] + [c] == Header(true) + [];
      TextNone(Header(false), [], c, o');
    } else {
      ts := [Csi(q, ps, c)];
      TextOne(ts[0]);
      assert Text(ts) + [] == Text(ts);
    }
  }

  lemma TextNone(a: seq<int>, b: seq<int>, c: int, o: Open)
    requires Unfinished(o) && a + (b + [c]) == OpenBytes(o)
    ensures a + b + [c] == Text([]) + OpenBytes(o)
  {
    hide OpenBytes;
    assert a + b + [c] == a + (b + [c]);
  }

  /** One more byte carries on the open token or ends it. */
  lemma NextByte(o: Open, c: int) returns (ts: seq<Token>, o': Open)
    requires Unfinished(o)
    ensures AllProper(ts) && Unfinished(o') && OpenBytes(o) + [c] == Text(ts) + OpenBytes(o') && |ts| <= 1
  {
    ts, o' := [], Between;
    match o
    case Between =>
      if c == 27 { o' := AfterEsc; } else { ts := [Char(c)]; TextOne(Char(c)); }
    case AfterEsc =>
      if c == '[' as int {
        o' := InCsi(false, [[]]);
      } else {
        ts := [Esc(c)];
        TextOne(Esc(c));
      }
    case InCsi(q, ps) => ts, o' := NextInCsi(q, ps, c);
  }

  lemma {:induction false} TextConcat(a: seq<Token>, b: seq<Token>)
    requires AllProper(a) && AllProper(b)
    ensures AllProper(a + b) && Text(a + b) == Text(a) + Text(b)
    decreases |b|
  {
    hide Proper, Bytes;
    if b == [] {
      assert a + b == a;
    } else {
      var n := |b| - 1;
      TextConcat(a, b[..n]);
      TextAppend(a + b[..n], b[n]);
      assert a + b[..n] + [b[n]] == a + b;
    }
  }

  lemma Regroup(a: seq<int>, b: seq<int>, c: int, d: seq<int>, e: seq<int>)
    requires b + [c] == d + e
    ensures a + b + [c] == a + d + e
  {
    assert a + b + [c] == a + (b + [c]);
  }

  /** Every stream of bytes is tokens and the beginning of one more. */
  lemma {:induction false} EveryStream(bytes: seq<int>) returns (ts: seq<Token>, o: Open)
    ensures AllProper(ts) && Unfinished(o) && bytes == Text(ts) + OpenBytes(o)
    decreases |bytes|
  {
    if bytes == [] { return [], Between; }
    hide Proper, Bytes, Text, OpenBytes, Unfinished;
    var n := |bytes| - 1;
    var us, p := EveryStream(bytes[..n]);
    var vs, q := NextByte(p, bytes[n]);
    TextConcat(us, vs);
    ts, o := us + vs, q;
    Regroup(Text(us), OpenBytes(p), bytes[n], Text(vs), OpenBytes(q));
    assert bytes[..n] + [bytes[n]] == bytes;
  }

  // ----- what they mean ----------------------------------------------------------------------------

  /** Addresses are unsigned 32-bit words. */
  function Word(v: int): nat { v % 0x1_0000_0000 }

  /** The cursor goes to an address on the screen, the column after the last one included; others are ignored. */
  function Place(c: Screen, x: nat, y: nat): (d: Screen)
    requires Good(c)
    ensures Good(d)
  {
    if x <= c.cols && y < c.lines then c.(x := x, y := y) else c
  }

  function Character(c: Screen, ch: int, erase: nat): (d: Screen)
    requires Good(c)
    ensures Good(d)
  {
    if ' ' as int <= ch <= '~' as int then Type(c, ch)
    else if 10 <= ch <= 12 then NextLine(c)
    else if ch == 13 then c.(x := 0)
    else if ch == erase then if c.x > 0 then SetRow(c, c.rows[c.y][c.x - 1 := ERASE]).(x := c.x - 1) else c
    else if ch == 8 then if c.x > 0 then c.(x := c.x - 1) else c
    else if ch == 9 then TabTo(c)
    else c
  }

  /** After ESC; 7 and 8 do nothing of their own, see ConsoleProofs.SavingDependsOnTheColumn. */
  function Escaped(c: Screen, ch: int): (d: Screen)
    requires Good(c)
    ensures Good(d)
  {
    if ch == 'D' as int then NextLine(c)
    else if ch == 'E' as int then Place(c, 0, Word(c.y + 1))
    else if ch == 'M' as int then PriorLine(c)
    else if ch == 'Z' as int then c
    else if c.x == 55 then c.(savedX := c.x, savedY := c.y)
    else if c.x == 56 then c.(x := c.savedX, y := c.savedY)
    else c
  }

  /** The last parameter that names an attribute counts: 0 and 27 normal, 1 and 4 bold, 7 reverse. */
  function Colour(attr: nat, v: seq<nat>): nat {
    if v == [] then attr
    else
      match v[|v| - 1]
      case 0 => 0x07
      case 1 => 0x0f
      case 4 => 0x0f
      case 7 => 0x70
      case 27 => 0x07
      case _ => Colour(attr, v[..|v| - 1])
  }

  /** After ESC [ and parameters: counts of 0 are counts of 1, and lines and columns are numbered from 1. */
  function Control(c: Screen, f: int, v: seq<nat>): (d: Screen)
    requires Good(c) && |v| > 0
    ensures Good(d)
  {
    var n, m := v[0], if |v| > 1 then v[1] else 0;
    var count := if n == 0 then 1 else n;
    var first, second := if n == 0 then 0 else n - 1, if m == 0 then 0 else m - 1;
    var chars, lines := if count < c.cols then count else c.cols, if count < c.lines then count else c.lines;
    if f == '@' as int then Times(c, CharIn, chars)
    else if f == 'A' as int then Place(c, c.x, Word(c.y - count))
    else if f == 'B' as int || f == 'e' as int then Place(c, c.x, Word(c.y + count))
    else if f == 'C' as int || f == 'a' as int then Place(c, Word(c.x + count), c.y)
    else if f == 'D' as int then Place(c, Word(c.x - count), c.y)
    else if f == 'E' as int then Place(c, 0, Word(c.y + count))
    else if f == 'F' as int then Place(c, 0, Word(c.y - count))
    else if f == 'G' as int || f == '`' as int then Place(c, first, c.y)
    else if f == 'H' as int || f == 'f' as int then Place(c, second, first)
    else if f == 'J' as int then EraseRows(c, n)
    else if f == 'K' as int then EraseCells(c, n)
    else if f == 'L' as int then Times(c, LineIn, lines)
    else if f == 'M' as int then Times(c, LineOut, lines)
    else if f == 'P' as int then Times(c, CharOut, chars)
    else if f == 'd' as int then Place(c, c.x, first)
    else if f == 'm' as int then c.(attr := Colour(c.attr, v))
    else if f == 'r' as int then
      var end := if m == 0 then c.lines else m;
      if first < end <= c.lines then c.(top := first, bottom := end) else c
    else if f == 's' as int then c.(savedX := c.x, savedY := c.y)
    else if f == 'u' as int then c.(x := c.savedX, y := c.savedY)
    else c
  }

  /** The parameters as 32-bit words. */
  function Values(params: seq<seq<int>>): (v: seq<nat>)
    requires Params(params)
    ensures |v| == |params|
  {
    seq(|params|, (i: nat) requires i < |params| => Value(params[i]) % 0x1_0000_0000)
  }

  function Does(c: Screen, t: Token, erase: nat): (d: Screen)
    requires Good(c) && Proper(t)
    ensures Good(d)
  {
    match t
    case Char(ch) => Character(c, ch, erase)
    case Esc(ch) => Escaped(c, ch)
    case Csi(_, ps, f) => Control(c, f, Values(ps))
  }

  function DoAll(c: Screen, ts: seq<Token>, erase: nat): (d: Screen)
    requires Good(c) && AllProper(ts)
    ensures Good(d)
  {
    if ts == [] then c else Does(DoAll(c, ts[..|ts| - 1], erase), ts[|ts| - 1], erase)
  }

  // ----- the parser reads it so ----------------------------------------------------------------------

  function Zeros(n: nat): (v: seq<nat>)
    ensures |v| == n
  {
    seq(n, _ => 0)
  }

  /** The screen without what the parser remembers. */
  function Bare(c: Screen): (d: Screen)
    ensures Good(c) ==> Good(d)
  {
    c.(parser := Parser(0, 0, Zeros(16), false))
  }

  lemma {:induction false} ShowingConcat(c: Screen, a: seq<int>, b: seq<int>, erase: nat)
    requires Good(c)
    ensures Good(Showing(c, a, erase)) && Showing(c, a + b, erase) == Showing(Showing(c, a, erase), b, erase)
    decreases |a|
  {
    hide Show;
    if a == [] {
      assert a + b == b;
    } else {
      assert (a + b)[1..] == a[1..] + b;
      ShowingConcat(Show(c, a[0], erase), a[1..], b, erase);
    }
  }

  lemma ShowingOne(c: Screen, ch: int, erase: nat)
    requires Good(c)
    ensures Showing(c, [ch], erase) == Show(c, ch, erase)
  {
    hide Show;
    assert [ch][1..] == [];
    assert Showing(Show(c, ch, erase), [], erase) == Show(c, ch, erase);
  }

  lemma ShowingLast(c: Screen, a: seq<int>, ch: int, erase: nat)
    requires Good(c)
    ensures Good(Showing(c, a, erase)) && Showing(c, a + [ch], erase) == Show(Showing(c, a, erase), ch, erase)
  {
    hide Show, Showing;
    ShowingConcat(c, a, [ch], erase);
    ShowingOne(Showing(c, a, erase), ch, erase);
  }

  lemma WrapDigit(v: nat, d: nat)
    ensures Wrap(10 * (v % WORD) + d) == (10 * v + d) % WORD
  {
    var q := v / WORD;
    assert v == q * WORD + v % WORD;
    assert 10 * v + d == (10 * (v % WORD) + d) + (10 * q) * WORD;
    SameMod(10 * (v % WORD) + d, 10 * q);
  }

  lemma {:induction false} SameMod(a: nat, k: nat)
    ensures (a + k * WORD) % WORD == a % WORD
    decreases k
  {
    if k > 0 {
      SameMod(a, k - 1);
      assert a + k * WORD == (a + (k - 1) * WORD) + WORD;
    }
  }

  /** A digit, read where a parameter stands. */
  lemma {:induction false} ShowDigit(c: Screen, d: int, erase: nat)
    requires Good(c) && c.parser.state == 3 && Digit(d)
    ensures var p := c.parser; Show(c, d, erase) == c.(parser := p.(par := p.par[p.npar := Wrap(10 * p.par[p.npar] + d - '0' as int)]))
  {
    hide Wrap;
  }

  lemma {:induction false} ShowNumeral(c: Screen, ds: seq<int>, erase: nat)
    requires Good(c) && c.parser.state == 3 && c.parser.par[c.parser.npar] == 0 && Numeral(ds)
    ensures var p := c.parser; Showing(c, ds, erase) == c.(parser := p.(par := p.par[p.npar := Value(ds) % WORD]))
    decreases |ds|
  {
    var p := c.parser;
    if ds == [] {
      assert p.par[p.npar := 0] == p.par;
    } else {
      var n := |ds| - 1;
      ShowNumeral(c, ds[..n], erase);
      assert ds[..n] + [ds[n]] == ds;
      hide Show, Showing, Value, Wrap;
      ShowingLast(c, ds[..n], ds[n], erase);
      var e := Showing(c, ds[..n], erase);
      ShowDigit(e, ds[n], erase);
      var v := Value(ds[..n]);
      WrapDigit(v, ds[n] - '0' as int);
      ValueLast(ds);
      assert p.par[p.npar := v % WORD][p.npar := Value(ds) % WORD] == p.par[p.npar := Value(ds) % WORD];
    }
  }

  // ----- parameters ----------------------------------------------------------------------------------

  /** The parser after the parameters: their values, and zeros. */
  function Read(ques: bool, params: seq<seq<int>>): (p: Parser)
    requires Params(params)
    ensures WellFormed(p)
  {
    Parser(3, |params| - 1, Values(params) + Zeros(16 - |params|), ques)
  }

  /** One more numeral where Read left off. */
  lemma ReadOne(ques: bool, params: seq<seq<int>>)
    requires Params(params)
    ensures var n := |params| - 1; var before := if n == 0 then Zeros(16) else Values(params[..n]) + Zeros(16 - n);
      before[n] == 0 && Read(ques, params).par == before[n := Value(params[n]) % WORD]
  {
    var n := |params| - 1;
    var before := if n == 0 then Zeros(16) else Values(params[..n]) + Zeros(16 - n);
    hide Value;
    assert Read(ques, params).par == before[n := Value(params[n]) % WORD];
  }

  lemma ShowSeparator(c: Screen, erase: nat)
    requires Good(c) && c.parser.state == 3 && c.parser.npar < 15
    ensures Show(c, ';' as int, erase) == c.(parser := c.parser.(npar := c.parser.npar + 1))
  {
  }

  lemma {:induction false} ShowParams(c: Screen, ques: bool, ps: seq<seq<int>>, erase: nat)
    requires Good(c) && c.parser == Parser(3, 0, Zeros(16), ques) && Params(ps)
    ensures Showing(c, Join(ps), erase) == c.(parser := Read(ques, ps))
    decreases |ps|
  {
    var n := |ps| - 1;
    ReadOne(ques, ps);
    if n == 0 {
      ShowNumeral(c, ps[0], erase);
    } else {
      ShowParams(c, ques, ps[..n], erase);
      hide Show, Showing, Value, Wrap;
      var d := c.(parser := Read(ques, ps[..n]));
      ShowSeparator(d, erase);
      ShowingLast(c, Join(ps[..n]), ';' as int, erase);
      var e := Show(d, ';' as int, erase);
      ShowNumeral(e, ps[n], erase);
      ShowingConcat(c, Join(ps[..n]) + [';' as int], ps[n], erase);
    }
  }

  // ----- commands --------------------------------------------------------------------------------------

  lemma {:induction false} TimesBare(c: Screen, e: Edit, n: nat)
    requires Good(c)
    ensures Bare(Times(c, e, n)) == Times(Bare(c), e, n) && Times(c, e, n).parser == c.parser
    decreases n
  {
    if n > 0 {
      OnceBare(c, e);
      hide Once, Bare;
      TimesBare(Once(c, e), e, n - 1);
    }
  }

  lemma OnceBare(c: Screen, e: Edit)
    requires Good(c)
    ensures Bare(Once(c, e)) == Once(Bare(c), e) && Once(c, e).parser == c.parser
  {
    hide Up, Down, Zeros;
  }

  lemma EditsBare(c: Screen, cmd: Cmd)
    requires Good(c) && (cmd.InsertChars? || cmd.DeleteChars? || cmd.InsertLines? || cmd.DeleteLines?)
    ensures Bare(Perform(c, cmd)) == Perform(Bare(c), cmd) && Perform(c, cmd).parser == c.parser
  {
    hide Times, Once;
    match cmd
    case InsertChars(n) => TimesBare(c, CharIn, AtMost(n, c.cols));
    case DeleteChars(n) => TimesBare(c, CharOut, AtMost(n, c.cols));
    case InsertLines(n) => TimesBare(c, LineIn, AtMost(n, c.lines));
    case DeleteLines(n) => TimesBare(c, LineOut, AtMost(n, c.lines));
  }

  lemma TypingBare(c: Screen, cmd: Cmd)
    requires Good(c) && (cmd.Put? || cmd.LineFeed? || cmd.ReverseIndex? || cmd.Tab? || cmd.Delete?)
    ensures Bare(Perform(c, cmd)) == Perform(Bare(c), cmd) && Perform(c, cmd).parser == c.parser
  {
    hide Up, Down, Blank, ToStop, Zeros;
    match cmd
    case Put(_) =>
    case LineFeed =>
    case ReverseIndex =>
    case Tab =>
    case Delete =>
  }

  lemma OthersBare(c: Screen, cmd: Cmd)
    requires Good(c) && (cmd.Region? ==> cmd.top < cmd.bottom <= c.lines)
    requires !(cmd.Put? || cmd.LineFeed? || cmd.ReverseIndex? || cmd.Tab? || cmd.Delete?)
    requires !(cmd.InsertChars? || cmd.DeleteChars? || cmd.InsertLines? || cmd.DeleteLines?)
    ensures Bare(Perform(c, cmd)) == Perform(Bare(c), cmd) && Perform(c, cmd).parser == c.parser
  {
    hide Blank, Zeros, Attr;
  }

  /** No command looks at the parser. */
  lemma PerformBare(c: Screen, cmd: Cmd)
    requires Good(c) && (cmd.Region? ==> cmd.top < cmd.bottom <= c.lines)
    ensures Bare(Perform(c, cmd)) == Perform(Bare(c), cmd) && Perform(c, cmd).parser == c.parser
  {
    hide Perform, Bare;
    if cmd.Put? || cmd.LineFeed? || cmd.ReverseIndex? || cmd.Tab? || cmd.Delete? {
      TypingBare(c, cmd);
    } else if cmd.InsertChars? || cmd.DeleteChars? || cmd.InsertLines? || cmd.DeleteLines? {
      EditsBare(c, cmd);
    } else {
      OthersBare(c, cmd);
    }
  }

  lemma AttrFirst(attr: nat, v: seq<nat>)
    requires v != []
    ensures Attr(attr, v) == Attr(Attr(attr, [v[0]]), v[1..])
  {
    assert [v[0]][1..] == [];
  }

  lemma {:induction false} AttrLast(attr: nat, u: seq<nat>, k: nat)
    ensures Attr(attr, u + [k]) == Attr(Attr(attr, u), [k])
    decreases |u|
  {
    if u == [] {
      assert u + [k] == [k];
    } else {
      assert (u + [k])[1..] == u[1..] + [k] && (u + [k])[0] == u[0];
      AttrFirst(attr, u);
      AttrFirst(attr, u + [k]);
      AttrLast(Attr(attr, [u[0]]), u[1..], k);
    }
  }

  /** csi_m, one parameter after the other, ends in the attribute that the last one names. */
  lemma {:induction false} AttrColour(attr: nat, v: seq<nat>)
    ensures Attr(attr, v) == Colour(attr, v)
    decreases |v|
  {
    if v != [] {
      var n := |v| - 1;
      AttrColour(attr, v[..n]);
      AttrLast(attr, v[..n], v[n]);
      assert v == v[..n] + [v[n]];
    }
  }

  predicate Steps(f: int) { 'A' as int <= f <= 'F' as int || f == 'a' as int || f == 'e' as int }

  predicate Addresses(f: int) { f in {'G' as int, 'H' as int, '`' as int, 'd' as int, 'f' as int} }

  lemma FirstTwo(par: seq<nat>, v: seq<nat>)
    requires 0 < |v| <= 16 && par == v + Zeros(16 - |v|)
    ensures par[0] == v[0] && par[1] == if |v| > 1 then v[1] else 0
  {
  }

  lemma FinalSteps(c: Screen, p: Parser, f: int, v: seq<nat>)
    requires Good(c) && WellFormed(p) && |v| == p.npar + 1 && p.par == v + Zeros(16 - |v|) && Steps(f)
    ensures var cmd := Final(p, f, c.x, c.y, c.lines); !cmd.Region? && Perform(c, cmd) == Control(c, f, v)
  {
    FirstTwo(p.par, v);
    assert forall x: int :: Wrap(x) == Word(x);
    hide Times, EraseRows, EraseCells, Attr, Colour, Zeros, Wrap, Word;
  }

  lemma FinalAddresses(c: Screen, p: Parser, f: int, v: seq<nat>)
    requires Good(c) && WellFormed(p) && |v| == p.npar + 1 && p.par == v + Zeros(16 - |v|) && Addresses(f)
    ensures var cmd := Final(p, f, c.x, c.y, c.lines); !cmd.Region? && Perform(c, cmd) == Control(c, f, v)
  {
    FirstTwo(p.par, v);
    hide Times, EraseRows, EraseCells, Attr, Colour, Zeros, Wrap, Word;
  }

  lemma {:induction false} FinalEdits(c: Screen, p: Parser, f: int, v: seq<nat>)
    requires Good(c) && WellFormed(p) && |v| == p.npar + 1 && p.par == v + Zeros(16 - |v|) && !Steps(f) && !Addresses(f) && f != 'm' as int
    ensures var cmd := Final(p, f, c.x, c.y, c.lines);
      (cmd.Region? ==> cmd.top < cmd.bottom <= c.lines) && Perform(c, cmd) == Control(c, f, v)
  {
    FirstTwo(p.par, v);
    hide Times, EraseRows, EraseCells, Attr, Colour, Zeros, Wrap, Word;
  }

  /** The final byte of a sequence, with its parameters read. */
  lemma {:induction false} FinalMeans(c: Screen, p: Parser, f: int, v: seq<nat>)
    requires Good(c) && WellFormed(p) && |v| == p.npar + 1 && p.par == v + Zeros(16 - |v|)
    ensures var cmd := Final(p, f, c.x, c.y, c.lines);
      (cmd.Region? ==> cmd.top < cmd.bottom <= c.lines) && Perform(c, cmd) == Control(c, f, v)
  {
    if Steps(f) {
      FinalSteps(c, p, f, v);
    } else if Addresses(f) {
      FinalAddresses(c, p, f, v);
    } else if f == 'm' as int {
      assert p.par[..p.npar + 1] == v;
      AttrColour(c.attr, v);
    } else {
      FinalEdits(c, p, f, v);
    }
  }

  // ----- tokens on the screen ----------------------------------------------------------------------------

  lemma ShowChar(c: Screen, ch: int, erase: nat)
    requires Good(c) && c.parser.state == 0 && ch != 27
    ensures var d := Show(c, ch, erase); Bare(d) == Character(Bare(c), ch, erase) && d.parser.state == 0
  {
    var cmd := Plain(c.parser, ch, erase).1;
    PerformBare(c, cmd);
    hide Type, NextLine, TabTo, SetRow;
  }

  lemma ShowEscape(c: Screen, erase: nat)
    requires Good(c) && c.parser.state == 0
    ensures Show(c, 27, erase) == c.(parser := c.parser.(state := 1))
  {
  }

  lemma ShowEscaped(c: Screen, ch: int, erase: nat)
    requires Good(c) && c.parser.state == 1 && ch != '[' as int
    ensures var d := Show(c, ch, erase); Bare(d) == Escaped(Bare(c), ch) && d.parser.state == 0
  {
    var (p, cmd) := Escape(c.parser, ch, c.x, c.y);
    PerformBare(c.(parser := p), cmd);
    hide NextLine, PriorLine;
  }

  lemma ShowBracket(c: Screen, erase: nat)
    requires Good(c) && c.parser.state == 1
    ensures Show(c, '[' as int, erase) == c.(parser := c.parser.(state := 2))
  {
  }

  /** After ESC [ the parser starts afresh, with the first byte read as a question mark or as a parameter. */
  lemma ShowFirst(c: Screen, ch: int, erase: nat)
    requires Good(c) && c.parser.state == 2
    ensures Show(c, ch, erase) ==
      if ch == '?' as int then c.(parser := Parser(3, 0, Zeros(16), true)) else Show(c.(parser := Parser(3, 0, Zeros(16), false)), ch, erase)
  {
    hide Parameter;
    RegionFits(c.parser, ch, erase, c.x, c.y, c.lines);
    assert Zeros(16) == seq(NPAR, _ => 0);
  }

  lemma {:induction false} ShowFinal(c: Screen, f: int, v: seq<nat>, erase: nat)
    requires Good(c) && c.parser.state == 3 && |v| == c.parser.npar + 1 && c.parser.par == v + Zeros(16 - |v|)
    requires !Digit(f) && (f == ';' as int ==> c.parser.npar == 15)
    ensures var d := Show(c, f, erase); Bare(d) == Control(Bare(c), f, v) && d.parser.state == 0
  {
    hide Control, Perform, Final;
    var p := c.parser.(state := 0);
    FinalMeans(Bare(c), c.parser, f, v);
    PerformBare(c.(parser := p), Final(c.parser, f, c.x, c.y, c.lines));
  }

  lemma HeaderShows(c: Screen, ques: bool, erase: nat)
    requires Good(c) && c.parser.state == 0
    ensures Showing(c, Header(ques), erase) == c.(parser := if ques then Parser(3, 0, Zeros(16), true) else c.parser.(state := 2))
  {
    hide Show, Showing;
    ShowingOne(c, 27, erase);
    ShowEscape(c, erase);
    ShowingLast(c, [27], '[' as int, erase);
    var d := c.(parser := c.parser.(state := 1));
    ShowBracket(d, erase);
    assert [27] + ['[' as int] == Header(false);
    if ques {
      ShowingLast(c, Header(false), '?' as int, erase);
      ShowFirst(c.(parser := c.parser.(state := 2)), '?' as int, erase);
      assert Header(false) + ['?' as int] == Header(true);
    }
  }

  /** The rest of a sequence is read by a parser that starts afresh. */
  lemma RestShows(c: Screen, ques: bool, rest: seq<int>, erase: nat)
    requires Good(c) && c.parser.state == 0 && rest != [] && (rest[0] == '?' as int ==> ques)
    ensures Showing(c, Header(ques) + rest, erase) == Showing(c.(parser := Parser(3, 0, Zeros(16), ques)), rest, erase)
  {
    HeaderShows(c, ques, erase);
    ShowingConcat(c, Header(ques), rest, erase);
    if !ques { ShowFirst(c.(parser := c.parser.(state := 2)), rest[0], erase); }
    hide Show;
  }

  lemma {:induction false} JoinStarts(ps: seq<seq<int>>)
    requires Params(ps) && Join(ps) != []
    ensures Join(ps)[0] != '?' as int
    decreases |ps|
  {
    var n := |ps| - 1;
    if n > 0 && Join(ps[..n]) != [] { JoinStarts(ps[..n]); }
  }

  lemma CsiShows(c: Screen, ques: bool, ps: seq<seq<int>>, f: int, erase: nat)
    requires Good(c) && c.parser.state == 0 && Proper(Csi(ques, ps, f))
    ensures var d := Showing(c, Header(ques) + Join(ps) + [f], erase);
      Good(d) && Bare(d) == Control(Bare(c), f, Values(ps)) && d.parser.state == 0
  {
    var rest := Join(ps) + [f];
    if Join(ps) != [] { JoinStarts(ps); }
    assert Header(ques) + Join(ps) + [f] == Header(ques) + rest;
    hide Show, Showing, Control, Header, Join, Values;
    RestShows(c, ques, rest, erase);
    var a := c.(parser := Parser(3, 0, Zeros(16), ques));
    ShowParams(a, ques, ps, erase);
    var b := c.(parser := Read(ques, ps));
    ShowingLast(a, Join(ps), f, erase);
    ShowFinal(b, f, Values(ps), erase);
  }

  lemma TokenShows(c: Screen, t: Token, erase: nat)
    requires Good(c) && c.parser.state == 0 && Proper(t)
    ensures var d := Showing(c, Bytes(t), erase); Good(d) && Bare(d) == Does(Bare(c), t, erase) && d.parser.state == 0
  {
    hide Show, Showing, Character, Escaped, Control, Proper;
    match t
    case Char(ch) => ProperChar(ch); ShowingOne(c, ch, erase); ShowChar(c, ch, erase);
    case Esc(ch) =>
      ProperEsc(ch);
      ShowingOne(c, 27, erase);
      ShowEscape(c, erase);
      ShowingLast(c, [27], ch, erase);
      assert [27] + [ch] == [27, ch];
      ShowEscaped(c.(parser := c.parser.(state := 1)), ch, erase);
    case Csi(q, ps, f) => CsiShows(c, q, ps, f, erase);
  }

  lemma ProperChar(ch: int)
    requires Proper(Char(ch))
    ensures ch != 27
  {
  }

  lemma ProperEsc(ch: int)
    requires Proper(Esc(ch))
    ensures ch != '[' as int
  {
  }

  /** The beginning of a token shows nothing yet. */
  lemma OpenShows(c: Screen, o: Open, erase: nat)
    requires Good(c) && c.parser.state == 0 && Unfinished(o)
    ensures Bare(Showing(c, OpenBytes(o), erase)) == Bare(c)
  {
    match o
    case Between =>
    case AfterEsc =>
      ShowingOne(c, 27, erase);
      ShowEscape(c, erase);
    case InCsi(q, ps) =>
      HeaderShows(c, q, erase);
      if Join(ps) == [] {
        assert Header(q) + [] == Header(q);
      } else {
        JoinStarts(ps);
        hide Show, Showing, Header, Join, Read;
        RestShows(c, q, Join(ps), erase);
        ShowParams(c.(parser := Parser(3, 0, Zeros(16), q)), q, ps, erase);
      }
  }

  /** A stream does to the screen what its tokens do, one after the other. */
  lemma {:induction false} TextShows(c: Screen, ts: seq<Token>, erase: nat)
    requires Good(c) && c.parser.state == 0 && AllProper(ts)
    ensures var d := Showing(c, Text(ts), erase); Good(d) && Bare(d) == DoAll(Bare(c), ts, erase) && d.parser.state == 0
    decreases |ts|
  {
    if ts != [] {
      var n := |ts| - 1;
      TextShows(c, ts[..n], erase);
      hide Showing, Does, Bytes, Proper;
      ShowingConcat(c, Text(ts[..n]), Bytes(ts[n]), erase);
      TokenShows(Showing(c, Text(ts[..n]), erase), ts[n], erase);
    }
  }

  lemma StreamMeans(c: Screen, ts: seq<Token>, o: Open, erase: nat)
    requires Good(c) && c.parser.state == 0 && AllProper(ts) && Unfinished(o)
    ensures Bare(Showing(c, Text(ts) + OpenBytes(o), erase)) == DoAll(Bare(c), ts, erase)
  {
    hide Showing, DoAll, Text, OpenBytes, Unfinished, Proper;
    TextShows(c, ts, erase);
    ShowingConcat(c, Text(ts), OpenBytes(o), erase);
    OpenShows(Showing(c, Text(ts), erase), o, erase);
  }

  /** From screen c the stream leads to screen d, however it is read as tokens. */
  ghost predicate Meant(c: Screen, bytes: seq<int>, erase: nat, d: Screen)
    requires Good(c)
  {
    c.parser.state == 0 ==>
      forall ts, o | AllProper(ts) && Unfinished(o) && bytes == Text(ts) + OpenBytes(o) :: Bare(d) == DoAll(Bare(c), ts, erase)
  }

  lemma ShowingMeant(c: Screen, bytes: seq<int>, erase: nat)
    requires Good(c)
    ensures Meant(c, bytes, erase, Showing(c, bytes, erase))
  {
    hide Showing, DoAll, Text, OpenBytes, Unfinished, AllProper, Good, Bare;
    if c.parser.state == 0 {
      forall ts, o | AllProper(ts) && Unfinished(o) && bytes == Text(ts) + OpenBytes(o)
        ensures Bare(Showing(c, bytes, erase)) == DoAll(Bare(c), ts, erase)
      {
        StreamMeans(c, ts, o, erase);
      }
    }
  }

  /** Every byte stream that con_write takes, from the state between sequences on, is tokens and perhaps the
      beginning of one more, and it leaves video memory showing what the tokens mean. */
  lemma EveryStreamMeans(s: Con, bytes: seq<int>, erase: nat) returns (ts: seq<Token>, o: Open)
    requires Ok(s) && s.parser.state == 0
    ensures AllProper(ts) && Unfinished(o) && bytes == Text(ts) + OpenBytes(o)
    ensures Bare(View(Stream(s, bytes, erase))) == DoAll(Bare(View(s)), ts, erase)
  {
    ts, o := EveryStream(bytes);
    assert Good(View(s)) by { ViewGood(s); }
    hide Stream, DoAll, Text, OpenBytes, Unfinished, Proper;
    StreamShows(s, bytes, erase);
    StreamMeans(View(s), ts, o, erase);
  }

  lemma ViewGood(s: Con)
    requires Ok(s)
    ensures Good(View(s)) && View(s).parser == s.parser
  {
  }

  // ----- moving the cursor by number ---------------------------------------------------------------------

  /** The screen after ESC [, a number in decimal and a final byte. */
  function Keyed(c: Screen, n: nat, f: int, erase: nat): Screen
    requires Good(c)
  {
    Bare(Showing(c, [27, '[' as int] + Decimal(n) + [f], erase))
  }

  lemma OneNumeral(ds: seq<int>)
    requires Numeral(ds)
    ensures Params([ds]) && Join([ds]) == ds && Values([ds]) == [Value(ds) % 0x1_0000_0000]
  {
    hide Value, Numeral;
  }

  lemma {:induction false} DecimalToken(n: nat, f: int)
    requires !Digit(f) && f != ';' as int && n < 0x1_0000_0000
    ensures var t := Csi(false, [Decimal(n)], f);
      Proper(t) && Bytes(t) == [27, '[' as int] + Decimal(n) + [f] && Values([Decimal(n)]) == [n]
  {
    hide Decimal, Value, Values, Join, Params, Numeral;
    DecimalReadsBack(n);
    OneNumeral(Decimal(n));
  }

  lemma {:induction false} KeyShows(c: Screen, n: nat, f: int, erase: nat)
    requires Good(c) && c.parser.state == 0 && !Digit(f) && f != ';' as int && n < 0x1_0000_0000
    ensures Keyed(c, n, f, erase) == Control(Bare(c), f, [n])
  {
    DecimalToken(n, f);
    assert Good(Bare(c));
    hide Show, Showing, Control, Decimal, Proper, Bytes, Values, Good, Bare;
    TokenShows(c, Csi(false, [Decimal(n)], f), erase);
  }

  lemma NearWord(y: nat, k: nat, most: nat)
    requires y <= most && k + most < 0x1_0000_0000
    ensures Word(y + k) == y + k
    ensures if k <= y then Word(y - k) == y - k else Word(y - k) > most
  {
  }

  lemma {:induction false} MovesRows(c: Screen, n: nat)
    requires Good(c) && n + c.lines < 0xffff_ffff
    ensures var k := if n == 0 then 1 else n;
      Control(c, 'A' as int, [n]) == (if k <= c.y then c.(y := c.y - k) else c) &&
      Control(c, 'B' as int, [n]) == (if c.y + k < c.lines then c.(y := c.y + k) else c)
  {
    NearWord(c.y, if n == 0 then 1 else n, c.lines);
    hide Word, Times, EraseRows, EraseCells, Colour;
  }

  lemma {:induction false} MovesColumns(c: Screen, n: nat)
    requires Good(c) && n + c.cols < 0xffff_ffff
    ensures var k := if n == 0 then 1 else n;
      Control(c, 'C' as int, [n]) == (if c.x + k <= c.cols then c.(x := c.x + k) else c) &&
      Control(c, 'D' as int, [n]) == (if k <= c.x then c.(x := c.x - k) else c)
  {
    NearWord(c.x, if n == 0 then 1 else n, c.cols);
    hide Word, Times, EraseRows, EraseCells, Colour;
  }

  /** ESC [ n A, B, C, D: the cursor goes n rows up or down, or n columns right or left, 0 counting as 1; where
      that is off the screen it stays. */
  lemma {:induction false} CursorKeys(c: Screen, n: nat, erase: nat)
    requires Good(c) && c.parser.state == 0 && n + c.lines < 0xffff_ffff && n + c.cols < 0xffff_ffff
    ensures var k, b := if n == 0 then 1 else n, Bare(c);
      Keyed(c, n, 'A' as int, erase) == (if k <= c.y then b.(y := c.y - k) else b) &&
      Keyed(c, n, 'B' as int, erase) == (if c.y + k < c.lines then b.(y := c.y + k) else b) &&
      Keyed(c, n, 'C' as int, erase) == (if c.x + k <= c.cols then b.(x := c.x + k) else b) &&
      Keyed(c, n, 'D' as int, erase) == (if k <= c.x then b.(x := c.x - k) else b)
  {
    hide Keyed, Control;
    KeyShows(c, n, 'A' as int, erase);
    KeyShows(c, n, 'B' as int, erase);
    KeyShows(c, n, 'C' as int, erase);
    KeyShows(c, n, 'D' as int, erase);
    MovesRows(Bare(c), n);
    MovesColumns(Bare(c), n);
  }
}
