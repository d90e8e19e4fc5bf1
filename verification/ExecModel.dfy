// The argument and environment strings of execve: strings packed into bytes, 32-bit words in memory,
// the tables a new program reads, and the #! line.

module ExecModel {
  import opened Common

  const PAGE_SIZE: nat := 4096
  const MAX_ARG_PAGES: nat := 32
  const AREA: nat := 131072

  type Str = seq<Byte>

  predicate IsString(s: Str) { forall i | 0 <= i < |s| :: s[i] != 0 }

  predicate Strings(v: seq<Str>) { forall i | 0 <= i < |v| :: IsString(v[i]) }

  /** The strings one after the other, each with its zero. */
  function Joined(v: seq<Str>): (r: seq<Byte>)
    ensures |r| >= |v|
  {
    if v == [] then [] else v[0] + [0] + Joined(v[1..])
  }

  lemma {:induction false} JoinedBoth(u: seq<Str>, v: seq<Str>)
    ensures Joined(u + v) == Joined(u) + Joined(v)
    decreases |u|
  {
    if u == [] {
      assert u + v == v;
    } else {
      JoinedBoth(u[1..], v);
      assert (u + v)[1..] == u[1..] + v;
    }
  }

  lemma JoinedOne(s: Str)
    ensures Joined([s]) == s + [0]
  {
    assert [s][1..] == [];
  }

  // ----- words -----------------------------------------------------------------------------

  function Word(m: seq<Byte>, a: nat): nat
    requires a + 4 <= |m|
  {
    var b0: nat, b1: nat, b2: nat, b3: nat := m[a], m[a + 1], m[a + 2], m[a + 3];
    b0 + 256 * b1 + 65536 * b2 + 16777216 * b3
  }

  function SetWord(m: seq<Byte>, a: nat, v: nat): (r: seq<Byte>)
    requires a + 4 <= |m| && v < 0x1_0000_0000
    ensures |r| == |m|
  {
    m[a := v % 256][a + 1 := v / 256 % 256][a + 2 := v / 65536 % 256][a + 3 := v / 16777216]
  }

  /** Entry j of a table of words. */
  function EntryAt(m: seq<Byte>, table: nat, j: nat): nat
    requires table + 4 * (j + 1) <= |m|
  {
    Word(m, table + 4 * j)
  }

  lemma Digits(v: nat)
    requires v < 0x1_0000_0000
    ensures v % 256 + 256 * (v / 256 % 256) + 65536 * (v / 65536 % 256) + 16777216 * (v / 16777216) == v
  {
    assert v / 65536 == v / 256 / 256 && v / 16777216 == v / 65536 / 256;
  }

  lemma WordSet(m: seq<Byte>, a: nat, v: nat)
    requires a + 4 <= |m| && v < 0x1_0000_0000
    ensures Word(SetWord(m, a, v), a) == v
    ensures forall b | 0 <= b < |m| && !(a <= b < a + 4) :: SetWord(m, a, v)[b] == m[b]
  {
    Digits(v);
    var r := SetWord(m, a, v);
    assert r[a] == v % 256 && r[a + 1] == v / 256 % 256 && r[a + 2] == v / 65536 % 256 && r[a + 3] == v / 16777216;
  }

  lemma WordKept(m: seq<Byte>, m': seq<Byte>, a: nat)
    requires a + 4 <= |m| == |m'| && forall b | a <= b < a + 4 :: m'[b] == m[b]
    ensures Word(m', a) == Word(m, a)
  {
  }

  // ----- what a new program reads -------------------------------------------------------------

  /** The string at an address, up to its zero. */
  function CString(m: seq<Byte>, a: nat): Str
    decreases |m| - a
  {
    if a >= |m| || m[a] == 0 then [] else [m[a]] + CString(m, a + 1)
  }

  /** The strings that a table of pointers names, up to its null pointer. */
  function Table(m: seq<Byte>, a: nat): seq<Str>
    decreases |m| - a
  {
    if a + 4 > |m| || Word(m, a) == 0 then [] else [CString(m, Word(m, a))] + Table(m, a + 4)
  }

  /** What a program finds at its first stack pointer: argc, and the tables argv and envp name. */
  predicate Finds(m: seq<Byte>, sp: nat, args: seq<Str>, envs: seq<Str>) {
    sp + 12 <= |m| && Word(m, sp) == |args| && Table(m, Word(m, sp + 4)) == args && Table(m, Word(m, sp + 8)) == envs
  }

  lemma {:induction false} StringThere(m: seq<Byte>, a: nat, s: Str)
    requires IsString(s) && a + |s| < |m| && m[a..a + |s|] == s && m[a + |s|] == 0
    ensures CString(m, a) == s
    decreases |s|
  {
    if s != [] {
      assert m[a] == s[0];
      assert m[a + 1..a + |s|] == s[1..] by {
        forall k | 0 <= k < |s| - 1 ensures m[a + 1..a + |s|][k] == s[1..][k] { assert m[a..a + |s|][k + 1] == s[k + 1]; }
      }
      StringThere(m, a + 1, s[1..]);
    }
  }

  lemma JoinedAt(v: seq<Str>, j: nat)
    requires j < |v|
    ensures Joined(v) == Joined(v[..j]) + v[j] + [0] + Joined(v[j + 1..])
    ensures |Joined(v[..j + 1])| == |Joined(v[..j])| + |v[j]| + 1
  {
    var before, s, after := v[..j], v[j], v[j + 1..];
    assert v == before + ([s] + after);
    JoinedBoth(before, [s] + after);
    assert ([s] + after)[1..] == after;
    assert Joined([s] + after) == s + [0] + Joined(after);
    assert v[..j + 1] == before + [s];
    JoinedBoth(before, [s]);
    JoinedOne(s);
  }

  /** A slice of a slice. */
  lemma Inner(m: seq<Byte>, p: nat, all: seq<Byte>, before: seq<Byte>, s: Str, after: seq<Byte>)
    requires p + |all| <= |m| && m[p..p + |all|] == all && all == before + s + [0] + after
    ensures var q := p + |before|; m[q..q + |s|] == s && m[q + |s|] == 0
  {
    var q, n := p + |before|, |before|;
    assert all[n + |s|] == 0 && m[p..p + |all|][n + |s|] == m[q + |s|];
    forall k | 0 <= k < |s| ensures m[q..q + |s|][k] == s[k] { assert m[p..p + |all|][n + k] == all[n + k] == s[k]; }
  }

  /** String j of a packed area. */
  lemma PackedString(m: seq<Byte>, p: nat, v: seq<Str>, j: nat)
    requires Strings(v) && j < |v| && p + |Joined(v)| <= |m| && m[p..p + |Joined(v)|] == Joined(v)
    ensures var q := p + |Joined(v[..j])|;
      |Joined(v[..j])| + |v[j]| < |Joined(v)| && m[q..q + |v[j]|] == v[j] && m[q + |v[j]|] == 0 && CString(m, q) == v[j]
      && |Joined(v[..j + 1])| == |Joined(v[..j])| + |v[j]| + 1
  {
    assert IsString(v[j]);
    hide Joined, CString, Strings, IsString;
    JoinedAt(v, j);
    Inner(m, p, Joined(v), Joined(v[..j]), v[j], Joined(v[j + 1..]));
    StringThere(m, p + |Joined(v[..j])|, v[j]);
  }

  /** A table whose entries are the addresses of the strings reads as those strings. */
  lemma {:induction false} TableThere(m: seq<Byte>, a: nat, n: nat, v: seq<Str>)
    requires |v| == n && a + 4 * (n + 1) <= |m| && EntryAt(m, a, n) == 0
    requires forall j: nat | j < n :: EntryAt(m, a, j) != 0 && CString(m, EntryAt(m, a, j)) == v[j]
    ensures Table(m, a) == v
    decreases n
  {
    if n > 0 {
      assert EntryAt(m, a, 0) == Word(m, a);
      var w, b, k := v[1..], a + 4, n - 1;
      forall j: nat | j < k ensures EntryAt(m, b, j) != 0 && CString(m, EntryAt(m, b, j)) == w[j] {
        assert EntryAt(m, b, j) == EntryAt(m, a, j + 1) && w[j] == v[j + 1];
      }
      assert EntryAt(m, b, k) == EntryAt(m, a, n);
      TableThere(m, b, k, w);
    } else {
      assert EntryAt(m, a, 0) == Word(m, a);
    }
  }

  // ----- the #! line ---------------------------------------------------------------------------

  predicate IsBlank(c: Byte) { c == 32 || c == 9 }

  /** The characters up to the first newline of the first 1022 bytes after #!, none if a zero or the end
      comes first. */
  function Line(b: seq<Byte>, i: nat): Option<Str>
    requires i <= |b|
    decreases |b| - i
  {
    if i == |b| || i == 1022 || b[i] == 0 then None
    else if b[i] == 10 then Some(b[..i])
    else Line(b, i + 1)
  }

  function Skip(s: Str): Str
    decreases |s|
  {
    if s != [] && IsBlank(s[0]) then Skip(s[1..]) else s
  }

  /** The length of the part before the first blank. */
  function WordLength(s: Str): (n: nat)
    ensures n <= |s| && (n < |s| ==> IsBlank(s[n])) && forall i | 0 <= i < n :: !IsBlank(s[i])
    decreases |s|
  {
    if s == [] || IsBlank(s[0]) then 0 else 1 + WordLength(s[1..])
  }

  /** The part after the last slash. */
  function BaseName(s: Str): (r: Str)
    ensures |r| <= |s| && r == s[|s| - |r|..] && 47 !in r && (|r| < |s| ==> s[|s| - |r| - 1] == 47)
    decreases |s|
  {
    if s == [] || s[|s| - 1] == 47 then []
    else
      var r := BaseName(s[..|s| - 1]);
      assert s == s[..|s| - 1] + [s[|s| - 1]];
      r + [s[|s| - 1]]
  }

  datatype Bang = Bang(interp: Str, name: Str, arg: Option<Str>)

  /** The interpreter to run, its name as argv[0], and everything after the first blank as one argument. */
  function ParseBang(b: seq<Byte>): Option<Bang> {
    match Line(b, 0)
    case None => None
    case Some(line) =>
      var s := Skip(line);
      if s == [] then None else Some(Divided(s))
  }

  function Divided(s: Str): Bang {
    var n := WordLength(s);
    Bang(s[..n], BaseName(s[..n]), if n < |s| then Some(s[n + 1..]) else None)
  }

  /** What do_execve makes of the first block of a file. */
  datatype Header = Binary | NoInterpreter | Script(bang: Bang)

  function Interpret(block: seq<Byte>): Header
    requires |block| == 1024
  {
    if block[0] != 35 || block[1] != 33 then Binary
    else match ParseBang(block[2..]) case None => NoInterpreter case Some(b) => Script(b)
  }

  function BangOf(h: Header): Option<Bang> { if h.Script? then Some(h.bang) else None }

  predicate Blanks(s: Str) { forall i | 0 <= i < |s| :: s[i] == 32 || s[i] == 9 }

  /** A string in one line. */
  predicate InLine(s: Str) { forall i | 0 <= i < |s| :: s[i] != 0 && s[i] != 10 }

  lemma {:induction false} LineIs(b: seq<Byte>, i: nat, n: nat)
    requires i <= n <= |b| && n <= 1022 && InLine(b[i..n])
    ensures n < |b| && n < 1022 && b[n] == 10 ==> Line(b, i) == Some(b[..n])
    ensures n == |b| || n == 1022 || b[n] == 0 ==> Line(b, i) == None
    decreases n - i
  {
    if i < n {
      assert b[i] == b[i..n][0];
      assert b[i + 1..n] == b[i..n][1..];
      LineIs(b, i + 1, n);
    }
  }

  lemma {:induction false} LineMeaning(b: seq<Byte>, i: nat)
    requires i <= |b| && InLine(b[..i]) && Line(b, i).Some?
    ensures var s := Line(b, i).value; |s| < |b| && b[|s|] == 10 && s == b[..|s|] && InLine(s)
    decreases |b| - i
  {
    if b[i] != 10 {
      assert b[..i + 1] == b[..i] + [b[i]];
      LineMeaning(b, i + 1);
    }
  }

  lemma {:induction false} SkipIs(s: Str, c: nat)
    requires c <= |s| && Blanks(s[..c]) && (c < |s| ==> !IsBlank(s[c]))
    ensures Skip(s) == s[c..]
    decreases c
  {
    if c > 0 {
      assert s[0] == s[..c][0];
      assert s[1..][..c - 1] == s[..c][1..];
      SkipIs(s[1..], c - 1);
      assert s[1..][c - 1..] == s[c..];
    }
  }

  lemma {:induction false} SkipMeaning(s: Str)
    ensures var r := Skip(s); |r| <= |s| && r == s[|s| - |r|..] && Blanks(s[..|s| - |r|]) && (r != [] ==> !IsBlank(r[0]))
    decreases |s|
  {
    if s != [] && IsBlank(s[0]) {
      SkipMeaning(s[1..]);
      var r := Skip(s);
      assert s[1..][|s| - 1 - |r|..] == s[|s| - |r|..];
      assert s[..|s| - |r|] == [s[0]] + s[1..][..|s| - 1 - |r|];
    }
  }

  lemma {:induction false} WordIs(s: Str, n: nat)
    requires n <= |s| && (forall i | 0 <= i < n :: !IsBlank(s[i])) && (n < |s| ==> IsBlank(s[n]))
    ensures WordLength(s) == n
  {
    if WordLength(s) < n { assert IsBlank(s[WordLength(s)]); }
  }

  /** There is one last slash. */
  lemma LastSlash(s: Str, i: nat, j: nat)
    requires i <= |s| && j <= |s| && (i > 0 ==> s[i - 1] == 47) && (j > 0 ==> s[j - 1] == 47)
    requires (forall k | i <= k < |s| :: s[k] != 47) && (forall k | j <= k < |s| :: s[k] != 47)
    ensures i == j
  {
  }

  lemma BaseNameIs(s: Str, j: nat)
    requires j <= |s| && (forall k | j <= k < |s| :: s[k] != 47) && (j > 0 ==> s[j - 1] == 47)
    ensures BaseName(s) == s[j..]
  {
    hide BaseName;
    var r := BaseName(s);
    var i := |s| - |r|;
    forall k | i <= k < |s| ensures s[k] != 47 { assert s[k] == r[k - i]; }
    LastSlash(s, i, j);
  }

  lemma InLineSlice(s: Str, i: nat, j: nat)
    requires InLine(s) && i <= j <= |s|
    ensures InLine(s[i..j])
  {
  }

  /** There is an interpreter unless no newline comes in time or only blanks come before it; its parts make up
      the line: blanks, the interpreter without a blank, and if one follows, everything after that blank as one
      argument.  The name is what follows the interpreter's last slash. */
  lemma BangParts(b: seq<Byte>)
    ensures ParseBang(b).None? <==> Line(b, 0).None? || Blanks(Line(b, 0).value)
    ensures ParseBang(b).Some? ==> Parts(ParseBang(b).value, Line(b, 0).value)
  {
    if Line(b, 0).Some? {
      LineMeaning(b, 0);
      var line := Line(b, 0).value;
      SkipMeaning(line);
      var s := Skip(line);
      hide Line, Skip, Parts;
      if s == [] {
        assert line[..|line|] == line;
      } else {
        assert line[|line| - |s|] == s[0];
        DividedParts(line, line[..|line| - |s|], s);
      }
    }
  }

  lemma DividedParts(line: Str, w: Str, s: Str)
    requires InLine(line) && line == w + s && Blanks(w) && s != [] && !IsBlank(s[0])
    ensures Parts(Divided(s), line)
  {
    var g, n := Divided(s), WordLength(s);
    InLineSlice(line, |w|, |line|);
    assert line[|w|..] == s;
    DividedNames(s);
    hide InLine, Blanks, BaseName, WordLength, WellNamed;
    if n < |s| {
      DividedLine(line, w, s, n);
      assert Made(line, w, s[n], g);
    } else {
      assert g.interp == s;
      assert Made(line, w, 32, g);
    }
  }

  lemma DividedNames(s: Str)
    requires InLine(s) && s != [] && !IsBlank(s[0])
    ensures WellNamed(Divided(s))
  {
    var g, n := Divided(s), WordLength(s);
    InLineSlice(s, 0, n);
    InLineSlice(g.interp, n - |g.name|, n);
    if n < |s| { InLineSlice(s, n + 1, |s|); }
    assert n > 0;
    forall i | 0 <= i < n ensures g.interp[i] != 32 && g.interp[i] != 9 { assert !IsBlank(s[i]); }
    hide InLine, BaseName, WordLength, IsBlank;
  }

  lemma DividedLine(line: Str, w: Str, s: Str, n: nat)
    requires n < |s| && line == w + s
    ensures line == w + s[..n] + ([s[n]] + s[n + 1..])
  {
  }

  predicate Made(line: Str, w: Str, c: Byte, g: Bang) {
    Blanks(w) && (c == 32 || c == 9) && line == w + g.interp + if g.arg.Some? then [c] + g.arg.value else []
  }

  /** The interpreter is a word, and the name is its part after the last slash. */
  predicate WellNamed(g: Bang) {
    && g.interp != [] && (forall i | 0 <= i < |g.interp| :: g.interp[i] != 32 && g.interp[i] != 9)
    && InLine(g.interp) && InLine(g.name) && (g.arg.Some? ==> InLine(g.arg.value))
    && |g.name| <= |g.interp| && g.name == g.interp[|g.interp| - |g.name|..] && 47 !in g.name
    && (|g.name| < |g.interp| ==> g.interp[|g.interp| - |g.name| - 1] == 47)
  }

  ghost predicate Parts(g: Bang, line: Str) {
    WellNamed(g) && exists w, c :: Made(line, w, c, g)
  }

  lemma SplicedStrings(b: Bang, filename: Str, argv: seq<Str>)
    requires InLine(b.name) && (b.arg.Some? ==> InLine(b.arg.value)) && IsString(filename) && Strings(argv)
    ensures Strings(Vector(Some(b), filename, argv))
  {
    assert IsString(b.name) && (b.arg.Some? ==> IsString(b.arg.value));
    hide IsString, InLine;
    assert Strings(Spliced(b, filename));
    assert Strings(if argv == [] then [] else argv[1..]);
  }

  /** Whatever the first block holds, what is spliced in are strings. */
  lemma VectorStrings(block: seq<Byte>, filename: Str, argv: seq<Str>)
    requires |block| == 1024 && IsString(filename) && Strings(argv)
    ensures Strings(Vector(BangOf(Interpret(block)), filename, argv))
  {
    var h := Interpret(block);
    BangParts(block[2..]);
    if h.Script? {
      assert Parts(h.bang, Line(block[2..], 0).value);
      hide ParseBang, Line, Interpret, InLine, Made, Strings, IsString;
      SplicedStrings(h.bang, filename, argv);
    }
  }

  // ----- the line buffer of do_execve --------------------------------------------------------------

  const BUF: nat := 1023

  predicate NonZero(s: seq<Byte>, k: nat)
    requires k <= |s|
  {
    forall j | 0 <= j < k :: s[j] != 0
  }

  /** strncpy(buf, src, 1022) and the zero after it. */
  predicate Buffered(m: seq<Byte>, src: seq<Byte>) {
    |m| == BUF && |src| == BUF - 1 && m[BUF - 1] == 0 && forall k | 0 <= k < BUF - 1 :: m[k] == if NonZero(src, k) then src[k] else 0
  }

  lemma BufferedLine(m: seq<Byte>, src: seq<Byte>, n: nat)
    requires Buffered(m, src) && n < BUF && InLine(m[..n])
    ensures m[..n] == src[..n] && InLine(src[..n]) && (n < BUF - 1 ==> m[n] == src[n])
  {
    forall k | 0 <= k < n ensures m[k] == src[k] != 0 { assert m[..n][k] == m[k]; }
  }

  /** What strchr finds is the line, or that there is none. */
  lemma FoundLine(m: seq<Byte>, src: seq<Byte>, n: nat)
    requires Buffered(m, src) && n < BUF && InLine(m[..n]) && m[n] in {0, 10}
    ensures Line(src, 0) == if m[n] == 10 then Some(m[..n]) else None
  {
    BufferedLine(m, src, n);
    assert src[0..n] == src[..n];
    LineIs(src, 0, n);
  }

  /** The strings put in front of argv[1..]. */
  function Spliced(bang: Bang, filename: Str): seq<Str> {
    [bang.name] + (if bang.arg.Some? then [bang.arg.value] else []) + [filename]
  }

  /** The argument vector the new program should see. */
  function Vector(bang: Option<Bang>, filename: Str, argv: seq<Str>): seq<Str> {
    if bang.None? then argv else Spliced(bang.value, filename) + (if argv == [] then [] else argv[1..])
  }

  /** What a program finds that a script's first line started: the interpreter's name, the argument if the line has
      one, the script, and the script's own arguments.  Run without argv[0], the script slips into the environment. */
  predicate ScriptFinds(m: seq<Byte>, sp: nat, bang: Bang, filename: Str, argv: seq<Str>, envp: seq<Str>) {
    && sp + 12 <= |m|
    && var args, envs, n := Table(m, Word(m, sp + 4)), Table(m, Word(m, sp + 8)), if bang.arg.Some? then 2 else 1;
      && |args| >= n && args[0] == bang.name && (bang.arg.Some? ==> args[1] == bang.arg.value)
      && Word(m, sp) == |args| && |envs| == |envp|
      && if argv == [] then |args| == n && (envp != [] ==> envs[0] == filename && envs[1..] == envp[..|envp| - 1])
         else |args| == n + |argv| && args[n] == filename && args[n + 1..] == argv[1..] && envs == envp
  }

  lemma ScriptVector(m: seq<Byte>, sp: nat, bang: Bang, filename: Str, argv: seq<Str>, envp: seq<Str>)
    requires var all := Vector(Some(bang), filename, argv) + envp; var argc := Count(Some(bang), argv);
      Finds(m, sp, all[..argc], all[argc..argc + |envp|])
    ensures ScriptFinds(m, sp, bang, filename, argv, envp)
  {
    hide Word, Table;
    var front := if bang.arg.Some? then [bang.name, bang.arg.value] else [bang.name];
    var all, n := Vector(Some(bang), filename, argv) + envp, |front|;
    assert Spliced(bang, filename) == front + [filename];
    if argv == [] {
      assert all == front + ([filename] + envp);
      ScriptAlone(front, filename, envp, all);
    } else {
      assert all == front + [filename] + argv[1..] + envp;
      ScriptSplit(front, filename, argv[1..], envp, all);
    }
  }

  lemma ScriptAlone(front: seq<Str>, filename: Str, envp: seq<Str>, all: seq<Str>)
    requires all == front + ([filename] + envp)
    ensures var n := |front|;
      all[..n] == front && |all[n..n + |envp|]| == |envp| &&
      (envp != [] ==> all[n..n + |envp|][0] == filename && all[n..n + |envp|][1..] == envp[..|envp| - 1])
  {
    var n := |front|;
    assert all[n..n + |envp|] == ([filename] + envp)[..|envp|];
  }

  lemma ScriptSplit(front: seq<Str>, filename: Str, rest: seq<Str>, envp: seq<Str>, all: seq<Str>)
    requires all == front + [filename] + rest + envp
    ensures var n, args := |front|, all[..|front| + 1 + |rest|];
      args[..n] == front && args[n] == filename && args[n + 1..] == rest && all[n + 1 + |rest|..n + 1 + |rest| + |envp|] == envp
  {
  }

  /** The number that do_execve arrives at. */
  function Count(bang: Option<Bang>, argv: seq<Str>): int {
    if bang.None? then |argv| else |argv| - 1 + 2 + (if bang.value.arg.Some? then 1 else 0)
  }

  /** argc is the length of the vector, unless a script is run with no argv[0]: then it is one short. */
  lemma CountIsRight(bang: Option<Bang>, filename: Str, argv: seq<Str>)
    ensures Count(bang, argv) == |Vector(bang, filename, argv)| <==> bang.None? || argv != []
    ensures bang.Some? && argv == [] ==> Count(bang, argv) == |Vector(bang, filename, argv)| - 1
  {
  }
}
