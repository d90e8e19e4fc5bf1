// copy_strings and create_tables, byte by byte.

module Exec {
  import opened Common
  import opened ExecModel

  /** The page[] array of do_execve; [] is a null pointer. */
  class ArgPages {
    const page: array<seq<Byte>>
    var free: nat               // pages get_free_page can still give

    ghost predicate Valid()
      reads this, page
    {
      page.Length == MAX_ARG_PAGES && forall i | 0 <= i < MAX_ARG_PAGES :: page[i] == [] || |page[i]| == PAGE_SIZE
    }

    constructor (free: nat)
      ensures Valid() && fresh(page) && this.free == free
    {
      page := new seq<Byte>[MAX_ARG_PAGES](_ => []);
      this.free := free;
    }

    function At(a: nat): Byte
      reads this, page
      requires page.Length == MAX_ARG_PAGES && a < AREA
    {
      var g := page[a / PAGE_SIZE];
      if a % PAGE_SIZE < |g| then g[a % PAGE_SIZE] else 0
    }

    /** The area at the top of the new user memory. */
    ghost function Area(): (s: seq<Byte>)
      reads this, page
      requires page.Length == MAX_ARG_PAGES
      ensures |s| == AREA && forall a | 0 <= a < AREA :: s[a] == At(a)
    {
      seq(AREA, (a: nat) requires a < AREA && page.Length == MAX_ARG_PAGES reads this, page => At(a))
    }

    /** Page j of the 32 is the j-th 4096 bytes of the area. */
    lemma PageAt(j: nat, i: nat)
      requires Valid() && j < 32 && i < 4096
      ensures 4096 * j + i < AREA && (page[j] != [] ==> |page[j]| == 4096)
      ensures Area()[4096 * j + i] == if page[j] == [] then 0 else page[j][i]
    {
      assert (4096 * j + i) / 4096 == j && (4096 * j + i) % 4096 == i;
    }

    method GetFreePage(i: nat) returns (ok: bool)
      requires Valid() && i < MAX_ARG_PAGES && page[i] == []
      modifies `free, page
      ensures Valid() && (ok <==> old(free) > 0) && (!ok ==> free == 0) && Area() == old(Area()) && (ok ==> page[i] != [])
    {
      if free == 0 { return false; }
      free := free - 1;
      page[i] := seq(PAGE_SIZE, _ => 0);
      ok := true;
    }

    /** `*(pag + offset) = ...` */
    method StoreByte(p: nat, offset: nat, b: Byte)
      requires Valid() && p < AREA && offset == p % PAGE_SIZE && page[p / PAGE_SIZE] != []
      modifies page
      ensures Valid() && Area() == old(Area())[p := b]
      ensures forall i | 0 <= i < MAX_ARG_PAGES :: page[i] != [] <==> old(page[i]) != []
    {
      page[p / PAGE_SIZE] := page[p / PAGE_SIZE][offset := b];
      forall a | 0 <= a < AREA ensures Area()[a] == old(Area())[p := b][a] {
        assert a == PAGE_SIZE * (a / PAGE_SIZE) + a % PAGE_SIZE;
      }
    }

    /** A byte stored just below what is packed. */
    static lemma StoreFront(area: seq<Byte>, p: nat, b: Byte, rest: seq<Byte>)
      requires p < |area|
      ensures (area[..p + 1] + rest)[p := b] == area[..p] + ([b] + rest)
    {
    }

    /** The page for address p, allocated if it is new. */
    method NeedPage(p: nat) returns (ok: bool)
      requires Valid() && p < AREA
      modifies `free, page
      ensures Valid() && Area() == old(Area()) && (if ok then page[p / PAGE_SIZE] != [] else free == 0)
    {
      ok := true;
      if page[p / PAGE_SIZE] == [] { ok := GetFreePage(p / PAGE_SIZE); }
    }

    /** One round of the inner loop: the byte b at p - 1. */
    method PushByte(p0: nat, offset0: int, b: Byte, ghost area: seq<Byte>, ghost rest: seq<Byte>) returns (p: nat, offset: int, ok: bool)
      requires Valid() && 0 < p0 < AREA && (offset0 == 0 || (offset0 == p0 % PAGE_SIZE && page[p0 / PAGE_SIZE] != []))
      requires |area| == AREA && Area() == area[..p0] + rest
      modifies `free, page
      ensures Valid() && (!ok ==> free == 0)
      ensures ok ==> p == p0 - 1 && (offset == 0 || (offset == p % PAGE_SIZE && page[p / PAGE_SIZE] != [])) && Area() == area[..p] + ([b] + rest)
    {
      p, offset, ok := p0 - 1, offset0 - 1, true;
      StoreFront(area, p, b, rest);
      hide Area;
      if offset < 0 {
        offset := p % PAGE_SIZE;
        ok := NeedPage(p);
        if !ok { return; }
      }
      StoreByte(p, offset, b);
    }

    /** The inner loop of copy_strings: one string and its zero, downwards from p0, below `rest`. */
    method CopyOne(s: Str, p0: nat, offset0: int, ghost area: seq<Byte>, ghost rest: seq<Byte>) returns (p: nat, offset: int, ok: bool)
      requires Valid() && |s| + 1 <= p0 < AREA && (offset0 == 0 || (offset0 == p0 % PAGE_SIZE && page[p0 / PAGE_SIZE] != []))
      requires |area| == AREA && Area() == area[..p0] + rest
      modifies `free, page
      ensures Valid() && (!ok ==> free == 0)
      ensures ok ==> p == p0 - |s| - 1 && (offset == 0 || (offset == p % PAGE_SIZE && page[p / PAGE_SIZE] != []))
      ensures ok ==> Area() == area[..p] + (s + [0] + rest)
    {
      ghost var z := s + [0];
      p, offset, ok := p0, offset0, true;
      var tmp, len := |s| + 1, |s| + 1;
      assert z[len..] + rest == rest;
      hide Area;
      while len > 0
        invariant Valid() && 0 <= len == tmp <= |s| + 1 && p == p0 - |z| + len
        invariant offset == 0 || (offset == p % PAGE_SIZE && page[p / PAGE_SIZE] != [])
        invariant Area() == area[..p] + (z[len..] + rest)
      {
        tmp, len := tmp - 1, len - 1;
        assert [z[len]] + (z[len + 1..] + rest) == z[len..] + rest;
        p, offset, ok := PushByte(p, offset, if tmp < |s| then s[tmp] else 0, area, z[len + 1..] + rest);
        if !ok { return; }
      }
      assert z[0..] == z;
    }

    /** copy_strings: the strings, the last first, end up packed below p0.  0 stands for failure, as it
        does for a caller that filled the area to its first byte. */
    method CopyStrings(argc: int, argv: seq<Str>, p0: nat) returns (p: nat)
      requires Valid() && p0 < AREA && argc <= |argv| && |Joined(argv)| <= p0
      requires argc == |argv| || argc <= 0 == |argv|
      modifies `free, page
      ensures Valid()
      ensures p != 0 ==> p == p0 - |Joined(argv)| && Area() == old(Area())[..p] + Joined(argv) + old(Area())[p0..]
      ensures p == 0 ==> p0 == 0 || free == 0 || |Joined(argv)| == p0
    {
      if p0 == 0 { return 0; }
      ghost var area := Area();
      hide Joined, Area;
      var ok;
      p, ok := CopyAll(argc, argv, p0, area);
      if !ok { return 0; }
      Associates(area[..p], Joined(argv), area[p0..]);
    }

    static lemma Associates(a: seq<Byte>, b: seq<Byte>, c: seq<Byte>)
      ensures a + b + c == a + (b + c)
    {
    }

    /** One round of the outer loop: string k - 1 below those from k on. */
    method PushString(argv: seq<Str>, k: nat, p0: nat, offset0: int, ghost area: seq<Byte>, ghost top: seq<Byte>)
      returns (p: nat, offset: int, ok: bool)
      requires Valid() && 0 < k <= |argv| && |Joined(argv)| <= AREA - |top|
      requires p0 == AREA - |top| - |Joined(argv[k..])| < AREA && (offset0 == 0 || (offset0 == p0 % PAGE_SIZE && page[p0 / PAGE_SIZE] != []))
      requires |area| == AREA && Area() == area[..p0] + (Joined(argv[k..]) + top)
      modifies `free, page
      ensures Valid() && (!ok ==> free == 0)
      ensures ok ==> p == AREA - |top| - |Joined(argv[k - 1..])| && Area() == area[..p] + (Joined(argv[k - 1..]) + top)
      ensures ok ==> offset == 0 || (offset == p % PAGE_SIZE && page[p / PAGE_SIZE] != [])
    {
      TailFits(argv, k - 1);
      hide Joined, Area;
      ghost var after := Joined(argv[k..]);
      p, offset, ok := CopyOne(argv[k - 1], p0, offset0, area, after + top);
      assert argv[k - 1] + [0] + (after + top) == argv[k - 1] + [0] + after + top;
    }

    /** The outer loop of copy_strings. */
    method CopyAll(argc: int, argv: seq<Str>, p0: nat, ghost area: seq<Byte>) returns (p: nat, ok: bool)
      requires Valid() && p0 < AREA && argc <= |argv| && |Joined(argv)| <= p0 && area == Area()
      requires argc == |argv| || argc <= 0 == |argv|
      modifies `free, page
      ensures Valid() && (!ok ==> free == 0)
      ensures ok ==> p == p0 - |Joined(argv)| && Area() == area[..p] + (Joined(argv) + area[p0..])
    {
      p, ok := p0, true;
      NothingPacked(area, p0, argv);
      ghost var top := area[p0..];
      var offset, left := 0, argc;
      ghost var k: nat := |argv|;
      hide Joined, Area, Valid;
      while left > 0
        invariant Valid() && k <= |argv| && (left == k || argc <= 0 == |argv|) && left <= argc
        invariant p == AREA - |top| - |Joined(argv[k..])| && Area() == area[..p] + (Joined(argv[k..]) + top)
        invariant page.Length == MAX_ARG_PAGES && (offset == 0 || (offset == p % PAGE_SIZE && page[p / PAGE_SIZE] != []))
      {
        p, offset, ok := PushString(argv, left, p, offset, area, top);
        if !ok { return; }
        left := left - 1;
        k := k - 1;
      }
      assert argv[k..] == argv;
    }

    static lemma NothingPacked(area: seq<Byte>, p0: nat, argv: seq<Str>)
      requires p0 <= |area|
      ensures Joined(argv[|argv|..]) == [] && area == area[..p0] + (Joined(argv[|argv|..]) + area[p0..])
    {
      assert argv[|argv|..] == [];
    }

    /** copy_strings on top of what is packed already, up to the last word of the area. */
    method Push(argc: int, argv: seq<Str>, p: nat, ghost done: seq<Str>) returns (q: nat)
      requires Valid() && (argc == |argv| || argc <= 0 == |argv|) && |Joined(argv + done)| < AREA - 4
      requires p == 0 ==> free == 0
      requires p != 0 ==> p == AREA - 4 - |Joined(done)| && Area()[p..AREA - 4] == Joined(done)
      modifies `free, page
      ensures Valid() && (q == 0 ==> free == 0)
      ensures q != 0 ==> q == AREA - 4 - |Joined(argv + done)| && Area()[q..AREA - 4] == Joined(argv + done)
    {
      JoinedBoth(argv, done);
      if p == 0 { return 0; }
      ghost var was := Area();
      q := CopyStrings(argc, argv, p);
      hide Area, Joined;
      if q != 0 { Slice(was, Area(), q, Joined(argv), p, AREA - 4); }
    }

    static lemma Slice(was: seq<Byte>, area: seq<Byte>, q: nat, packed: seq<Byte>, p: nat, e: nat)
      requires q + |packed| == p <= e <= |was| && area == was[..q] + packed + was[p..]
      ensures area[q..e] == packed + was[p..e]
    {
    }

    static lemma TailFits(argv: seq<Str>, i: nat)
      requires i < |argv|
      ensures |Joined(argv[i..])| <= |Joined(argv)| && Joined(argv[i..]) == argv[i] + [0] + Joined(argv[i + 1..])
    {
      assert argv[i..][1..] == argv[i + 1..];
      assert argv == argv[..i] + argv[i..];
      JoinedBoth(argv[..i], argv[i..]);
    }
  }

  /** The data segment of the new program. */
  class UserMemory {
    const mem: array<Byte>

    constructor (size: nat)
      ensures fresh(mem) && mem.Length == size && forall i | 0 <= i < size :: mem[i] == 0
    {
      mem := new Byte[size](_ => 0);
    }

    /** Argument page j lies 32 - j pages before the end of the segment; a missing one reads as zeros. */
    ghost predicate PageByte(pages: ArgPages, j: nat, i: nat)
      requires j < 32 && i < 4096
      reads mem, pages, pages.page
    {
      pages.Valid() && mem.Length >= 131072 && (pages.page[j] != [] ==> |pages.page[j]| == 4096) &&
      mem[mem.Length - 131072 + 4096 * j + i] == if pages.page[j] == [] then 0 else pages.page[j][i]
    }

    /** change_ldt: the argument pages become the top of the segment; an absent page reads as zeros. */
    method TakePages(pages: ArgPages)
      requires pages.Valid() && AREA <= mem.Length && mem as object != pages.page
      modifies mem
      ensures mem[..] == old(mem[..])[..mem.Length - AREA] + pages.Area()
      ensures forall j, i | 0 <= j < 32 && 0 <= i < 4096 :: PageByte(pages, j, i)
    {
      var i, base := 0, mem.Length - AREA;
      while i < AREA
        invariant 0 <= i <= AREA && pages.Area() == old(pages.Area()) && pages.Valid()
        invariant forall k | 0 <= k < mem.Length :: mem[k] == if base <= k < base + i then pages.Area()[k - base] else old(mem[k])
      {
        mem[base + i] := pages.At(i);
        i := i + 1;
      }
      forall j, i | 0 <= j < 32 && 0 <= i < 4096 ensures PageByte(pages, j, i) {
        pages.PageAt(j, i);
        assert mem[base + (4096 * j + i)] == pages.Area()[4096 * j + i];
      }
    }

    method PutLong(v: nat, a: nat)
      requires a + 4 <= mem.Length && v < 0x1_0000_0000
      modifies mem
      ensures mem[..] == SetWord(old(mem[..]), a, v)
    {
      mem[a], mem[a + 1], mem[a + 2], mem[a + 3] := v % 256, v / 256 % 256, v / 65536 % 256, v / 16777216;
    }

    /** The strings v lie packed at start. */
    ghost predicate Packed(start: nat, v: seq<Str>)
      reads mem
    {
      Strings(v) && 0 < start && start + |Joined(v)| <= mem.Length <= 0x1_0000_0000 && mem[start..start + |Joined(v)|] == Joined(v)
    }

    /** Entries from number `from` of v on are the addresses of the strings. */
    static ghost predicate Entries(m: seq<Byte>, table: nat, n: nat, start: nat, v: seq<Str>, from: nat)
      requires from + n <= |v| && table + 4 * n <= |m|
    {
      forall j: nat | j < n :: EntryAt(m, table, j) == start + |Joined(v[..from + j])|
    }

    static lemma EntriesKept(m: seq<Byte>, m': seq<Byte>, table: nat, n: nat, start: nat, v: seq<Str>, from: nat)
      requires from + n <= |v| && table + 4 * n <= |m| == |m'| && Entries(m, table, n, start, v, from)
      requires forall b | table <= b < table + 4 * n :: m'[b] == m[b]
      ensures Entries(m', table, n, start, v, from)
    {
      forall j: nat | j < n ensures EntryAt(m', table, j) == start + |Joined(v[..from + j])| {
        assert EntryAt(m, table, j) == start + |Joined(v[..from + j])|;
        WordKept(m, m', table + 4 * j);
      }
    }

    /** Word a, below the strings, becomes v. */
    method PutBelow(a: nat, x: nat, ghost start: nat, ghost v: seq<Str>)
      requires Packed(start, v) && a + 4 <= start && x < 0x1_0000_0000
      modifies mem
      ensures Packed(start, v) && Word(mem[..], a) == x
      ensures forall b | 0 <= b < mem.Length && !(a <= b < a + 4) :: mem[b] == old(mem[b])
    {
      ghost var m := mem[..];
      WordSet(m, a, x);
      PutLong(x, a);
      assert mem[..][start..start + |Joined(v)|] == m[start..start + |Joined(v)|];
    }

    /** One round: the address of string from + i, and on to the next string. */
    method PutEntry(table: nat, p: nat, i: nat, ghost start: nat, ghost v: seq<Str>, ghost from: nat) returns (next: nat)
      requires Packed(start, v) && from + i < |v| && p == start + |Joined(v[..from + i])| && table + 4 * (i + 1) <= start
      requires Entries(mem[..], table, i, start, v, from)
      modifies mem
      ensures Packed(start, v) && next == start + |Joined(v[..from + i + 1])| && Entries(mem[..], table, i + 1, start, v, from)
      ensures forall b | 0 <= b < mem.Length && !(table + 4 * i <= b < table + 4 * (i + 1)) :: mem[b] == old(mem[b])
    {
      hide Word, CString;
      PackedString(mem[..], start, v, from + i);
      PutBelow(table + 4 * i, p, start, v);
      EntriesKept(old(mem[..]), mem[..], table, i, start, v, from);
      assert EntryAt(mem[..], table, i) == p;
      PackedString(mem[..], start, v, from + i);
      next := SkipString(p, v[from + i]);
    }

    /** One table: n pointers to the strings from number `from` on, then a null pointer.  p walks over the
        strings. */
    method PutTable(table: nat, p: nat, n: nat, ghost start: nat, ghost v: seq<Str>, ghost from: nat) returns (next: nat)
      requires Packed(start, v) && from + n <= |v| && p == start + |Joined(v[..from])| && table + 4 * (n + 1) <= start
      modifies mem
      ensures Packed(start, v) && next == start + |Joined(v[..from + n])|
      ensures Entries(mem[..], table, n, start, v, from) && EntryAt(mem[..], table, n) == 0
      ensures forall b | 0 <= b < mem.Length && !(table <= b < table + 4 * (n + 1)) :: mem[b] == old(mem[b])
    {
      hide Word, CString, Packed;
      next := p;
      var i := 0;
      assert mem.Length > 0 && start <= mem.Length by { PackedFits(start, v); }
      while i < n
        invariant 0 <= i <= n && next == start + |Joined(v[..from + i])| && Packed(start, v)
        invariant forall b | 0 <= b < mem.Length && !(table <= b < table + 4 * i) :: mem[b] == old(mem[b])
        invariant Entries(mem[..], table, i, start, v, from)
      {
        next := PutEntry(table, next, i, start, v, from);
        i := i + 1;
      }
      ghost var m := mem[..];
      PutBelow(table + 4 * n, 0, start, v);
      EntriesKept(m, mem[..], table, n, start, v, from);
    }

    lemma PackedFits(start: nat, v: seq<Str>)
      requires Packed(start, v)
      ensures Strings(v) && 0 < start && start + |Joined(v)| <= mem.Length <= 0x1_0000_0000 && mem[..][start..start + |Joined(v)|] == Joined(v)
    {
      assert mem[..][start..start + |Joined(v)|] == mem[start..start + |Joined(v)|];
    }

    static lemma TableReads(m: seq<Byte>, table: nat, n: nat, start: nat, v: seq<Str>, from: nat)
      requires Strings(v) && from + n <= |v| && table + 4 * (n + 1) <= |m| && EntryAt(m, table, n) == 0
      requires 0 < start && start + |Joined(v)| <= |m| && m[start..start + |Joined(v)|] == Joined(v)
      requires Entries(m, table, n, start, v, from)
      ensures Table(m, table) == v[from..from + n]
    {
      var w := v[from..from + n];
      hide Joined, CString, Table, Word, Strings;
      forall j: nat | j < n ensures EntryAt(m, table, j) != 0 && CString(m, EntryAt(m, table, j)) == w[j] {
        assert EntryAt(m, table, j) == start + |Joined(v[..from + j])|;
        PackedString(m, start, v, from + j);
      }
      TableThere(m, table, n, w);
    }

    /** `while (get_fs_byte(p++))` */
    method SkipString(p: nat, ghost s: Str) returns (q: nat)
      requires IsString(s) && p + |s| < mem.Length && mem[p..p + |s|] == s && mem[p + |s|] == 0
      ensures q == p + |s| + 1
    {
      q := p;
      while mem[q] != 0
        invariant p <= q <= p + |s|
        decreases p + |s| - q
      {
        q := q + 1;
        assert q - 1 < p + |s|;
      }
      q := q + 1;
    }
  
    /** The three words below the tables. */
    method PutHeader(sp: nat, argc: nat, args: nat, envp: nat, ghost start: nat, ghost v: seq<Str>)
      requires Packed(start, v) && sp + 12 <= start && argc < 0x1_0000_0000 && args < 0x1_0000_0000 && envp < 0x1_0000_0000
      modifies mem
      ensures Packed(start, v) && start <= mem.Length && Word(mem[..], sp) == argc && Word(mem[..], sp + 4) == args && Word(mem[..], sp + 8) == envp
    {
      hide Packed, Word;
      PackedFits(start, v);
      PutBelow(sp + 8, envp, start, v);
      ghost var m := mem[..];
      PutBelow(sp + 4, args, start, v);
      ghost var m1 := mem[..];
      WordKept(m, m1, sp + 8);
      PutBelow(sp, argc, start, v);
      WordKept(m1, mem[..], sp + 4);
      WordKept(m1, mem[..], sp + 8);
    }

    method PutTables(args: nat, argc: nat, envc: nat, p: nat, ghost v: seq<Str>)
      requires Packed(p, v) && argc + envc <= |v| && args + 4 * (argc + 1) + 4 * (envc + 1) <= p
      modifies mem
      ensures Packed(p, v) && Table(mem[..], args) == v[..argc] && Table(mem[..], args + 4 * (argc + 1)) == v[argc..argc + envc]
      ensures forall b | 0 <= b < args && b < mem.Length :: mem[b] == old(mem[b])
    {
      hide Packed, Table, Word;
      PackedFits(p, v);
      var envp := args + 4 * (argc + 1);
      assert Joined(v[..0]) == [];
      var next := PutTable(args, p, argc, p, v, 0);
      ghost var m1 := mem[..];
      next := PutTable(envp, next, envc, p, v, argc);
      EntriesKept(m1, mem[..], args, argc, p, v, 0);
      WordKept(m1, mem[..], args + 4 * argc);
      PackedFits(p, v);
      hide Entries;
      TableReads(mem[..], args, argc, p, v, 0);
      TableReads(mem[..], envp, envc, p, v, argc);
      assert v[..argc] == v[0..argc];
    }

    /** create_tables: the strings v start at p, those of argv first. */
    method CreateTables(p: nat, argc: nat, envc: nat, ghost v: seq<Str>) returns (sp: nat)
      requires Packed(p, v) && argc + envc <= |v| && 4 * (argc + envc) + 24 <= p
      modifies mem
      ensures sp > 0 && Finds(mem[..], sp, v[..argc], v[argc..argc + envc])
    {
      hide Packed, Table, Word;
      PackedFits(p, v);
      sp := p / 4 * 4 - 4 * (envc + 1);
      var envp := sp;
      sp := sp - 4 * (argc + 1);
      var args := sp;
      sp := sp - 12;
      PutHeader(sp, argc, args, envp, p, v);
      ghost var m := mem[..];
      PutTables(args, argc, envc, p, v);
      WordKept(m, mem[..], sp);
      WordKept(m, mem[..], sp + 4);
      WordKept(m, mem[..], sp + 8);
    }
  }

  // ----- the #! line ----------------------------------------------------------------------------------

  method StrNCpy(buf: array<Byte>, src: seq<Byte>)
    requires buf.Length == BUF && |src| == BUF - 1
    modifies buf
    ensures Buffered(buf[..], src)
  {
    var i := 0;
    while i < BUF - 1 && src[i] != 0
      invariant i <= BUF - 1 && NonZero(src, i) && forall k | 0 <= k < i :: buf[k] == src[k]
    {
      buf[i] := src[i];
      i := i + 1;
    }
    ghost var z := i;
    while i < BUF
      invariant z <= i <= BUF && (forall k | 0 <= k < z :: buf[k] == src[k]) && forall k | z <= k < i :: buf[k] == 0
    {
      buf[i] := 0;
      i := i + 1;
    }
  }

  /** strchr(buf, '\n') */
  method FindNewline(buf: array<Byte>) returns (n: nat)
    requires buf.Length == BUF && buf[BUF - 1] == 0
    ensures n < BUF && InLine(buf[..n]) && buf[n] in {0, 10}
  {
    n := 0;
    while buf[n] != 0 && buf[n] != 10
      invariant n < BUF && forall k | 0 <= k < n :: buf[k] != 0 && buf[k] != 10
      decreases BUF - n
    {
      n := n + 1;
    }
  }

  method SkipBlanks(buf: array<Byte>, n: nat) returns (cp: nat)
    requires n < buf.Length && buf[n] == 0
    ensures cp <= n && Blanks(buf[..cp]) && !IsBlank(buf[cp])
  {
    cp := 0;
    while IsBlank(buf[cp])
      invariant cp <= n && forall k | 0 <= k < cp :: IsBlank(buf[k])
      decreases n - cp
    {
      cp := cp + 1;
    }
  }

  /** The end of the word at cp, and where its part after the last slash begins. */
  method ScanWord(buf: array<Byte>, cp: nat, n: nat) returns (end: nat, name: nat)
    requires cp <= n < buf.Length && buf[n] == 0
    ensures cp <= name <= end <= n && (forall k | cp <= k < end :: !IsBlank(buf[k])) && (buf[end] == 0 || IsBlank(buf[end]))
    ensures (forall k | name <= k < end :: buf[k] != 47) && (name > cp ==> buf[name - 1] == 47)
  {
    end, name := cp, cp;
    while buf[end] != 0 && !IsBlank(buf[end])
      invariant cp <= name <= end <= n && (forall k | cp <= k < end :: !IsBlank(buf[k]))
      invariant (forall k | name <= k < end :: buf[k] != 47) && (name > cp ==> buf[name - 1] == 47)
      decreases n - end
    {
      if buf[end] == 47 { name := end + 1; }
      end := end + 1;
    }
  }

  /** The scan of the line in the buffer, which ends at n. */
  method ScanLine(buf: array<Byte>, n: nat) returns (h: Header)
    requires n < buf.Length && InLine(buf[..n]) && buf[n] == 0
    modifies buf
    ensures var s := Skip(old(buf[..n])); h == if s == [] then NoInterpreter else Script(Divided(s))
  {
    ghost var line := buf[..n];
    var cp := SkipBlanks(buf, n);
    assert line[..cp] == buf[..cp];
    SkipIs(line, cp);
    ghost var s := line[cp..];
    if buf[cp] == 0 {
      LineEnd(buf[..], cp, n);
      return NoInterpreter;
    }
    var end, name := ScanWord(buf, cp, n);
    LineEnd(buf[..], end, n);
    assert WordAt(buf[..], cp, end, name, n);
    h := Pieces(buf, cp, end, name, n);
  }

  lemma LineEnd(m: seq<Byte>, k: nat, n: nat)
    requires k <= n < |m| && InLine(m[..n]) && m[n] == 0
    ensures m[k] == 0 <==> k == n
  {
    forall i | 0 <= i < n ensures m[i] != 0 { assert m[i] == m[..n][i]; }
  }

  lemma SliceOfSlice(m: seq<Byte>, cp: nat, n: nat, a: nat, b: nat)
    requires cp <= a <= b <= n <= |m|
    ensures m[cp..n][a - cp..b - cp] == m[a..b]
  {
    var s, t := m[cp..n][a - cp..b - cp], m[a..b];
    forall k | 0 <= k < b - a ensures s[k] == t[k] { assert m[cp..n][a - cp + k] == m[a + k]; }
  }

  /** The interpreter, its name and its argument, cut out of the line with a zero. */
  method Pieces(buf: array<Byte>, cp: nat, end: nat, name: nat, n: nat) returns (h: Header)
    requires cp <= name <= end <= n < buf.Length && InLine(buf[..n]) && buf[n] == 0 && WordAt(buf[..], cp, end, name, n)
    modifies buf
    ensures h == Script(Divided(old(buf[cp..n])))
  {
    ghost var was := buf[..];
    assert was[..n] == buf[..n] && was[cp..n] == buf[cp..n];
    CutLine(was, cp, end, name, n);
    LineEnd(was, end, n);
    var hasArg := buf[end] != 0;
    if hasArg { buf[end] := 0; }
    assert buf[..] == was[end := 0];
    hide Divided, CString, InLine, IsBlank;
    var interp, base := CString(buf[..], cp), CString(buf[..], name);
    var arg := if hasArg then Some(CString(buf[..], end + 1)) else None;
    h := Script(Bang(interp, base, arg));
  }

  /** The word of the line from cp to n, in terms of the buffer. */
  predicate WordAt(m: seq<Byte>, cp: nat, end: nat, name: nat, n: nat)
    requires cp <= name <= end <= n < |m|
  {
    && (forall k | cp <= k < end :: !IsBlank(m[k])) && (end < n ==> IsBlank(m[end]))
    && (forall k | name <= k < end :: m[k] != 47) && (name > cp ==> m[name - 1] == 47)
  }

  /** The three strings, once the blank behind the interpreter is a zero. */
  lemma CutLine(was: seq<Byte>, cp: nat, end: nat, name: nat, n: nat)
    requires cp <= name <= end <= n < |was| && InLine(was[..n]) && was[n] == 0 && WordAt(was, cp, end, name, n)
    ensures var m := was[end := 0];
      Divided(was[cp..n]) == Bang(CString(m, cp), CString(m, name), if end < n then Some(CString(m, end + 1)) else None)
  {
    hide Divided, CString, InLine, IsBlank, WordAt;
    var s := was[cp..n];
    DividedAt(was, cp, end, name, n, s);
    Piece(was, end, n, cp, cp, end);
    Piece(was, end, n, cp, name, end);
    if end < n { Piece(was, end, n, cp, end + 1, n); }
  }

  lemma DividedAt(was: seq<Byte>, cp: nat, end: nat, name: nat, n: nat, s: Str)
    requires cp <= name <= end <= n < |was| && WordAt(was, cp, end, name, n)
    requires s == was[cp..n]
    ensures Divided(s) == Bang(s[0..end - cp], s[name - cp..end - cp], if end < n then Some(s[end + 1 - cp..n - cp]) else None)
  {
    hide Divided, IsBlank;
    WordMoved(was, cp, end, name, n, s);
    hide WordAt;
    DividedIs(s, end - cp, name - cp);
  }

  lemma WordMoved(was: seq<Byte>, cp: nat, end: nat, name: nat, n: nat, s: Str)
    requires cp <= name <= end <= n < |was| && WordAt(was, cp, end, name, n) && s == was[cp..n]
    ensures (forall k | 0 <= k < end - cp :: !IsBlank(s[k])) && (end - cp < |s| ==> IsBlank(s[end - cp]))
    ensures (forall k | name - cp <= k < end - cp :: s[k] != 47) && (name > cp ==> s[name - cp - 1] == 47)
  {
    hide IsBlank;
  }

  /** A part of the line, up to the zero at its end. */
  lemma Piece(was: seq<Byte>, end: nat, n: nat, cp: nat, a: nat, b: nat)
    requires cp <= end <= n < |was| && InLine(was[..n]) && was[n] == 0 && cp <= a <= b <= n && b in {end, n} && (a <= end ==> b == end)
    ensures CString(was[end := 0], a) == was[cp..n][a - cp..b - cp]
  {
    var m, s := was[end := 0], was[a..b];
    forall k | 0 <= k < |s| ensures s[k] != 0 { assert s[k] == was[..n][a + k]; }
    assert m[a..a + |s|] == s;
    StringThere(m, a, s);
    SliceOfSlice(was, cp, n, a, b);
  }

  lemma DividedIs(s: Str, w: nat, j: nat)
    requires j <= w <= |s| && (forall k | 0 <= k < w :: !IsBlank(s[k])) && (w < |s| ==> IsBlank(s[w]))
    requires (forall k | j <= k < w :: s[k] != 47) && (j > 0 ==> s[j - 1] == 47)
    ensures Divided(s) == Bang(s[0..w], s[j..w], if w < |s| then Some(s[w + 1..|s|]) else None)
  {
    WordIs(s, w);
    hide WordLength, BaseName, IsBlank;
    var t := s[..w];
    BaseNameIs(t, j);
    assert t == s[0..w] && t[j..] == s[j..w];
    if w < |s| { assert s[w + 1..] == s[w + 1..|s|]; }
  }

  /** The first block of the file, as do_execve reads it. */
  method ReadHeader(block: seq<Byte>) returns (h: Header)
    requires |block| == 1024
    ensures h == Interpret(block)
    ensures h == Binary <==> !(block[0] == '#' as int && block[1] == '!' as int)
  {
    if block[0] != 35 || block[1] != 33 { return Binary; }
    var buf := new Byte[BUF](_ => 0);
    StrNCpy(buf, block[2..]);
    var n := FindNewline(buf);
    FoundLine(buf[..], block[2..], n);
    assert buf[..][..n] == buf[..n];
    if buf[n] == 0 { return NoInterpreter; }
    ghost var line := buf[..n];
    buf[n] := 0;
    assert buf[..n] == line;
    h := ScanLine(buf, n);
  }

  const DATA_LIMIT: nat := 0x4000000

  /** The strings spliced in front of a script's arguments, in reverse order. */
  method CopySpliced(pages: ArgPages, filename: Str, b: Bang, p0: nat, argc0: int, ghost d: seq<Str>) returns (p: nat, argc: int)
    requires pages.Valid() && |Joined(Spliced(b, filename) + d)| < AREA - 4 && (p0 == 0 ==> pages.free == 0)
    requires p0 != 0 ==> p0 == AREA - 4 - |Joined(d)| && pages.Area()[p0..AREA - 4] == Joined(d)
    modifies pages`free, pages.page
    ensures pages.Valid() && argc == argc0 + |Spliced(b, filename)| && (p == 0 ==> pages.free == 0)
    ensures p != 0 ==> p == AREA - 4 - |Joined(Spliced(b, filename) + d)| && pages.Area()[p..AREA - 4] == Joined(Spliced(b, filename) + d)
  {
    hide Joined;
    ghost var all := Spliced(b, filename) + d;
    ghost var e := [filename] + d;
    Fits([b.name] + (if b.arg.Some? then [b.arg.value] else []), e, all);
    p := pages.Push(1, [filename], p0, d);
    argc := argc0 + 1;
    if b.arg.Some? {
      Fits([b.name], [b.arg.value] + e, all);
      p := pages.Push(1, [b.arg.value], p, e);
      e := [b.arg.value] + e;
      argc := argc + 1;
    }
    assert [b.name] + e == all;
    p := pages.Push(1, [b.name], p, e);
    argc := argc + 1;
  }

  /** The argument part of do_execve: copy_strings before the point of no return. */
  method CopyArguments(pages: ArgPages, filename: Str, argv: seq<Str>, envp: seq<Str>, bang: Option<Bang>) returns (p: nat, argc: int)
    requires pages.Valid() && pages.page[..] == seq(MAX_ARG_PAGES, _ => [])
    requires |Joined(Vector(bang, filename, argv) + envp)| < AREA - 4
    modifies pages`free, pages.page
    ensures pages.Valid() && argc == Count(bang, argv) && (p == 0 ==> pages.free == 0)
    ensures p != 0 ==> var all := Vector(bang, filename, argv) + envp;
      p == AREA - 4 - |Joined(all)| && pages.Area()[p..AREA - 4] == Joined(all)
  {
    ghost var all := Vector(bang, filename, argv) + envp;
    p, argc := AREA - 4, |argv|;
    assert Joined([]) == [];
    hide Joined;
    assert envp + [] == envp;
    if bang.Some? {
      ghost var rest := if argv == [] then [] else argv[1..];
      assert all == Spliced(bang.value, filename) + (rest + envp);
      Fits(Spliced(bang.value, filename) + rest, envp, all);
      p := pages.Push(|envp|, envp, p, []);
      argc := argc - 1;
      Fits(Spliced(bang.value, filename), rest + envp, all);
      p := pages.Push(argc, if argv == [] then [] else argv[1..], p, envp);
      p, argc := CopySpliced(pages, filename, bang.value, p, argc, rest + envp);
    } else {
      Fits(argv, envp, all);
      p := pages.Push(|envp|, envp, p, []);
      p := pages.Push(argc, argv, p, envp);
    }
  }

  lemma Fits(u: seq<Str>, v: seq<Str>, all: seq<Str>)
    requires all == u + v
    ensures |Joined(v)| <= |Joined(all)|
  {
    JoinedBoth(u, v);
  }

  /** The round trip.  The new program finds, following argc, argv and envp on its stack, the vector and the
      environment it was given; for a script the vector starts with what its first line says.  A script run with
      an empty argv loses its file name to the environment. */
  method BuildArguments(pages: ArgPages, user: UserMemory, block: seq<Byte>, filename: Str, argv: seq<Str>, envp: seq<Str>) returns (h: Header, sp: nat)
    requires pages.Valid() && pages.page[..] == seq(MAX_ARG_PAGES, _ => []) && user.mem.Length == DATA_LIMIT && user.mem as object != pages.page
    requires |block| == 1024 && IsString(filename) && Strings(argv) && Strings(envp)
    requires |Joined(Vector(BangOf(Interpret(block)), filename, argv) + envp)| < AREA - 4
    modifies pages`free, pages.page, user.mem
    ensures h == Interpret(block) && (sp == 0 ==> h == NoInterpreter || pages.free == 0) && (h == NoInterpreter ==> sp == 0)
    ensures sp != 0 ==>
      var all := Vector(BangOf(h), filename, argv) + envp;
      var argc := Count(BangOf(h), argv);
      Finds(user.mem[..], sp, all[..argc], all[argc..argc + |envp|])
    ensures sp != 0 && (h == Binary || argv != []) ==> Finds(user.mem[..], sp, Vector(BangOf(h), filename, argv), envp)
    ensures sp != 0 && h == Binary ==> Finds(user.mem[..], sp, argv, envp)
    ensures sp != 0 && h.Script? ==> ScriptFinds(user.mem[..], sp, h.bang, filename, argv, envp)
  {
    h := ReadHeader(block);
    if h == NoInterpreter { return h, 0; }
    VectorStrings(block, filename, argv);
    sp := PlaceArguments(pages, user, filename, argv, envp, BangOf(h));
    hide Finds, ScriptFinds, Joined, Interpret;
    if sp != 0 && h.Script? { ScriptVector(user.mem[..], sp, h.bang, filename, argv, envp); }
  }

  method PlaceArguments(pages: ArgPages, user: UserMemory, filename: Str, argv: seq<Str>, envp: seq<Str>, bang: Option<Bang>) returns (sp: nat)
    requires pages.Valid() && pages.page[..] == seq(MAX_ARG_PAGES, _ => []) && user.mem.Length == DATA_LIMIT && user.mem as object != pages.page
    requires Strings(Vector(bang, filename, argv)) && Strings(envp) && |Joined(Vector(bang, filename, argv) + envp)| < AREA - 4
    modifies pages`free, pages.page, user.mem
    ensures sp == 0 ==> pages.free == 0
    ensures sp != 0 ==>
      var all := Vector(bang, filename, argv) + envp;
      var argc := Count(bang, argv);
      Finds(user.mem[..], sp, all[..argc], all[argc..argc + |envp|])
    ensures sp != 0 && (bang.None? || argv != []) ==> Finds(user.mem[..], sp, Vector(bang, filename, argv), envp)
  {
    ghost var vector := Vector(bang, filename, argv);
    ghost var all := vector + envp;
    CountIsRight(bang, filename, argv);
    var p, argc := CopyArguments(pages, filename, argv, envp, bang);
    if p == 0 { return 0; }
    assert |all| == |vector| + |envp|;
    hide Finds, Joined, Vector, Count, Strings;
    user.TakePages(pages);
    ghost var start := p + (DATA_LIMIT - AREA);
    TopOfMemory(user.mem[..], pages.Area(), p, Joined(all));
    sp := user.CreateTables(p + (DATA_LIMIT - AREA), argc, |envp|, all);
    assert all[..|vector|] == vector && all[|vector|..|vector| + |envp|] == envp;
  }

  /** The packed strings at the top of the data segment. */
  lemma TopOfMemory(mem: seq<Byte>, area: seq<Byte>, p: nat, packed: seq<Byte>)
    requires |area| == AREA && |mem| >= AREA && p + |packed| <= AREA && area[p..p + |packed|] == packed
    requires forall k | 0 <= k < AREA :: mem[|mem| - AREA + k] == area[k]
    ensures var q := p + (|mem| - AREA); mem[q..q + |packed|] == packed
  {
    var q := p + (|mem| - AREA);
    forall k | 0 <= k < |packed| ensures mem[q..q + |packed|][k] == packed[k] { assert area[p..p + |packed|][k] == area[p + k]; }
  }
}
