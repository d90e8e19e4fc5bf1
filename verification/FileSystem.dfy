// The device in memory, changed in place: bitmap bits, index entries, data bytes and inodes.

module FileSystem {
  import opened Common
  import opened FileModel
  import opened FileTrees
  import opened FileBytes
  import opened FileTruncate

  class Device {
    const first: nat
    const nzones: nat
    const block: array<Block>
    const bit: array<bool>
    const inode: array<Inode>

    ghost predicate Valid()
      reads this, block, bit, inode
    {
      && block as object != bit && block as object != inode && bit as object != inode
      && Inv(Abs())
    }

    ghost function Abs(): Fs
      reads this, block, bit, inode
    {
      Fs(block[..], bit[..], inode[..], first, nzones)
    }

    constructor (fs: Fs)
      requires Inv(fs)
      ensures Valid() && Abs() == fs && fresh(block) && fresh(bit) && fresh(inode)
    {
      first := fs.first;
      nzones := fs.nzones;
      block := new Block[|fs.block|](k requires 0 <= k < |fs.block| => fs.block[k]);
      bit := new bool[|fs.bit|](k requires 0 <= k < |fs.bit| => fs.bit[k]);
      inode := new Inode[|fs.inode|](k requires 0 <= k < |fs.inode| => fs.inode[k]);
      new;
      assert block[..] == fs.block && bit[..] == fs.bit && inode[..] == fs.inode;
    }

    // ----- bitmap.c ----------------------------------------------------------------------

    method AllocateBlock() returns (z: nat)
      requires Valid()
      modifies block, bit
      ensures (Abs(), z) == NewBlock(old(Abs()))
    {
      var j := 0;
      while j < bit.Length && bit[j]
        invariant 0 <= j <= bit.Length && FirstZero(bit[..], 0) == FirstZero(bit[..], j)
      {
        j := j + 1;
      }
      if j == bit.Length { return 0; }
      bit[j] := true;
      z := j + first - 1;
      if z >= nzones { return 0; }
      block[z] := ZeroBlock();
    }

    /** free_block panics unless its zone is a data zone that is marked used. */
    method FreeBlock(z: nat)
      requires first <= z < nzones && nzones - first < bit.Length && bit[z - first + 1]
      modifies bit
      ensures bit[..] == old(bit[..])[z - first + 1 := false]
    {
      bit[z - first + 1] := false;
    }

    // ----- inode.c -----------------------------------------------------------------------

    /** The state and zone _bmap leaves at a place. */
    static ghost function Mapped(fs: Fs, i: nat, p: Path, create: bool): (Fs, nat)
      requires Shape(fs) && i < |fs.inode| && Ok(p)
    {
      if create then Create(fs, i, p) else (fs, ZoneAt(fs, i, p))
    }

    static lemma MappedUnder(fs: Fs, i: nat, p: Path, create: bool)
      requires Inv(fs) && i < |fs.inode| && Ok(p) && !IsRoot(p)
      ensures Mapped(fs, i, Parent(p), create).1 == 0 ==> Mapped(fs, i, p, create) == (Mapped(fs, i, Parent(p), create).0, 0)
      ensures Mapped(fs, i, Parent(p), create).1 != 0 ==>
        InTree(Mapped(fs, i, Parent(p), create).0, i, Parent(p)) &&
        ZoneAt(Mapped(fs, i, Parent(p), create).0, i, Parent(p)) == Mapped(fs, i, Parent(p), create).1 &&
        Mapped(fs, i, p, create) == var g := Mapped(fs, i, Parent(p), create).0; if create then Grow(g, i, p) else (g, ZoneAt(g, i, p))
    {
      CreateStep(fs, i, Parent(p));
    }

    /** One level of _bmap at an element of i_zone. */
    method RootZone(i: nat, ghost p: Path, slot: nat, create: bool) returns (z: nat)
      requires Valid() && i < inode.Length && Ok(p) && IsRoot(p) && RootSlot(p) == slot
      modifies block, bit, inode
      ensures Valid() && (Abs(), z) == Mapped(old(Abs()), i, p, create)
    {
      ghost var fs := Abs();
      GrowStep(fs, i, p);
      if create && inode[i].zone[slot] == 0 {
        z := AllocateBlock();
        if z != 0 {
          inode[i] := inode[i].(zone := inode[i].zone[slot := z]);
        }
      }
      z := inode[i].zone[slot];
      assert Abs().inode == if create then Grow(fs, i, p).0.inode else fs.inode;
    }

    /** One level of _bmap at entry k of the index zone y. */
    method EntryZone(ghost i: nat, ghost p: Path, y: nat, k: nat, create: bool) returns (z: nat)
      requires Valid() && i < inode.Length && Ok(p) && !IsRoot(p) && Slot(p) == k
      requires y != 0 && y == ZoneAt(Abs(), i, Parent(p))
      modifies block, bit
      ensures Valid() && (Abs(), z) == if create then Grow(old(Abs()), i, p) else (old(Abs()), ZoneAt(old(Abs()), i, p))
    {
      ghost var fs := Abs();
      assert InTree(fs, i, Parent(p));
      GrowStep(fs, i, p);
      z := Entry(block[y], k);
      if create && z == 0 {
        NewBlockStep(fs);
        z := AllocateBlock();
        if z != 0 {
          assert y == ZoneAt(Abs(), i, Parent(p));
          block[y] := SetEntry(block[y], k, z);
        }
      }
      assert Abs().block == if create then Grow(fs, i, p).0.block else fs.block;
    }

    /** The next level after y != 0: the same, seen from the state fs in which _bmap started. */
    method NextLevel(ghost fs: Fs, ghost i: nat, ghost p: Path, y: nat, k: nat, create: bool) returns (z: nat)
      requires Valid() && Inv(fs) && i < |fs.inode| && Ok(p) && !IsRoot(p) && Slot(p) == k
      requires y != 0 && (Abs(), y) == Mapped(fs, i, Parent(p), create)
      modifies block, bit
      ensures Valid() && (Abs(), z) == Mapped(fs, i, p, create)
    {
      hide Inv, Grow, ZoneAt, Mapped;
      MappedUnder(fs, i, p, create);
      z := EntryZone(i, p, y, k, create);
    }

    /** _bmap; bmap when create is false, create_block when it is true.  Both panic beyond MAX_BLOCKS. */
    method Bmap(i: nat, b: nat, create: bool) returns (z: nat)
      requires Valid() && i < inode.Length && b < MAX_BLOCKS
      modifies block, bit, inode
      ensures Valid() && (Abs(), z) == Mapped(old(Abs()), i, PathOf(b), create)
    {
      ghost var fs := Abs();
      if b < 7 {
        z := RootZone(i, Direct(b), b, create);
        return;
      }
      var c := b - 7;
      if c < 512 {
        z := RootZone(i, Ind, 7, create);
        MappedUnder(fs, i, IndData(c), create);
        if z == 0 { return; }
        z := NextLevel(fs, i, IndData(c), z, c, create);
        return;
      }
      c := c - 512;
      z := DoubleBmap(i, c, create);
    }

    /** The rest of _bmap, for blocks under the index zone of index zones. */
    method DoubleBmap(i: nat, c: nat, create: bool) returns (z: nat)
      requires Valid() && i < inode.Length && c < 512 * 512
      modifies block, bit, inode
      ensures Valid() && (Abs(), z) == Mapped(old(Abs()), i, PathOf(519 + c), create)
    {
      ghost var fs := Abs();
      z := RootZone(i, Dind, 8, create);
      MappedUnder(fs, i, DindInd(c / 512), create);
      MappedUnder(fs, i, DindData(c / 512, c % 512), create);
      if z == 0 { return; }
      z := NextLevel(fs, i, DindInd(c / 512), z, c / 512, create);
      if z == 0 { return; }
      z := NextLevel(fs, i, DindData(c / 512, c % 512), z, c % 512, create);
    }
  
    // ----- file_dev.c --------------------------------------------------------------------

    /** The copy loop of file_write: data into the block of zone z from offset c on. */
    method PutBytes(z: nat, c: nat, data: seq<Byte>)
      requires z < block.Length && c + |data| <= BLOCK_SIZE
      modifies block
      ensures block[..] == old(block[..])[z := Patch(old(block[z]), c, data)]
    {
      ghost var before := block[z];
      var k := 0;
      assert Patch(before, c, []) == before;
      while k < |data|
        invariant 0 <= k <= |data|
        invariant block[..] == old(block[..])[z := Patch(before, c, data[..k])]
      {
        block[z] := block[z][c + k := data[k]];
        assert block[z] == Patch(before, c, data[..k + 1]);
        k := k + 1;
      }
      assert data[..k] == data;
    }

    /** i_size if it grows, then the bytes. */
    method StoreChunk(i: nat, z: nat, pos: nat, data: seq<Byte>)
      requires Shape(Abs()) && i < inode.Length && z < nzones && pos % BLOCK_SIZE + |data| <= BLOCK_SIZE && block as object != inode
      modifies block, inode
      ensures Abs() == PutChunk(old(Abs()), i, z, pos, data)
    {
      if pos + |data| > inode[i].size {
        inode[i] := inode[i].(size := pos + |data|);
      }
      PutBytes(z, pos % BLOCK_SIZE, data);
      assert inode[..] == PutChunk(old(Abs()), i, z, pos, data).inode;
    }

    static lemma ChunkAfter(fs: Fs, g: Fs, i: nat, z: nat, pos: nat, data: seq<Byte>)
      requires Inv(g) && Written(fs, g, i, pos, []) && z != 0 && pos < MAX_BYTES && z == ZoneAt(g, i, PathOf(pos / BLOCK_SIZE))
      requires 0 < |data| && pos % BLOCK_SIZE + |data| <= BLOCK_SIZE
      ensures z < g.nzones && Inv(PutChunk(g, i, z, pos, data)) && Written(fs, PutChunk(g, i, z, pos, data), i, pos, data)
    {
      hide Inv, ZoneAt, PathOf, Patch, ByteAt;
      PutChunkStep(g, i, pos, data);
      WrittenTwice(fs, g, PutChunk(g, i, z, pos, data), i, pos, [], data);
      assert [] + data == data;
    }

    static lemma RoomMade(fs: Fs, i: nat, pos: nat)
      requires Inv(fs) && i < |fs.inode| && pos < MAX_BYTES
      ensures var (g, z) := Create(fs, i, PathOf(pos / BLOCK_SIZE));
        Inv(g) && Written(fs, g, i, pos, []) && z == ZoneAt(g, i, PathOf(pos / BLOCK_SIZE)) && (z == 0 ==> Full(g))
    {
      CreateStep(fs, i, PathOf(pos / BLOCK_SIZE));
      SameBytesWritten(fs, Create(fs, i, PathOf(pos / BLOCK_SIZE)).0, i, pos);
    }

    /** One round of the loop of file_write: false if there was no room. */
    method WriteChunk(i: nat, pos: nat, data: seq<Byte>) returns (ok: bool)
      requires Valid() && i < inode.Length && pos < MAX_BYTES && 0 < |data| && pos % BLOCK_SIZE + |data| <= BLOCK_SIZE
      modifies block, bit, inode
      ensures Valid() && Written(old(Abs()), Abs(), i, pos, if ok then data else [])
      ensures !ok ==> Full(Abs())
    {
      ghost var fs := Abs();
      RoomMade(fs, i, pos);
      var z := Bmap(i, pos / BLOCK_SIZE, true);
      if z == 0 { return false; }
      ChunkAfter(fs, Abs(), i, z, pos, data);
      StoreChunk(i, z, pos, data);
      ok := true;
    }

    static lemma WrittenMore(fs: Fs, g: Fs, r: Fs, i: nat, pos: nat, buf: seq<Byte>, done: nat, c: nat)
      requires done + c <= |buf| && Written(fs, g, i, pos, buf[..done]) && Written(g, r, i, pos + done, buf[done..done + c])
      ensures Written(fs, r, i, pos, buf[..done + c])
    {
      WrittenTwice(fs, g, r, i, pos, buf[..done], buf[done..done + c]);
      assert buf[..done] + buf[done..done + c] == buf[..done + c];
    }

    static function ToBlockEnd(pos: nat): (c: nat)
      ensures 0 < c && pos % BLOCK_SIZE + c == BLOCK_SIZE
    {
      BLOCK_SIZE - pos % BLOCK_SIZE
    }

    /** One round of file_write's loop: up to the end of a block or of the buffer. */
    method WriteRound(ghost fs: Fs, i: nat, pos: nat, buf: seq<Byte>, done: nat) returns (c: nat)
      requires Valid() && i < inode.Length && pos + |buf| <= MAX_BYTES && done < |buf| && Written(fs, Abs(), i, pos, buf[..done])
      modifies block, bit, inode
      ensures Valid() && done + c <= |buf| && Written(fs, Abs(), i, pos, buf[..done + c]) && (c == 0 ==> Full(Abs()))
    {
      c := ToBlockEnd(pos + done);
      if c > |buf| - done { c := |buf| - done; }
      ghost var g := Abs();
      hide Valid, Written, Inv, Abs, Full, ToBlockEnd;
      var ok := WriteChunk(i, pos + done, buf[done..done + c]);
      if !ok { c := 0; }
      assert buf[done..done] == [];
      WrittenMore(fs, g, Abs(), i, pos, buf, done, c);
    }

    /** The loop of file_write; fs is the device before it. */
    method WriteLoop(ghost fs: Fs, i: nat, pos: nat, buf: seq<Byte>) returns (done: nat)
      requires Valid() && i < inode.Length && pos + |buf| <= MAX_BYTES && Written(fs, Abs(), i, pos, [])
      modifies block, bit, inode
      ensures Valid() && done <= |buf| && Written(fs, Abs(), i, pos, buf[..done])
      ensures done < |buf| ==> Full(Abs())
    {
      done := 0;
      assert buf[..0] == [];
      hide Valid, Written, Inv, Abs, Full;
      while done < |buf|
        invariant done <= |buf| && Valid() && Written(fs, Abs(), i, pos, buf[..done])
      {
        var c := WriteRound(fs, i, pos, buf, done);
        done := done + c;
        if c == 0 { return; }
      }
    }

    /** file_write.  It stops short only on a full device, and what it says it wrote is what it wrote:
        file i is its old bytes, zeros up to the start, overwritten by the first n of buf; no other
        file changed.  The original panics on blocks beyond MAX_BLOCKS. */
    method FileWrite(i: nat, append: bool, fpos: nat, buf: seq<Byte>) returns (n: int, fpos': nat)
      requires Valid() && Tidy(Abs()) && i < inode.Length
      requires (if append then inode[i].size else fpos) + |buf| <= MAX_BYTES
      modifies block, bit, inode
      ensures Valid() && Tidy(Abs()) && (n == -1 || 0 < n <= |buf|)
      ensures forall j: nat | j < inode.Length ::
        Content(Abs(), j) == if j == i && n > 0 then Overwrite(old(Content(Abs(), i)), old(if append then inode[i].size else fpos), buf[..n])
                             else old(Content(Abs(), j))
      ensures n < |buf| && buf != [] ==> Full(Abs())
      ensures fpos' == if append then fpos else if n > 0 then fpos + n else fpos
    {
      ghost var fs := Abs();
      var pos := if append then inode[i].size else fpos;
      SameBytesWritten(fs, fs, i, pos);
      var done := WriteLoop(fs, i, pos, buf);
      fpos' := if append then fpos else pos + done;
      n := if done > 0 then done else -1;
      WrittenTidy(fs, Abs(), i, pos, buf[..done]);
      forall j: nat | j < inode.Length
        ensures Content(Abs(), j) == if j == i then Overwrite(Content(fs, i), pos, buf[..done]) else Content(fs, j)
      {
        WrittenContent(fs, Abs(), i, pos, buf[..done], j);
      }
    }

    /** file_read of count bytes at pos, holes reading as zero. */
    method FileRead(i: nat, fpos: nat, count: nat) returns (buf: seq<Byte>, fpos': nat)
      requires Valid() && i < inode.Length && fpos + count <= MAX_BYTES
      ensures |buf| == count && fpos' == fpos + count
      ensures forall k | 0 <= k < count :: buf[k] == ByteAt(Abs(), i, fpos + k)
    {
      buf := [];
      fpos' := fpos;
      var left := count;
      while left > 0
        invariant 0 <= left <= count && |buf| == count - left && fpos' == fpos + |buf|
        invariant forall k | 0 <= k < |buf| :: buf[k] == ByteAt(Abs(), i, fpos + k)
      {
        var nr := fpos' % BLOCK_SIZE;
        var chars := if BLOCK_SIZE - nr < left then BLOCK_SIZE - nr else left;
        var z := Lookup(i, fpos' / BLOCK_SIZE);
        var k := 0;
        ghost var had := |buf|;
        while k < chars
          invariant 0 <= k <= chars && |buf| == had + k
          invariant forall k | 0 <= k < |buf| :: buf[k] == ByteAt(Abs(), i, fpos + k)
        {
          var x: Byte := if z != 0 then block[z][nr + k] else 0;
          assert (fpos' + k) / BLOCK_SIZE == fpos' / BLOCK_SIZE && (fpos' + k) % BLOCK_SIZE == nr + k;
          buf := buf + [x];
          k := k + 1;
        }
        fpos' := fpos' + chars;
        left := left - chars;
      }
    }

    /** bmap without create: it only reads. */
    method Lookup(i: nat, b: nat) returns (z: nat)
      requires Valid() && i < inode.Length && b < MAX_BLOCKS
      ensures z == ZoneAt(Abs(), i, PathOf(b)) && (z != 0 ==> z < block.Length)
    {
      var zone := inode[i].zone;
      if b < 7 {
        z := zone[b];
        assert z != 0 ==> InTree(Abs(), i, PathOf(b));
        return;
      }
      var c := b - 7;
      if c < 512 {
        assert zone[7] != 0 ==> InTree(Abs(), i, Ind);
        if zone[7] == 0 { return 0; }
        z := Entry(block[zone[7]], c);
        assert z != 0 ==> InTree(Abs(), i, PathOf(b));
        return;
      }
      c := c - 512;
      assert zone[8] != 0 ==> InTree(Abs(), i, Dind);
      assert Parent(PathOf(b)) == DindInd(c / 512) && Parent(DindInd(c / 512)) == Dind;
      if zone[8] == 0 {
        assert ZoneAt(Abs(), i, DindInd(c / 512)) == 0;
        return 0;
      }
      z := Entry(block[zone[8]], c / 512);
      assert z == ZoneAt(Abs(), i, DindInd(c / 512));
      assert z != 0 ==> InTree(Abs(), i, DindInd(c / 512));
      if z == 0 { return 0; }
      z := Entry(block[z], c % 512);
      assert Parent(PathOf(b)) == DindInd(c / 512) && Slot(PathOf(b)) == c % 512;
      assert z == ZoneAt(Abs(), i, PathOf(b));
      assert z != 0 ==> InTree(Abs(), i, PathOf(b));
    }

    /** sys_read of a regular file: exactly the part of the file in [fpos, fpos + count). */
    method SysRead(i: nat, fpos: nat, count: nat) returns (buf: seq<Byte>, fpos': nat)
      requires Valid() && Tidy(Abs()) && i < inode.Length
      ensures inode[i].size <= MAX_BYTES
      ensures buf == if fpos >= inode[i].size then []
                     else if fpos + count > inode[i].size then Content(Abs(), i)[fpos..]
                     else Content(Abs(), i)[fpos..fpos + count]
      ensures fpos' == fpos + |buf|
    {
      assert ZeroBeyond(Abs(), i);
      if count == 0 { return [], fpos; }
      var n: int := count;
      if n + fpos > inode[i].size { n := inode[i].size - fpos; }
      if n <= 0 { return [], fpos; }
      buf, fpos' := FileRead(i, fpos, n);
      assert buf == Content(Abs(), i)[fpos..fpos + n];
    }

    // ----- truncate.c --------------------------------------------------------------------

    /** The loop of free_ind. */
    method FreeEntries(ghost fs: Fs, ghost i: nat, ghost p: Path, ghost gone: iset<Path>, z: nat)
      requires Inv(fs) && fs.first == first && fs.nzones == nzones && block[..] == fs.block && bit as object != block
      requires Ok(p) && (p.Ind? || p.DindInd?) && InTree(fs, i, p) && z == ZoneAt(fs, i, p)
      requires Cleared(fs, i, gone, bit[..]) && gone !! Under(p, ENTRIES)
      modifies bit
      ensures Cleared(fs, i, gone + Under(p, ENTRIES), bit[..])
    {
      assert gone + Under(p, 0) == gone;
      assert z < block.Length && nzones - first < bit.Length && InTree(fs, i, p);
      hide Inv, Cleared, Under, ZoneAt, Entry;
      var k := 0;
      while k < ENTRIES
        invariant 0 <= k <= ENTRIES && Cleared(fs, i, gone + Under(p, k), bit[..])
      {
        ClearEntry(fs, i, p, gone, k, bit[..]);
        var e := Entry(block[z], k);
        if e != 0 { FreeBlock(e); }
        k := k + 1;
      }
    }

    /** free_ind of the index zone z at the place p; the bits are counted against the device fs. */
    method FreeInd(ghost fs: Fs, ghost i: nat, ghost p: Path, ghost gone: iset<Path>, z: nat)
      requires Inv(fs) && fs.first == first && fs.nzones == nzones && block[..] == fs.block && bit as object != block
      requires i < |fs.inode| && Ok(p) && (p.Ind? || p.DindInd?) && z == ZoneAt(fs, i, p)
      requires Cleared(fs, i, gone, bit[..]) && p !in gone && gone !! Under(p, ENTRIES)
      modifies bit
      ensures Cleared(fs, i, gone + Under(p, ENTRIES) + iset{p}, bit[..])
    {
      if z == 0 {
        NothingUnder(fs, i, p);
        ClearNone(fs, i, gone, gone + Under(p, ENTRIES) + iset{p}, bit[..]);
        return;
      }
      FreeEntries(fs, i, p, gone, z);
      ClearOne(fs, i, gone + Under(p, ENTRIES), p, bit[..]);
      FreeBlock(z);
    }

    static lemma NothingUnder(fs: Fs, i: nat, p: Path)
      requires Shape(fs) && i < |fs.inode| && Ok(p) && ZoneAt(fs, i, p) == 0
      ensures forall q | Ok(q) && !IsRoot(q) && Parent(q) == p :: !InTree(fs, i, q)
    {
    }

    static function Below(p: Path, k: nat): (q: Path)
      requires Ok(p) && (p.Ind? || p.DindInd?) && k < ENTRIES
      ensures Ok(q) && !IsRoot(q) && Parent(q) == p && Slot(q) == k
    {
      if p.Ind? then IndData(k) else DindData(p.k, k)
    }

    static lemma ClearEntry(fs: Fs, i: nat, p: Path, gone: iset<Path>, k: nat, bit: seq<bool>)
      requires Inv(fs) && Ok(p) && (p.Ind? || p.DindInd?) && k < ENTRIES && InTree(fs, i, p)
      requires Cleared(fs, i, gone + Under(p, k), bit) && gone !! Under(p, ENTRIES)
      ensures InRange(fs, ZoneAt(fs, i, p))
      ensures var e := Entry(fs.block[ZoneAt(fs, i, p)], k);
        if e == 0 then Cleared(fs, i, gone + Under(p, k + 1), bit)
        else InRange(fs, e) && bit[e - fs.first + 1] && Cleared(fs, i, gone + Under(p, k + 1), bit[e - fs.first + 1 := false])
    {
      var q := Below(p, k);
      UnderNext(p, k);
      assert gone + Under(p, k + 1) == gone + Under(p, k) + iset{q};
      assert q in Under(p, ENTRIES) && q !in Under(p, k);
      assert Shape(fs) && i < |fs.inode| && InRange(fs, ZoneAt(fs, i, p));
      assert Entry(fs.block[ZoneAt(fs, i, p)], k) == ZoneAt(fs, i, q);
      hide Inv, Cleared, Under, ZoneAt, Entry;
      if InTree(fs, i, q) {
        ClearOne(fs, i, gone + Under(p, k), q, bit);
      } else {
        ClearNone(fs, i, gone + Under(p, k), gone + Under(p, k + 1), bit);
      }
    }

    static lemma UnderNext(p: Path, k: nat)
      requires Ok(p) && (p.Ind? || p.DindInd?) && k < ENTRIES
      ensures Under(p, k + 1) == Under(p, k) + iset{Below(p, k)}
    {
      forall o | o in Under(p, k + 1) ensures o in Under(p, k) + iset{Below(p, k)} {
        PlacesDiffer(o, Below(p, k));
      }
    }
  
    static lemma DindNext(k: nat)
      requires k < ENTRIES
      ensures UnderDind(k + 1) == UnderDind(k) + Under(DindInd(k), ENTRIES) + iset{DindInd(k)}
      ensures UnderDind(k) !! Under(DindInd(k), ENTRIES) && DindInd(k) !in UnderDind(k)
    {
      forall o | o in UnderDind(k + 1) ensures o in UnderDind(k) + Under(DindInd(k), ENTRIES) + iset{DindInd(k)} {
        if o.DindData? && o.k == k { assert Parent(o) == DindInd(k); }
      }
    }

    /** One round of free_dind's loop. */
    method FreeDindEntry(ghost fs: Fs, ghost i: nat, ghost gone: iset<Path>, z: nat, k: nat)
      requires Inv(fs) && fs.first == first && fs.nzones == nzones && block[..] == fs.block && bit as object != block
      requires InTree(fs, i, Dind) && z == ZoneAt(fs, i, Dind) && k < ENTRIES
      requires Cleared(fs, i, gone + UnderDind(k), bit[..]) && gone !! UnderDind(ENTRIES)
      modifies bit
      ensures Cleared(fs, i, gone + UnderDind(k + 1), bit[..])
    {
      DindNext(k);
      assert gone !! UnderDind(k + 1);
      assert gone + UnderDind(k + 1) == gone + UnderDind(k) + Under(DindInd(k), ENTRIES) + iset{DindInd(k)};
      assert z < block.Length && Entry(block[z], k) == ZoneAt(fs, i, DindInd(k));
      hide Inv, Cleared, Under, UnderDind;
      FreeInd(fs, i, DindInd(k), gone + UnderDind(k), Entry(block[z], k));
    }

    /** free_dind of the index zone z of index zones. */
    method FreeDind(ghost fs: Fs, ghost i: nat, ghost gone: iset<Path>, z: nat)
      requires Inv(fs) && fs.first == first && fs.nzones == nzones && block[..] == fs.block && bit as object != block
      requires i < |fs.inode| && z == ZoneAt(fs, i, Dind)
      requires Cleared(fs, i, gone, bit[..]) && Dind !in gone && gone !! UnderDind(ENTRIES)
      modifies bit
      ensures Cleared(fs, i, gone + UnderDind(ENTRIES) + iset{Dind}, bit[..])
    {
      if z == 0 {
        NothingUnderDind(fs, i);
        ClearNone(fs, i, gone, gone + UnderDind(ENTRIES) + iset{Dind}, bit[..]);
        return;
      }
      assert InTree(fs, i, Dind) && Dind !in gone + UnderDind(ENTRIES);
      assert gone + UnderDind(0) == gone;
      assert nzones - first < bit.Length;
      hide Inv, Cleared, UnderDind, ZoneAt, Freed;
      var k := 0;
      while k < ENTRIES
        invariant 0 <= k <= ENTRIES && Cleared(fs, i, gone + UnderDind(k), bit[..])
      {
        FreeDindEntry(fs, i, gone, z, k);
        k := k + 1;
      }
      ClearOne(fs, i, gone + UnderDind(ENTRIES), Dind, bit[..]);
      FreeBlock(z);
    }

    static lemma NothingUnderDind(fs: Fs, i: nat)
      requires Shape(fs) && i < |fs.inode| && ZoneAt(fs, i, Dind) == 0
      ensures forall q | q in UnderDind(ENTRIES) :: !InTree(fs, i, q)
    {
      forall q | q in UnderDind(ENTRIES) ensures !InTree(fs, i, q) {
        assert ZoneAt(fs, i, DindInd(q.k)) == 0;
      }
    }

    /** The loop of truncate over the direct zones. */
    method FreeDirects(i: nat)
      requires Valid() && i < inode.Length
      modifies bit, inode
      ensures Cleared(old(Abs()), i, Directs(DIRECT), bit[..])
      ensures inode[..] == old(inode[..])[i := old(inode[i]).(zone := [0, 0, 0, 0, 0, 0, 0] + old(inode[i]).zone[7..])]
    {
      ghost var fs := Abs();
      ghost var node := inode[i];
      assert Directs(0) == iset{};
      var k := 0;
      while k < DIRECT
        invariant 0 <= k <= DIRECT && Cleared(fs, i, Directs(k), bit[..])
        invariant |inode[i].zone| == 9 && inode[..] == fs.inode[i := node.(zone := inode[i].zone)]
        invariant (forall m | 0 <= m < k :: inode[i].zone[m] == 0) && forall m | k <= m < 9 :: inode[i].zone[m] == node.zone[m]
      {
        assert Directs(k + 1) == Directs(k) + iset{Direct(k)};
        assert inode[i].zone[k] == ZoneAt(fs, i, Direct(k));
        if inode[i].zone[k] != 0 {
          ClearOne(fs, i, Directs(k), Direct(k), bit[..]);
          FreeBlock(inode[i].zone[k]);
          inode[i] := inode[i].(zone := inode[i].zone[k := 0]);
        } else {
          ClearNone(fs, i, Directs(k), Directs(k + 1), bit[..]);
        }
        k := k + 1;
      }
      assert inode[i].zone == [0, 0, 0, 0, 0, 0, 0] + node.zone[7..];
    }

    static lemma AllPlaces()
      ensures Directs(DIRECT) + Under(Ind, ENTRIES) + iset{Ind} + UnderDind(ENTRIES) + iset{Dind} == All()
      ensures Ind !in Directs(DIRECT) && Directs(DIRECT) !! Under(Ind, ENTRIES)
      ensures Dind !in Directs(DIRECT) + Under(Ind, ENTRIES) + iset{Ind}
      ensures Directs(DIRECT) + Under(Ind, ENTRIES) + iset{Ind} !! UnderDind(ENTRIES)
    {
      forall o | o in All() ensures o in Directs(DIRECT) + Under(Ind, ENTRIES) + iset{Ind} + UnderDind(ENTRIES) + iset{Dind} {
        if o.IndData? { assert Parent(o) == Ind; }
      }
    }

    /** truncate of a regular file or directory.  free_block never finds its zone out of range or already
        clear, exactly the zones of the inode's tree are marked free, and every other file is untouched. */
    method Truncate(i: nat)
      requires Valid() && i < inode.Length
      modifies bit, inode
      ensures Valid() && Truncated(old(Abs()), Abs(), i)
      ensures Content(Abs(), i) == [] && forall j: nat | j < inode.Length && j != i :: Content(Abs(), j) == old(Content(Abs(), j))
      ensures old(Tidy(Abs())) ==> Tidy(Abs())
    {
      ghost var fs := Abs();
      AllPlaces();
      FreeDirects(i);
      assert inode[i].zone[7] == ZoneAt(fs, i, Ind) && inode[i].zone[8] == ZoneAt(fs, i, Dind);
      FreeInd(fs, i, Ind, Directs(DIRECT), inode[i].zone[7]);
      FreeDind(fs, i, Directs(DIRECT) + Under(Ind, ENTRIES) + iset{Ind}, inode[i].zone[8]);
      inode[i] := inode[i].(zone := inode[i].zone[7 := 0][8 := 0]);
      inode[i] := inode[i].(size := 0);
      assert inode[i] == Inode(0, [0, 0, 0, 0, 0, 0, 0, 0, 0]);
      TruncateStep(fs, Abs(), i);
      TruncatedContent(fs, Abs(), i);
    }

    static lemma TruncatedContent(fs: Fs, r: Fs, i: nat)
      requires Inv(fs) && Truncated(fs, r, i)
      ensures forall j: nat | j < |fs.inode| :: Content(r, j) == if j == i then [] else Content(fs, j)
      ensures Tidy(fs) ==> Tidy(r)
    {
      TruncateStep(fs, r, i);
      forall j: nat | j < |fs.inode| ensures Content(r, j) == if j == i then [] else Content(fs, j) {
        if j != i {
          forall at: nat | at < fs.inode[j].size ensures ByteAt(r, j, at) == ByteAt(fs, j, at) {}
        }
      }
      if Tidy(fs) {
        forall j: nat | j < |r.inode| ensures ZeroBeyond(r, j) { assert ZeroBeyond(fs, j); }
      }
    }
  }
}
