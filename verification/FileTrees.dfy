// The zone trees and the bitmap: allocation adds exactly one leaf, and nothing else moves.

module FileTrees {
  import opened FileModel

  lemma PlacesDiffer(p: Path, q: Path)
    requires Ok(p) && Ok(q)
    ensures IsRoot(p) && IsRoot(q) && RootSlot(p) == RootSlot(q) ==> p == q
    ensures !IsRoot(p) && !IsRoot(q) && Parent(p) == Parent(q) && Slot(p) == Slot(q) ==> p == q
  {
  }

  /** All places hold the zone numbers they held, except (i, p). */
  ghost predicate SameTreesBut(fs: Fs, r: Fs, i: nat, p: Path)
    requires Shape(fs) && Shape(r) && |r.inode| == |fs.inode|
  {
    forall j: nat, q | j < |fs.inode| && Ok(q) && (j, q) != (i, p) :: ZoneAt(r, j, q) == ZoneAt(fs, j, q)
  }

  ghost predicate SameTrees(fs: Fs, r: Fs)
    requires Shape(fs) && Shape(r) && |r.inode| == |fs.inode|
  {
    forall j: nat, q | j < |fs.inode| && Ok(q) :: ZoneAt(r, j, q) == ZoneAt(fs, j, q)
  }

  ghost predicate NotIndex(fs: Fs, z: nat)
    requires Shape(fs)
  {
    forall j: nat, q | InTree(fs, j, q) && IsIndex(q) :: ZoneAt(fs, j, q) != z
  }

  ghost predicate SameZones(fs: Fs, r: Fs) {
    |r.inode| == |fs.inode| && forall j | 0 <= j < |fs.inode| :: r.inode[j].zone == fs.inode[j].zone
  }

  /** Rewriting a block that is no index zone leaves every tree alone. */
  lemma {:induction false} BlockChangeAt(fs: Fs, r: Fs, z: nat, j: nat, q: Path)
    requires Shape(fs) && Shape(r) && SameZones(fs, r) && r.nzones == fs.nzones && NotIndex(fs, z)
    requires forall y | 0 <= y < fs.nzones && y != z :: r.block[y] == fs.block[y]
    requires j < |fs.inode| && Ok(q)
    ensures ZoneAt(r, j, q) == ZoneAt(fs, j, q)
    decreases Depth(q)
  {
    if !IsRoot(q) {
      BlockChangeAt(fs, r, z, j, Parent(q));
      assert InTree(fs, j, Parent(q)) ==> ZoneAt(fs, j, Parent(q)) != z;
    }
  }

  lemma BlockChange(fs: Fs, r: Fs, z: nat)
    requires Shape(fs) && Shape(r) && SameZones(fs, r) && r.nzones == fs.nzones && NotIndex(fs, z)
    requires forall y | 0 <= y < fs.nzones && y != z :: r.block[y] == fs.block[y]
    ensures SameTrees(fs, r)
  {
    forall j: nat, q | j < |fs.inode| && Ok(q) ensures ZoneAt(r, j, q) == ZoneAt(fs, j, q) { BlockChangeAt(fs, r, z, j, q); }
  }

  // ----- new_block -----------------------------------------------------------------------

  ghost predicate Unowned(fs: Fs, z: nat)
    requires Shape(fs)
  {
    forall j: nat, q | InTree(fs, j, q) :: ZoneAt(fs, j, q) != z
  }

  /** The zone's bit is the first clear one, and becomes set; bit 1 is that of the first data zone. */
  predicate TakesBit(fs: Fs, r: Fs, z: nat) {
    && fs.first <= z && z - fs.first + 1 < |fs.bit| && !fs.bit[z - fs.first + 1]
    && (forall j | 0 <= j < z - fs.first + 1 :: fs.bit[j]) && r.bit == fs.bit[z - fs.first + 1 := true]
  }

  lemma NewBlockStep(fs: Fs)
    requires Inv(fs)
    ensures var (r, z) := NewBlock(fs);
      |r.inode| == |fs.inode| && r.inode == fs.inode && SameTrees(fs, r) && r.first == fs.first && r.nzones == fs.nzones &&
      (z == 0 ==> Inv(r) && r.block == fs.block && forall y | fs.first <= y < fs.nzones :: Used(fs, y) && Used(r, y)) &&
      (z != 0 ==> TakesBit(fs, r, z)) &&
      (z != 0 ==> InRange(fs, z) && Unowned(fs, z) && !Used(fs, z) && Used(r, z) && r.block == fs.block[z := ZeroBlock()] &&
                  forall y | fs.first <= y < fs.nzones && y != z :: Used(r, y) == Used(fs, y))
  {
    var (r, z) := NewBlock(fs);
    var j := FirstZero(fs.bit, 0);
    if z != 0 {
      assert j > 0;
      assert !Used(fs, z);
      forall i: nat, p | InTree(fs, i, p) ensures ZoneAt(fs, i, p) != z { assert Used(fs, ZoneAt(fs, i, p)); }
      BlockChange(fs, r, z);
    } else {
      forall i: nat, p | i < |fs.inode| && Ok(p) ensures ZoneAt(r, i, p) == ZoneAt(fs, i, p) { BlockChangeAt(fs, r, 0, i, p); }
      NewBlockFails(fs, r);
    }
  }

  lemma NewBlockFails(fs: Fs, r: Fs)
    requires Inv(fs) && Shape(r) && r.inode == fs.inode && r.nzones == fs.nzones && r.first == fs.first && SameTrees(fs, r)
    requires forall y | fs.first <= y < fs.nzones :: Used(r, y) == Used(fs, y)
    ensures Inv(r)
  {
    forall i: nat, p | InTree(r, i, p) ensures InRange(r, ZoneAt(r, i, p)) && Used(r, ZoneAt(r, i, p)) { assert InTree(fs, i, p); }
    forall i: nat, p, j: nat, q | InTree(r, i, p) && InTree(r, j, q) && ZoneAt(r, i, p) == ZoneAt(r, j, q) ensures i == j && p == q {
      assert InTree(fs, i, p) && InTree(fs, j, q);
    }
    forall z | r.first <= z < r.nzones && Used(r, z) ensures Owned(r, z) {
      assert Owned(fs, z);
      var i: nat, p :| InTree(fs, i, p) && ZoneAt(fs, i, p) == z;
      assert InTree(r, i, p);
    }
  }

  // ----- linking a new zone into a tree ------------------------------------------------------

  /** The place p of inode i is empty, and its parent is not. */
  ghost predicate CanLink(fs: Fs, i: nat, p: Path)
    requires Shape(fs)
  {
    i < |fs.inode| && Ok(p) && ZoneAt(fs, i, p) == 0 && (!IsRoot(p) ==> InTree(fs, i, Parent(p)))
  }

  /** Trees with distinct zones, in range; but nothing said about the bitmap. */
  ghost predicate Separate(fs: Fs) {
    && Shape(fs)
    && (forall i: nat, p | InTree(fs, i, p) :: InRange(fs, ZoneAt(fs, i, p)))
    && (forall i: nat, p, j: nat, q | InTree(fs, i, p) && InTree(fs, j, q) && ZoneAt(fs, i, p) == ZoneAt(fs, j, q) :: i == j && p == q)
  }

  /** An index block in use: only the new zone's own entry changes. */
  lemma LinkEntry(fs: Fs, i: nat, p: Path, z: nat, j: nat, q: Path)
    requires Separate(fs) && CanLink(fs, i, p) && InRange(fs, z) && Unowned(fs, z)
    requires j < |fs.inode| && Ok(q) && !IsRoot(q) && InTree(fs, j, Parent(q))
    ensures ZoneAt(fs, j, Parent(q)) < fs.nzones
    ensures var y := ZoneAt(fs, j, Parent(q));
      Entry(Link(fs, i, p, z).block[y], Slot(q)) == if (j, q) == (i, p) then z else Entry(fs.block[y], Slot(q))
  {
    PlacesDiffer(p, q);
    var y := ZoneAt(fs, j, Parent(q));
    if !IsRoot(p) {
      var x := ZoneAt(fs, i, Parent(p));
      assert InTree(fs, i, Parent(p));
      EntrySet(fs.block[x], Slot(p), z, Slot(q));
      assert y == x ==> j == i && Parent(q) == Parent(p);
    }
    hide ZoneAt, Entry, SetEntry;
  }

  lemma {:induction false} LinkAt(fs: Fs, i: nat, p: Path, z: nat, j: nat, q: Path)
    requires Separate(fs) && CanLink(fs, i, p) && InRange(fs, z) && Unowned(fs, z) && fs.block[z] == ZeroBlock()
    requires j < |fs.inode| && Ok(q)
    ensures ZoneAt(Link(fs, i, p, z), j, q) == if (j, q) == (i, p) then z else ZoneAt(fs, j, q)
    decreases Depth(q)
  {
    var r := Link(fs, i, p, z);
    if IsRoot(q) {
      PlacesDiffer(p, q);
    } else {
      LinkAt(fs, i, p, z, j, Parent(q));
      var y := ZoneAt(fs, j, Parent(q));
      if (j, Parent(q)) == (i, p) {
        LinkFresh(fs, i, p, z, Slot(q));
      } else if y != 0 {
        LinkEntry(fs, i, p, z, j, q);
      }
      hide Link, Separate, Entry, CanLink;
    }
  }

  /** The new zone is empty. */
  lemma LinkFresh(fs: Fs, i: nat, p: Path, z: nat, k: nat)
    requires Separate(fs) && CanLink(fs, i, p) && InRange(fs, z) && Unowned(fs, z) && fs.block[z] == ZeroBlock() && k < ENTRIES
    ensures Entry(Link(fs, i, p, z).block[z], k) == 0
  {
    assert !IsRoot(p) ==> InTree(fs, i, Parent(p));
    assert Link(fs, i, p, z).block[z] == fs.block[z];
    assert Entry(ZeroBlock(), k) == 0;
  }

  /** r is fs with the unowned zone z at the empty place p of inode i. */
  ghost predicate Grown(fs: Fs, r: Fs, i: nat, p: Path, z: nat)
    requires Shape(fs)
  {
    && Shape(r) && |r.inode| == |fs.inode| && r.first == fs.first && r.nzones == fs.nzones
    && i < |fs.inode| && Ok(p) && ZoneAt(fs, i, p) == 0 && ZoneAt(r, i, p) == z
    && InRange(fs, z) && Unowned(fs, z) && Used(r, z) && SameTreesBut(fs, r, i, p)
    && forall y | fs.first <= y < fs.nzones && y != z :: Used(r, y) == Used(fs, y)
  }

  lemma GrownTree(fs: Fs, r: Fs, i: nat, p: Path, z: nat, j: nat, q: Path)
    requires Shape(fs) && Grown(fs, r, i, p, z)
    ensures InTree(r, j, q) <==> InTree(fs, j, q) || (j, q) == (i, p)
    ensures InTree(r, j, q) ==> ZoneAt(r, j, q) == if (j, q) == (i, p) then z else ZoneAt(fs, j, q)
  {
  }

  lemma GrownSeparate(fs: Fs, r: Fs, i: nat, p: Path, z: nat)
    requires Inv(fs) && Grown(fs, r, i, p, z)
    ensures forall j: nat, q, k: nat, o | InTree(r, j, q) && InTree(r, k, o) && ZoneAt(r, j, q) == ZoneAt(r, k, o) :: j == k && q == o
  {
    forall j: nat, q, k: nat, o | InTree(r, j, q) && InTree(r, k, o) && ZoneAt(r, j, q) == ZoneAt(r, k, o) ensures j == k && q == o {
      GrownTree(fs, r, i, p, z, j, q);
      GrownTree(fs, r, i, p, z, k, o);
    }
  }

  lemma GrownOwned(fs: Fs, r: Fs, i: nat, p: Path, z: nat)
    requires Inv(fs) && Grown(fs, r, i, p, z)
    ensures forall y | r.first <= y < r.nzones && Used(r, y) :: Owned(r, y)
  {
    forall y | r.first <= y < r.nzones && Used(r, y) ensures Owned(r, y) {
      if y == z {
        assert InTree(r, i, p);
      } else {
        assert Owned(fs, y);
        var j: nat, q :| InTree(fs, j, q) && ZoneAt(fs, j, q) == y;
        GrownTree(fs, r, i, p, z, j, q);
      }
    }
  }

  lemma GrownInv(fs: Fs, r: Fs, i: nat, p: Path, z: nat)
    requires Inv(fs) && Grown(fs, r, i, p, z)
    ensures Inv(r)
  {
    GrownSeparate(fs, r, i, p, z);
    GrownOwned(fs, r, i, p, z);
    forall j: nat, q | InTree(r, j, q) ensures InRange(r, ZoneAt(r, j, q)) && Used(r, ZoneAt(r, j, q)) {
      GrownTree(fs, r, i, p, z, j, q);
    }
  }

  /** What new_block returned, linked in: the invariant again, and one place changed. */
  lemma LinkStep(fs: Fs, g: Fs, i: nat, p: Path, z: nat)
    requires Inv(fs) && CanLink(fs, i, p) && Shape(g) && g.inode == fs.inode && SameTrees(fs, g) && g.first == fs.first && g.nzones == fs.nzones
    requires InRange(fs, z) && Unowned(fs, z) && Used(g, z) && g.block == fs.block[z := ZeroBlock()]
    requires forall y | fs.first <= y < fs.nzones && y != z :: Used(g, y) == Used(fs, y)
    ensures Grown(fs, Link(g, i, p, z), i, p, z) && Inv(Link(g, i, p, z))
  {
    var r := Link(g, i, p, z);
    SeparateCopy(fs, g);
    LinkAt(g, i, p, z, i, p);
    forall j: nat, q | j < |fs.inode| && Ok(q) && (j, q) != (i, p) ensures ZoneAt(r, j, q) == ZoneAt(fs, j, q) {
      LinkAt(g, i, p, z, j, q);
    }
    assert r.bit == g.bit;
    GrownInv(fs, r, i, p, z);
  }

  lemma SeparateCopy(fs: Fs, g: Fs)
    requires Inv(fs) && Shape(g) && g.inode == fs.inode && SameTrees(fs, g) && g.first == fs.first && g.nzones == fs.nzones
    ensures Separate(g)
    ensures forall i: nat, p :: CanLink(fs, i, p) ==> CanLink(g, i, p)
    ensures forall z :: Unowned(fs, z) ==> Unowned(g, z)
  {
    forall i: nat, p ensures InTree(g, i, p) <==> InTree(fs, i, p) {}
  }

  // ----- create_block ------------------------------------------------------------------------

  ghost predicate Full(fs: Fs)
    requires Shape(fs)
  {
    forall y | fs.first <= y < fs.nzones :: Used(fs, y)
  }

  /** Every byte of every file reads as it did. */
  ghost predicate SameBytes(fs: Fs, r: Fs)
    requires Shape(fs) && Shape(r) && |r.inode| == |fs.inode|
  {
    forall j: nat, pos: nat | j < |fs.inode| && pos < MAX_BYTES :: ByteAt(r, j, pos) == ByteAt(fs, j, pos)
  }

  ghost predicate SameSizes(fs: Fs, r: Fs) {
    && |r.inode| == |fs.inode| && r.first == fs.first && r.nzones == fs.nzones
    && forall j | 0 <= j < |fs.inode| :: r.inode[j].size == fs.inode[j].size
  }

  lemma NewBlockFull(fs: Fs)
    requires Shape(fs) && NewBlock(fs).1 == 0
    ensures Full(NewBlock(fs).0)
  {
    var r := NewBlock(fs).0;
    var j := FirstZero(fs.bit, 0);
    forall y | fs.first <= y < fs.nzones ensures Used(r, y) { assert y - fs.first + 1 < j; }
  }

  /** What a new zone held before does not show: it is clear, and no other place names it. */
  lemma LinkBytes(fs: Fs, g: Fs, r: Fs, i: nat, p: Path, z: nat)
    requires Inv(fs) && CanLink(fs, i, p) && Grown(fs, r, i, p, z) && Shape(g) && g.inode == fs.inode && SameTrees(fs, g)
    requires g.nzones == fs.nzones && g.block == fs.block[z := ZeroBlock()] && r == Link(g, i, p, z)
    ensures SameBytes(fs, r)
  {
    forall j: nat, pos: nat | j < |fs.inode| && pos < MAX_BYTES ensures ByteAt(r, j, pos) == ByteAt(fs, j, pos) {
      var q := PathOf(pos / BLOCK_SIZE);
      if !IsRoot(p) { assert InTree(fs, i, Parent(p)); }
      if (j, q) == (i, p) {
        assert r.block[z] == ZeroBlock();
      } else {
        var y := ZoneAt(fs, j, q);
        assert y != 0 ==> InTree(fs, j, q);
      }
    }
  }

  lemma SameTreesBytes(fs: Fs, r: Fs)
    requires Shape(fs) && Shape(r) && r.inode == fs.inode && r.nzones == fs.nzones && r.block == fs.block && SameTrees(fs, r)
    ensures SameBytes(fs, r)
  {
    forall j: nat, pos: nat | j < |fs.inode| && pos < MAX_BYTES ensures ByteAt(r, j, pos) == ByteAt(fs, j, pos) {
      assert ZoneAt(r, j, PathOf(pos / BLOCK_SIZE)) == ZoneAt(fs, j, PathOf(pos / BLOCK_SIZE));
    }
  }

  lemma GrowTakes(fs: Fs, i: nat, p: Path)
    requires Inv(fs) && CanLink(fs, i, p) && NewBlock(fs).1 != 0
    ensures var (r, z) := Grow(fs, i, p);
      Grown(fs, r, i, p, z) && z != 0 && Inv(r) && SameBytes(fs, r) && forall j | 0 <= j < |fs.inode| :: r.inode[j].size == fs.inode[j].size
  {
    var (g, z) := NewBlock(fs);
    NewBlockStep(fs);
    LinkStep(fs, g, i, p, z);
    LinkBytes(fs, g, Link(g, i, p, z), i, p, z);
  }

  lemma GrowStep(fs: Fs, i: nat, p: Path)
    requires Inv(fs) && i < |fs.inode| && Ok(p) && (!IsRoot(p) ==> InTree(fs, i, Parent(p)))
    ensures var (r, z) := Grow(fs, i, p);
      Inv(r) && SameSizes(fs, r) && SameTreesBut(fs, r, i, p) && SameBytes(fs, r) && ZoneAt(r, i, p) == z &&
      (ZoneAt(fs, i, p) != 0 ==> r == fs) && (z == 0 ==> Full(r))
  {
    if ZoneAt(fs, i, p) == 0 {
      if NewBlock(fs).1 == 0 {
        var g := NewBlock(fs).0;
        NewBlockStep(fs);
        NewBlockFull(fs);
        assert ZoneAt(g, i, p) == 0;
        SameTreesBytes(fs, g);
      } else {
        GrowTakes(fs, i, p);
      }
    }
  }

  /** create_block gives the block a zone, or the device is full.  Whatever it allocated on the way,
      every tree and the bitmap agree, no other block of any file moves, no place that held a zone
      changes, and not a byte of any file reads differently. */
  lemma {:induction false} CreateStep(fs: Fs, i: nat, p: Path)
    requires Inv(fs) && i < |fs.inode| && Ok(p)
    ensures var (r, z) := Create(fs, i, p);
      Inv(r) && SameSizes(fs, r) && SameBytes(fs, r) && ZoneAt(r, i, p) == z && (z == 0 ==> Full(r))
    ensures var r := Create(fs, i, p).0;
      forall j: nat, q | j < |fs.inode| && Ok(q) && ZoneAt(r, j, q) != ZoneAt(fs, j, q) ::
        j == i && ZoneAt(fs, j, q) == 0 && (q == p || IsIndex(q))
    decreases Depth(p)
  {
    if IsRoot(p) {
      GrowStep(fs, i, p);
    } else {
      CreateStep(fs, i, Parent(p));
      var (g, y) := Create(fs, i, Parent(p));
      if y == 0 {
        assert ZoneAt(g, i, p) == 0;
      } else {
        assert InTree(g, i, Parent(p));
        GrowStep(g, i, p);
        var r := Grow(g, i, p).0;
        forall j: nat, q | j < |fs.inode| && Ok(q) && ZoneAt(r, j, q) != ZoneAt(fs, j, q)
          ensures j == i && ZoneAt(fs, j, q) == 0 && (q == p || IsIndex(q))
        {
          if (j, q) != (i, p) { assert ZoneAt(r, j, q) == ZoneAt(g, j, q); }
        }
      }
    }
  }

  /** In the terms of the source: bmap of every other block, of every file, is what it was. */
  lemma CreateBlockLeavesOthers(fs: Fs, i: nat, b: nat, j: nat, c: nat)
    requires Inv(fs) && i < |fs.inode| && j < |fs.inode| && b < MAX_BLOCKS && c < MAX_BLOCKS
    ensures var (r, z) := Create(fs, i, PathOf(b));
      ZoneAt(r, j, PathOf(c)) == if (j, c) == (i, b) then z else ZoneAt(fs, j, PathOf(c))
  {
    CreateStep(fs, i, PathOf(b));
    if PathOf(b) == PathOf(c) { PathOfInjective(b, c); }
  }

  // ----- the layout on the disk -----------------------------------------------------------------------

  /** Word k of zone z, least significant byte first; 0 where there is no zone. */
  function WordOf(fs: Fs, z: nat, k: nat): nat
    requires Shape(fs) && z < fs.nzones && k < 512
  {
    if z == 0 then 0 else var lo: nat, hi: nat := fs.block[z][2 * k], fs.block[z][2 * k + 1]; lo + 256 * hi
  }

  lemma ZoneWord(fs: Fs, i: nat, p: Path)
    requires Inv(fs) && i < |fs.inode| && Ok(p) && !IsRoot(p)
    ensures var y := ZoneAt(fs, i, Parent(p)); y < fs.nzones && ZoneAt(fs, i, p) == WordOf(fs, y, Slot(p))
  {
    var y := ZoneAt(fs, i, Parent(p));
    if y != 0 { assert InTree(fs, i, Parent(p)); }
  }

  lemma Levels(fs: Fs, i: nat, k: nat, l: nat)
    requires Inv(fs) && i < |fs.inode| && k < 512 && l < 512
    ensures var zone, y := fs.inode[i].zone, ZoneAt(fs, i, DindInd(k));
      zone[7] < fs.nzones && zone[8] < fs.nzones && ZoneAt(fs, i, IndData(k)) == WordOf(fs, zone[7], k) &&
      y == WordOf(fs, zone[8], k) && y < fs.nzones && ZoneAt(fs, i, DindData(k, l)) == WordOf(fs, y, l)
  {
    assert ZoneAt(fs, i, Ind) == fs.inode[i].zone[7] && ZoneAt(fs, i, Dind) == fs.inode[i].zone[8];
    hide ZoneAt, WordOf, Inv;
    ZoneWord(fs, i, IndData(k));
    ZoneWord(fs, i, DindInd(k));
    ZoneWord(fs, i, DindData(k, l));
  }

  lemma DoublePlace(b: nat)
    requires 519 <= b < 7 + 512 + 512 * 512
    ensures b < MAX_BLOCKS && (b - 519) / 512 < 512 && PathOf(b) == DindData((b - 519) / 512, (b - 519) % 512)
  {
  }

  /** Where the zone of block b of file i is written down: the first seven in the inode, the next 512 in the block
      that its eighth zone number names, the rest in the 512 blocks that the words of its ninth name. */
  lemma Layout(fs: Fs, i: nat, b: nat)
    requires Inv(fs) && i < |fs.inode| && b < 7 + 512 + 512 * 512
    ensures b < MAX_BLOCKS && fs.inode[i].zone[7] < fs.nzones && fs.inode[i].zone[8] < fs.nzones
    ensures var zone, z := fs.inode[i].zone, ZoneAt(fs, i, PathOf(b));
      if b < 7 then z == zone[b]
      else if b < 519 then z == WordOf(fs, zone[7], b - 7)
      else var y := WordOf(fs, zone[8], (b - 519) / 512); y < fs.nzones && z == WordOf(fs, y, (b - 519) % 512)
  {
    assert Shape(fs);
    hide Inv, ZoneAt, WordOf;
    if b < 7 {
      Levels(fs, i, 0, 0);
      DirectZone(fs, i, b);
    } else if b < 519 {
      Levels(fs, i, b - 7, 0);
    } else {
      DoublePlace(b);
      Levels(fs, i, (b - 519) / 512, (b - 519) % 512);
    }
  }

  lemma DirectZone(fs: Fs, i: nat, b: nat)
    requires Shape(fs) && i < |fs.inode| && b < 7
    ensures ZoneAt(fs, i, PathOf(b)) == fs.inode[i].zone[b]
  {
  }
}
