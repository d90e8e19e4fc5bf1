// truncate: the bits that go are those of the inode's tree, each cleared once.

module FileTruncate {
  import opened FileModel

  ghost predicate Freed(fs: Fs, i: nat, gone: iset<Path>, z: nat)
    requires Shape(fs)
  {
    exists p :: p in gone && InTree(fs, i, p) && ZoneAt(fs, i, p) == z
  }

  /** bit is the bitmap of fs with the zones at the places `gone` of inode i cleared. */
  ghost predicate Cleared(fs: Fs, i: nat, gone: iset<Path>, bit: seq<bool>)
    requires Shape(fs)
  {
    && |bit| == |fs.bit| && bit[0]
    && forall z | fs.first <= z < fs.nzones :: bit[z - fs.first + 1] == (Used(fs, z) && !Freed(fs, i, gone, z))
  }

  lemma FreedOne(fs: Fs, i: nat, gone: iset<Path>, p: Path, y: nat)
    requires Shape(fs) && InTree(fs, i, p)
    ensures Freed(fs, i, gone + iset{p}, y) <==> Freed(fs, i, gone, y) || y == ZoneAt(fs, i, p)
  {
    if Freed(fs, i, gone, y) {
      var q :| q in gone && InTree(fs, i, q) && ZoneAt(fs, i, q) == y;
      assert q in gone + iset{p};
    }
    if y == ZoneAt(fs, i, p) { assert p in gone + iset{p}; }
  }

  lemma StillUsed(fs: Fs, i: nat, gone: iset<Path>, p: Path)
    requires Inv(fs) && InTree(fs, i, p) && p !in gone
    ensures InRange(fs, ZoneAt(fs, i, p)) && Used(fs, ZoneAt(fs, i, p)) && !Freed(fs, i, gone, ZoneAt(fs, i, p))
  {
  }

  lemma ClearOne(fs: Fs, i: nat, gone: iset<Path>, p: Path, bit: seq<bool>)
    requires Inv(fs) && Cleared(fs, i, gone, bit) && InTree(fs, i, p) && p !in gone
    ensures InRange(fs, ZoneAt(fs, i, p)) && bit[ZoneAt(fs, i, p) - fs.first + 1]
    ensures Cleared(fs, i, gone + iset{p}, bit[ZoneAt(fs, i, p) - fs.first + 1 := false])
  {
    var z := ZoneAt(fs, i, p);
    StillUsed(fs, i, gone, p);
    var after := bit[z - fs.first + 1 := false];
    forall y | fs.first <= y < fs.nzones
      ensures after[y - fs.first + 1] == (Used(fs, y) && !Freed(fs, i, gone + iset{p}, y))
    {
      FreedOne(fs, i, gone, p, y);
    }
  }

  /** Places that hold no zone may be counted as cleared. */
  lemma ClearNone(fs: Fs, i: nat, gone: iset<Path>, more: iset<Path>, bit: seq<bool>)
    requires Shape(fs) && Cleared(fs, i, gone, bit) && gone <= more && forall q | q in more && q !in gone :: !InTree(fs, i, q)
    ensures Cleared(fs, i, more, bit)
  {
    forall z | fs.first <= z < fs.nzones ensures Freed(fs, i, more, z) == Freed(fs, i, gone, z) {
      if Freed(fs, i, gone, z) {
        var q :| q in gone && InTree(fs, i, q) && ZoneAt(fs, i, q) == z;
        assert q in more;
      }
    }
  }

  /** The places under an index zone of data zones, up to entry k. */
  ghost function Under(p: Path, k: nat): iset<Path> {
    iset q: Path | Ok(q) && !IsRoot(q) && Parent(q) == p && Slot(q) < k
  }

  /** The places under the index zone of index zones, up to entry k. */
  ghost function UnderDind(k: nat): iset<Path> {
    iset q: Path | Ok(q) && ((q.DindInd? && q.k < k) || (q.DindData? && q.k < k))
  }

  ghost function Directs(k: nat): iset<Path> { iset q: Path | q.Direct? && Ok(q) && q.i < k }

  ghost function All(): iset<Path> { iset q: Path | Ok(q) }

  /** Inode i without its tree. */
  ghost predicate Truncated(fs: Fs, r: Fs, i: nat) {
    && Shape(fs) && Shape(r) && i < |fs.inode| && Cleared(fs, i, All(), r.bit)
    && r == fs.(bit := r.bit, inode := fs.inode[i := Inode(0, [0, 0, 0, 0, 0, 0, 0, 0, 0])])
  }

  lemma {:induction false} ZonesLeft(fs: Fs, r: Fs, i: nat, j: nat, q: Path)
    requires Shape(fs) && Shape(r) && i < |fs.inode| && j < |fs.inode| && Ok(q)
    requires r == fs.(bit := r.bit, inode := fs.inode[i := Inode(0, [0, 0, 0, 0, 0, 0, 0, 0, 0])])
    ensures ZoneAt(r, j, q) == if j == i then 0 else ZoneAt(fs, j, q)
    decreases Depth(q)
  {
    if !IsRoot(q) { ZonesLeft(fs, r, i, j, Parent(q)); }
  }

  lemma TruncatedUsed(fs: Fs, r: Fs, i: nat, z: nat)
    requires Truncated(fs, r, i) && InRange(fs, z)
    ensures Used(r, z) <==> Used(fs, z) && !exists p :: InTree(fs, i, p) && ZoneAt(fs, i, p) == z
  {
    if p :| InTree(fs, i, p) && ZoneAt(fs, i, p) == z { assert p in All(); }
    assert Used(r, z) == (Used(fs, z) && !Freed(fs, i, All(), z));
  }

  lemma TruncatedInv(fs: Fs, r: Fs, i: nat)
    requires Inv(fs) && Truncated(fs, r, i)
    ensures Inv(r)
  {
    forall j: nat, q | InTree(r, j, q)
      ensures j != i && InTree(fs, j, q) && ZoneAt(r, j, q) == ZoneAt(fs, j, q)
      ensures InRange(r, ZoneAt(r, j, q)) && Used(r, ZoneAt(r, j, q))
    {
      ZonesLeft(fs, r, i, j, q);
      assert InTree(fs, j, q);
      TruncatedUsed(fs, r, i, ZoneAt(fs, j, q));
    }
    forall z | r.first <= z < r.nzones && Used(r, z) ensures Owned(r, z) {
      TruncatedUsed(fs, r, i, z);
      assert Owned(fs, z);
      var j: nat, q :| InTree(fs, j, q) && ZoneAt(fs, j, q) == z;
      ZonesLeft(fs, r, i, j, q);
      assert InTree(r, j, q);
    }
  }

  /** With its tree cleared from the bitmap and its zones from the inode, the device is in order again:
      exactly the inode's zones became free, its file is empty, the other files are untouched. */
  lemma TruncateStep(fs: Fs, r: Fs, i: nat)
    requires Inv(fs) && Truncated(fs, r, i)
    ensures Inv(r)
    ensures forall j: nat, q | j < |fs.inode| && Ok(q) :: ZoneAt(r, j, q) == if j == i then 0 else ZoneAt(fs, j, q)
    ensures forall j: nat, at: nat | j < |fs.inode| && at < MAX_BYTES :: ByteAt(r, j, at) == if j == i then 0 else ByteAt(fs, j, at)
    ensures forall z | fs.first <= z < fs.nzones :: Used(r, z) <==> Used(fs, z) && !exists p :: InTree(fs, i, p) && ZoneAt(fs, i, p) == z
  {
    TruncatedInv(fs, r, i);
    forall j: nat, q | j < |fs.inode| && Ok(q) ensures ZoneAt(r, j, q) == if j == i then 0 else ZoneAt(fs, j, q) { ZonesLeft(fs, r, i, j, q); }
    forall z | fs.first <= z < fs.nzones
      ensures Used(r, z) <==> Used(fs, z) && !exists p :: InTree(fs, i, p) && ZoneAt(fs, i, p) == z
    {
      TruncatedUsed(fs, r, i, z);
    }
  }
}
