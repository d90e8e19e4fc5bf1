// What a file holds: writing through the zone tree is overwriting a plain byte sequence.

module FileBytes {
  import opened Common
  import opened FileModel
  import opened FileTrees

  function Zeros(n: nat): (s: seq<Byte>)
    ensures |s| == n && forall k | 0 <= k < n :: s[k] == 0
  {
    seq(n, _ => 0)
  }

  /** The reference: a byte sequence, zero-extended as far as needed, with data laid over it at pos. */
  function Overwrite(c: seq<Byte>, pos: nat, data: seq<Byte>): seq<Byte> {
    if data == [] then c
    else
      var end := pos + |data|;
      var long := if |c| < end then c + Zeros(end - |c|) else c;
      long[..pos] + data + long[end..]
  }

  function Patch(b: Block, off: nat, data: seq<Byte>): Block
    requires off + |data| <= BLOCK_SIZE
  {
    b[..off] + data + b[off + |data|..]
  }

  function Max(a: nat, b: nat): nat { if a < b then b else a }

  /** One round of file_write's loop: part of one block, and i_size if it grows. */
  function PutChunk(fs: Fs, i: nat, z: nat, pos: nat, data: seq<Byte>): (r: Fs)
    requires Shape(fs) && i < |fs.inode| && z < fs.nzones && pos % BLOCK_SIZE + |data| <= BLOCK_SIZE
    ensures Shape(r)
  {
    fs.(block := fs.block[z := Patch(fs.block[z], pos % BLOCK_SIZE, data)],
        inode := fs.inode[i := fs.inode[i].(size := Max(fs.inode[i].size, pos + |data|))])
  }

  /** r is fs with data at pos of file i, and no other byte of any file different. */
  ghost predicate Written(fs: Fs, r: Fs, i: nat, pos: nat, data: seq<Byte>) {
    && Shape(fs) && Shape(r) && |r.inode| == |fs.inode| && i < |fs.inode|
    && (forall j: nat, at: nat | j < |fs.inode| && at < MAX_BYTES ::
          ByteAt(r, j, at) == if j == i && pos <= at < pos + |data| then data[at - pos] else ByteAt(fs, j, at))
    && (forall j | 0 <= j < |fs.inode| ::
          r.inode[j].size == if j == i && data != [] then Max(fs.inode[i].size, pos + |data|) else fs.inode[j].size)
  }

  lemma DataZone(fs: Fs, i: nat, b: nat)
    requires Inv(fs) && i < |fs.inode| && b < MAX_BLOCKS && ZoneAt(fs, i, PathOf(b)) != 0
    ensures var z := ZoneAt(fs, i, PathOf(b)); InRange(fs, z) && NotIndex(fs, z)
    ensures forall j: nat, c: nat | j < |fs.inode| && c < MAX_BLOCKS && ZoneAt(fs, j, PathOf(c)) == ZoneAt(fs, i, PathOf(b)) :: j == i && c == b
  {
    assert InTree(fs, i, PathOf(b));
    forall j: nat, c: nat | j < |fs.inode| && c < MAX_BLOCKS && ZoneAt(fs, j, PathOf(c)) == ZoneAt(fs, i, PathOf(b)) ensures j == i && c == b {
      assert InTree(fs, j, PathOf(c));
      PathOfInjective(b, c);
    }
  }

  lemma SameTreesInv(fs: Fs, r: Fs)
    requires Inv(fs) && Shape(r) && |r.inode| == |fs.inode| && SameTrees(fs, r) && r.bit == fs.bit && r.first == fs.first && r.nzones == fs.nzones
    ensures Inv(r)
  {
    assert forall j: nat, q :: InTree(r, j, q) <==> InTree(fs, j, q);
    forall z | r.first <= z < r.nzones && Used(r, z) ensures Owned(r, z) {
      assert Used(fs, z) && Owned(fs, z);
      var j: nat, q :| InTree(fs, j, q) && ZoneAt(fs, j, q) == z;
      assert InTree(r, j, q);
    }
  }

  lemma PutChunkStep(fs: Fs, i: nat, pos: nat, data: seq<Byte>)
    requires Inv(fs) && i < |fs.inode| && pos < MAX_BYTES && 0 < |data| && pos % BLOCK_SIZE + |data| <= BLOCK_SIZE
    requires ZoneAt(fs, i, PathOf(pos / BLOCK_SIZE)) != 0
    ensures ZoneAt(fs, i, PathOf(pos / BLOCK_SIZE)) < fs.nzones
    ensures var r := PutChunk(fs, i, ZoneAt(fs, i, PathOf(pos / BLOCK_SIZE)), pos, data);
      Inv(r) && SameTrees(fs, r) && Written(fs, r, i, pos, data)
  {
    var b := pos / BLOCK_SIZE;
    DataZone(fs, i, b);
    var z := ZoneAt(fs, i, PathOf(b));
    var r := PutChunk(fs, i, z, pos, data);
    BlockChange(fs, r, z);
    SameTreesInv(fs, r);
    forall j: nat, at: nat | j < |fs.inode| && at < MAX_BYTES
      ensures ByteAt(r, j, at) == if j == i && pos <= at < pos + |data| then data[at - pos] else ByteAt(fs, j, at)
    {
      ChunkByte(fs, i, pos, data, r, j, at);
    }
  }

  lemma ChunkByte(fs: Fs, i: nat, pos: nat, data: seq<Byte>, r: Fs, j: nat, at: nat)
    requires Inv(fs) && i < |fs.inode| && pos < MAX_BYTES && 0 < |data| && pos % BLOCK_SIZE + |data| <= BLOCK_SIZE
    requires 0 < ZoneAt(fs, i, PathOf(pos / BLOCK_SIZE)) < fs.nzones
    requires r == PutChunk(fs, i, ZoneAt(fs, i, PathOf(pos / BLOCK_SIZE)), pos, data) && SameTrees(fs, r)
    requires j < |fs.inode| && at < MAX_BYTES
    ensures ByteAt(r, j, at) == if j == i && pos <= at < pos + |data| then data[at - pos] else ByteAt(fs, j, at)
  {
    DataZone(fs, i, pos / BLOCK_SIZE);
    assert ZoneAt(r, j, PathOf(at / BLOCK_SIZE)) == ZoneAt(fs, j, PathOf(at / BLOCK_SIZE));
    if j == i && at / BLOCK_SIZE == pos / BLOCK_SIZE {
      assert at - pos == at % BLOCK_SIZE - pos % BLOCK_SIZE;
    } else {
      assert ZoneAt(fs, j, PathOf(at / BLOCK_SIZE)) != ZoneAt(fs, i, PathOf(pos / BLOCK_SIZE));
      assert j == i ==> !(pos <= at < pos + |data|);
    }
  }

  lemma SameBytesWritten(fs: Fs, r: Fs, i: nat, pos: nat)
    requires Shape(fs) && Shape(r) && SameSizes(fs, r) && SameBytes(fs, r) && i < |fs.inode|
    ensures Written(fs, r, i, pos, [])
  {
  }

  /** Two writes one after the other are one write of both. */
  lemma WrittenTwice(fs: Fs, g: Fs, r: Fs, i: nat, pos: nat, a: seq<Byte>, b: seq<Byte>)
    requires Written(fs, g, i, pos, a) && Written(g, r, i, pos + |a|, b)
    ensures Written(fs, r, i, pos, a + b)
  {
    forall j: nat, at: nat | j < |fs.inode| && at < MAX_BYTES
      ensures ByteAt(r, j, at) == if j == i && pos <= at < pos + |a + b| then (a + b)[at - pos] else ByteAt(fs, j, at)
    {
      assert ByteAt(g, j, at) == if j == i && pos <= at < pos + |a| then a[at - pos] else ByteAt(fs, j, at);
    }
  }

  ghost predicate Tidy(fs: Fs) {
    Shape(fs) && forall j | 0 <= j < |fs.inode| :: ZeroBeyond(fs, j)
  }

  lemma WrittenTidy(fs: Fs, r: Fs, i: nat, pos: nat, data: seq<Byte>)
    requires Written(fs, r, i, pos, data) && pos + |data| <= MAX_BYTES && Tidy(fs)
    ensures Tidy(r)
  {
    forall j | 0 <= j < |r.inode| ensures ZeroBeyond(r, j) {
      assert ZeroBeyond(fs, j);
    }
  }

  /** The main result: in terms of plain byte sequences, file i was overwritten with data at pos,
      any gap after its old end filled with zeros, and every other file is what it was. */
  lemma WrittenContent(fs: Fs, r: Fs, i: nat, pos: nat, data: seq<Byte>, j: nat)
    requires Written(fs, r, i, pos, data) && pos + |data| <= MAX_BYTES && Tidy(fs) && j < |fs.inode|
    ensures Content(r, j) == if j == i then Overwrite(Content(fs, i), pos, data) else Content(fs, j)
  {
    assert ZeroBeyond(fs, j) && ZeroBeyond(fs, i);
    var c := Content(r, j);
    if j == i && data != [] {
      var o := Overwrite(Content(fs, i), pos, data);
      forall k | 0 <= k < |c| ensures c[k] == o[k] {
        assert c[k] == ByteAt(r, i, k);
        assert k >= fs.inode[i].size ==> ByteAt(fs, i, k) == 0;
      }
      assert |c| == |o|;
    } else {
      var o := Content(fs, j);
      forall k | 0 <= k < |c| ensures c[k] == o[k] {
        assert c[k] == ByteAt(r, j, k) && o[k] == ByteAt(fs, j, k);
      }
      assert |c| == |o|;
    }
  }

  /** Where it starts: a device on which nothing is allocated. */
  lemma EmptyDevice(fs: Fs)
    requires Shape(fs) && (forall z | fs.first <= z < fs.nzones :: !Used(fs, z))
    requires forall j | 0 <= j < |fs.inode| :: fs.inode[j] == Inode(0, [0, 0, 0, 0, 0, 0, 0, 0, 0])
    ensures Inv(fs) && Tidy(fs)
  {
    forall j: nat, q | j < |fs.inode| && Ok(q) ensures ZoneAt(fs, j, q) == 0 { NothingYet(fs, j, q); }
  }

  lemma {:induction false} NothingYet(fs: Fs, j: nat, q: Path)
    requires Shape(fs) && j < |fs.inode| && Ok(q) && fs.inode[j].zone == [0, 0, 0, 0, 0, 0, 0, 0, 0]
    ensures ZoneAt(fs, j, q) == 0
    decreases Depth(q)
  {
    if !IsRoot(q) { NothingYet(fs, j, Parent(q)); }
  }
}
