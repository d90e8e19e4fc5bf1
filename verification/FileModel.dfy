// Files of one Minix-style device: inodes with nine zone numbers, index blocks of 512 zone
// numbers, the zone bitmap, and the blocks themselves, all of them plain bytes.

module FileModel {
  import opened Common

  const BLOCK_SIZE: nat := 1024
  const DIRECT: nat := 7
  const ENTRIES: nat := 512
  const MAX_BLOCKS: nat := 7 + 512 + 512 * 512

  type Block = b: seq<Byte> | |b| == BLOCK_SIZE witness seq(BLOCK_SIZE, _ => 0)

  function ZeroBlock(): (b: Block)
    ensures forall i | 0 <= i < BLOCK_SIZE :: b[i] == 0
  {
    seq(BLOCK_SIZE, _ => 0)
  }

  /** `((unsigned short *) b_data)[i]` */
  function Entry(b: Block, i: nat): (z: nat)
    requires i < ENTRIES
    ensures z < 65536
  {
    var lo: nat := b[2 * i];
    var hi: nat := b[2 * i + 1];
    lo + 256 * hi
  }

  function SetEntry(b: Block, i: nat, z: nat): Block
    requires i < ENTRIES && z < 65536
  {
    b[2 * i := z % 256][2 * i + 1 := z / 256]
  }

  lemma EntrySet(b: Block, i: nat, z: nat, j: nat)
    requires i < ENTRIES && z < 65536 && j < ENTRIES
    ensures Entry(SetEntry(b, i, z), j) == if j == i then z else Entry(b, j)
  {
  }

  datatype Inode = Inode(size: nat, zone: seq<nat>)

  /** `bit` are the zone-map blocks, one after the other; bit j is for zone j + first - 1. */
  datatype Fs = Fs(block: seq<Block>, bit: seq<bool>, inode: seq<Inode>, first: nat, nzones: nat)

  predicate Shape(fs: Fs) {
    && 0 < fs.first <= fs.nzones <= 65536 && |fs.block| == fs.nzones
    && fs.nzones - fs.first < |fs.bit| && fs.bit[0]
    && forall i | 0 <= i < |fs.inode| :: |fs.inode[i].zone| == 9
  }

  predicate InRange(fs: Fs, z: nat) { fs.first <= z < fs.nzones }

  predicate Used(fs: Fs, z: nat)
    requires Shape(fs) && InRange(fs, z)
  {
    fs.bit[z - fs.first + 1]
  }

  // ----- the zone tree of an inode ---------------------------------------------------------

  /** The places of a tree: seven data zones, an index zone with its data zones, and an index zone
      of index zones with theirs. */
  datatype Path = Direct(i: nat) | Ind | IndData(k: nat) | Dind | DindInd(k: nat) | DindData(k: nat, l: nat)

  predicate Ok(p: Path) {
    match p
    case Direct(i) => i < DIRECT
    case IndData(k) => k < ENTRIES
    case DindInd(k) => k < ENTRIES
    case DindData(k, l) => k < ENTRIES && l < ENTRIES
    case _ => true
  }

  predicate IsRoot(p: Path) { p.Direct? || p.Ind? || p.Dind? }

  predicate IsIndex(p: Path) { p.Ind? || p.Dind? || p.DindInd? }

  /** The element of i_zone of a root. */
  function RootSlot(p: Path): (i: nat)
    requires IsRoot(p) && Ok(p)
    ensures i < 9
  {
    match p
    case Direct(i) => i
    case Ind => 7
    case Dind => 8
  }

  function Parent(p: Path): (q: Path)
    requires !IsRoot(p) && Ok(p)
    ensures Ok(q) && IsIndex(q) && Depth(q) < Depth(p)
  {
    match p
    case IndData(_) => Ind
    case DindInd(_) => Dind
    case DindData(k, _) => DindInd(k)
  }

  function Slot(p: Path): (i: nat)
    requires !IsRoot(p) && Ok(p)
    ensures i < ENTRIES
  {
    match p
    case IndData(k) => k
    case DindInd(k) => k
    case DindData(_, l) => l
  }

  function Depth(p: Path): nat {
    match p
    case Direct(_) => 0
    case Ind => 0
    case Dind => 0
    case IndData(_) => 1
    case DindInd(_) => 1
    case DindData(_, _) => 2
  }

  /** The zone number stored at a place of inode i's tree; 0 where there is none. */
  function ZoneAt(fs: Fs, i: nat, p: Path): nat
    requires Shape(fs) && i < |fs.inode| && Ok(p)
    decreases Depth(p)
  {
    if IsRoot(p) then fs.inode[i].zone[RootSlot(p)]
    else
      var z := ZoneAt(fs, i, Parent(p));
      if 0 < z < fs.nzones then Entry(fs.block[z], Slot(p)) else 0
  }

  /** The place of block b of a file. */
  function PathOf(b: nat): (p: Path)
    requires b < MAX_BLOCKS
    ensures Ok(p) && !IsIndex(p)
  {
    if b < 7 then Direct(b)
    else if b - 7 < 512 then IndData(b - 7)
    else DindData((b - 519) / 512, (b - 519) % 512)
  }

  lemma PathOfInjective(a: nat, b: nat)
    requires a < MAX_BLOCKS && b < MAX_BLOCKS && PathOf(a) == PathOf(b)
    ensures a == b
  {
  }

  // ----- the invariant -------------------------------------------------------------------

  ghost predicate InTree(fs: Fs, i: nat, p: Path)
    requires Shape(fs)
  {
    i < |fs.inode| && Ok(p) && ZoneAt(fs, i, p) != 0
  }

  /** Every zone in a tree is a data zone of the device that is marked used, in one place only;
      and every zone marked used is in a tree. */
  ghost predicate Inv(fs: Fs) {
    && Shape(fs)
    && (forall i: nat, p | InTree(fs, i, p) :: InRange(fs, ZoneAt(fs, i, p)) && Used(fs, ZoneAt(fs, i, p)))
    && (forall i: nat, p, j: nat, q | InTree(fs, i, p) && InTree(fs, j, q) && ZoneAt(fs, i, p) == ZoneAt(fs, j, q) :: i == j && p == q)
    && (forall z | fs.first <= z < fs.nzones && Used(fs, z) :: Owned(fs, z))
  }

  ghost predicate Owned(fs: Fs, z: nat)
    requires Shape(fs)
  {
    exists i: nat, p :: InTree(fs, i, p) && ZoneAt(fs, i, p) == z
  }

  // ----- bitmap.c ------------------------------------------------------------------------

  /** The first clear bit from j on, or |bit|. */
  function FirstZero(bit: seq<bool>, j: nat): (r: nat)
    requires j <= |bit|
    ensures j <= r <= |bit| && (r < |bit| ==> !bit[r]) && forall i | j <= i < r :: bit[i]
    decreases |bit| - j
  {
    if j == |bit| || !bit[j] then j else FirstZero(bit, j + 1)
  }

  /** new_block: the zone, cleared and marked used, or 0.  A bit beyond the last zone stays set. */
  function NewBlock(fs: Fs): (r: (Fs, nat))
    requires Shape(fs)
    ensures Shape(r.0) && r.1 < 65536
  {
    var j := FirstZero(fs.bit, 0);
    if j == |fs.bit| then (fs, 0)
    else
      var z := j + fs.first - 1;
      var fs1 := fs.(bit := fs.bit[j := true]);
      if z >= fs.nzones then (fs1, 0) else (fs1.(block := fs.block[z := ZeroBlock()]), z)
  }

  // ----- _bmap ---------------------------------------------------------------------------

  /** Store z at the place p, whose parent is there. */
  function Link(fs: Fs, i: nat, p: Path, z: nat): (r: Fs)
    requires Shape(fs) && i < |fs.inode| && Ok(p) && z < 65536
    ensures Shape(r) && |r.inode| == |fs.inode|
  {
    if IsRoot(p) then
      fs.(inode := fs.inode[i := fs.inode[i].(zone := fs.inode[i].zone[RootSlot(p) := z])])
    else
      var y := ZoneAt(fs, i, Parent(p));
      if y < fs.nzones then fs.(block := fs.block[y := SetEntry(fs.block[y], Slot(p), z)]) else fs
  }

  /** The zone at p, allocated if there is none yet; 0 if that fails. */
  function Grow(fs: Fs, i: nat, p: Path): (r: (Fs, nat))
    requires Shape(fs) && i < |fs.inode| && Ok(p)
    ensures Shape(r.0) && |r.0.inode| == |fs.inode|
  {
    if ZoneAt(fs, i, p) != 0 then (fs, ZoneAt(fs, i, p))
    else
      var (fs1, z) := NewBlock(fs);
      if z == 0 then (fs1, 0) else (Link(fs1, i, p, z), z)
  }

  /** create_block, level by level. */
  function Create(fs: Fs, i: nat, p: Path): (r: (Fs, nat))
    requires Shape(fs) && i < |fs.inode| && Ok(p)
    ensures Shape(r.0) && |r.0.inode| == |fs.inode|
    decreases Depth(p)
  {
    if IsRoot(p) then Grow(fs, i, p)
    else
      var (fs1, z) := Create(fs, i, Parent(p));
      if z == 0 then (fs1, 0) else Grow(fs1, i, p)
  }

  // ----- bytes ---------------------------------------------------------------------------

  /** The byte a read at pos shows: zero in a hole. */
  function ByteAt(fs: Fs, i: nat, pos: nat): Byte
    requires Shape(fs) && i < |fs.inode|
  {
    var z := if pos / BLOCK_SIZE < MAX_BLOCKS then ZoneAt(fs, i, PathOf(pos / BLOCK_SIZE)) else 0;
    if 0 < z < fs.nzones then fs.block[z][pos % BLOCK_SIZE] else 0
  }

  const MAX_BYTES: nat := MAX_BLOCKS * BLOCK_SIZE

  /** Bytes beyond the end of the file are zero, wherever they are mapped. */
  ghost predicate ZeroBeyond(fs: Fs, i: nat)
    requires Shape(fs) && i < |fs.inode|
  {
    fs.inode[i].size <= MAX_BYTES && forall pos | fs.inode[i].size <= pos < MAX_BYTES :: ByteAt(fs, i, pos) == 0
  }

  /** The file as a plain byte sequence of length i_size. */
  ghost function Content(fs: Fs, i: nat): (c: seq<Byte>)
    requires Shape(fs) && i < |fs.inode|
    ensures |c| == fs.inode[i].size && forall pos | 0 <= pos < |c| :: c[pos] == ByteAt(fs, i, pos)
  {
    seq(fs.inode[i].size, (pos: nat) => ByteAt(fs, i, pos))
  }
}
