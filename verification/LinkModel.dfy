// Directories and link counts: what open with O_CREAT, mknod, mkdir, rmdir, link and unlink do to the
// entries of a directory and to i_nlinks.  A directory is the sequence of its 16-byte entries; an
// inode is its number; the answers of the permission checks, the zone allocator and the inode
// table's use counts come in as parameters.

module LinkModel {
  import opened Common

  const NAME_LEN: nat := 14
  const ROOT: nat := 1
  const PER_BLOCK: nat := 64     // DIR_ENTRIES_PER_BLOCK

  datatype Entry = Entry(inode: nat, name: seq<Byte>)

  datatype Node = Node(isDir: bool, nlinks: int, entries: seq<Entry>)

  /** Inodes by number; a free one is None. */
  type Table = seq<Option<Node>>

  datatype Outcome = Done | Failed | Panic

  // ----- names -------------------------------------------------------------------------------

  predicate IsName(n: seq<Byte>) { n != [] && forall i | 0 <= i < |n| :: n[i] != 0 }

  /** Names longer than NAME_LEN are cut. */
  function Cut(n: seq<Byte>): (r: seq<Byte>)
    ensures |r| <= NAME_LEN && (IsName(n) ==> IsName(r))
  {
    if |n| > NAME_LEN then n[..NAME_LEN] else n
  }

  /** The name as add_entry stores it. */
  function Padded(n: seq<Byte>): (r: seq<Byte>)
    ensures |r| == NAME_LEN
  {
    var c := Cut(n);
    c + seq(NAME_LEN - |c|, _ => 0)
  }

  /** Names are 14 bytes: those of the name, as many as fit, and zeros. */
  lemma PaddedMeaning(n: seq<Byte>)
    ensures |Padded(n)| == 14 && forall k | 0 <= k < 14 :: Padded(n)[k] == if k < |n| then n[k] else 0
  {
  }

  const DOT: seq<Byte> := Padded([46])
  const DOTDOT: seq<Byte> := Padded([46, 46])

  /** match(), for a name that has been cut. */
  predicate Match(n: seq<Byte>, e: Entry)
    requires |n| <= NAME_LEN == |e.name|
  {
    e.inode != 0 && (|n| < NAME_LEN ==> e.name[|n|] == 0) && e.name[..|n|] == n
  }

  /** Once a stored name has a zero, the rest of it is zero. */
  predicate Tail(name: seq<Byte>) {
    |name| == NAME_LEN && name[0] != 0 && forall i, j | 0 <= i < j < NAME_LEN && name[i] == 0 :: name[j] == 0
  }

  /** match compares whole 14-byte names, although it looks at no byte after the first zero. */
  lemma MatchMeaning(n: seq<Byte>, e: Entry)
    requires IsName(n) && Tail(e.name)
    ensures Match(Cut(n), e) <==> e.inode != 0 && e.name == Padded(n)
  {
    var c := Cut(n);
    if Match(c, e) {
      forall k | 0 <= k < NAME_LEN ensures e.name[k] == Padded(n)[k] {
        if k < |c| { assert e.name[..|c|][k] == c[k]; }
      }
    }
    if e.inode != 0 && e.name == Padded(n) {
      assert e.name[..|c|] == c;
    }
  }

  lemma PaddedTail(n: seq<Byte>)
    requires IsName(n)
    ensures Tail(Padded(n))
  {
  }

  // ----- entries -------------------------------------------------------------------------------

  predicate Names(e: Entry, i: nat) { e.inode == i && i != 0 }

  /** The first matching entry, or |l|. */
  function Find(l: seq<Entry>, n: seq<Byte>, k: nat): (r: nat)
    requires k <= |l| && forall j | 0 <= j < |l| :: |l[j].name| == NAME_LEN
    ensures k <= r <= |l| && (r < |l| ==> Match(Cut(n), l[r])) && forall j | k <= j < r :: !Match(Cut(n), l[j])
    decreases |l| - k
  {
    if k == |l| || Match(Cut(n), l[k]) then k else Find(l, n, k + 1)
  }

  /** The first entry not in use, or |l|. */
  function FreeSlot(l: seq<Entry>, k: nat): (r: nat)
    requires k <= |l|
    ensures k <= r <= |l| && (r < |l| ==> l[r].inode == 0) && forall j | k <= j < r :: l[j].inode != 0
    decreases |l| - k
  {
    if k == |l| || l[k].inode == 0 then k else FreeSlot(l, k + 1)
  }

  /** add_entry, and the caller's `de->inode = i`. */
  function AddEntry(l: seq<Entry>, n: seq<Byte>, i: nat): (r: seq<Entry>)
    ensures |r| >= |l|
  {
    var k := FreeSlot(l, 0);
    if k == |l| then l + [Entry(i, Padded(n))] else l[k := Entry(i, Padded(n))]
  }

  /** empty_dir, for the directory with number i. */
  predicate EmptyDir(l: seq<Entry>, i: nat) {
    && |l| >= 2 && l[0].inode == i && l[1].inode != 0 && l[0].name == DOT && l[1].name == DOTDOT
    && forall k | 2 <= k < |l| :: l[k].inode == 0
  }

  // ----- the calls -------------------------------------------------------------------------------

  predicate IsNode(s: Table, i: nat) { i < |s| && s[i].Some? }

  predicate IsDir(s: Table, i: nat) { IsNode(s, i) && s[i].value.isDir }

  function Entries(s: Table, d: nat): seq<Entry> {
    if IsNode(s, d) then s[d].value.entries else []
  }

  predicate NamesOk(s: Table) {
    forall d, k | 0 <= d < |s| && 0 <= k < |Entries(s, d)| :: |Entries(s, d)[k].name| == NAME_LEN
  }

  /** find_entry; in the process's root directory `..` is looked up as `.`. */
  function Lookup(s: Table, d: nat, n: seq<Byte>, isRoot: bool): (r: nat)
    requires NamesOk(s) && d < |s|
    ensures r <= |Entries(s, d)|
  {
    Find(Entries(s, d), if isRoot && n == [46, 46] then [46] else n, 0)
  }

  /** new_inode: the first free number, or |s|. */
  function FreeInode(s: Table, i: nat): (r: nat)
    requires i <= |s|
    ensures i <= r <= |s| && (r < |s| ==> s[r].None?)
    decreases |s| - i
  {
    if i == |s| || s[i].None? then i else FreeInode(s, i + 1)
  }

  function SetEntries(s: Table, d: nat, l: seq<Entry>, more: int): Table
    requires IsNode(s, d)
  {
    s[d := Some(s[d].value.(entries := l, nlinks := s[d].value.nlinks + more))]
  }

  /** A directory without a first block takes no entries; otherwise add_entry fails only when all entries
      are live, they fill their blocks, and there is no `room` for another block. */
  predicate CanAdd(s: Table, d: nat, room: bool) {
    var l := Entries(s, d);
    l != [] && (FreeSlot(l, 0) < |l| || |l| % PER_BLOCK != 0 || room)
  }

  /** A directory takes an entry when it has a block and, in it, an unused entry, or when its 16-byte entries do
      not fill its 1024-byte blocks, or when it can have one more block. */
  ghost predicate Takes(s: Table, d: nat, room: bool) {
    var l := Entries(s, d);
    l != [] && ((exists k :: 0 <= k < |l| && l[k].inode == 0) || |l| * 16 % 1024 != 0 || room)
  }

  lemma TakesMeaning(s: Table, d: nat, room: bool)
    ensures CanAdd(s, d, room) <==> Takes(s, d, room)
  {
    var l := Entries(s, d);
    assert |l| == 64 * (|l| / 64) + |l| % 64;
    assert |l| * 16 == 1024 * (|l| / 64) + 16 * (|l| % 64);
    if FreeSlot(l, 0) < |l| { assert l[FreeSlot(l, 0)].inode == 0; }
  }

  /** A new entry takes the place of the first unused one; the list grows only when there is none. */
  ghost predicate Placed(l: seq<Entry>, r: seq<Entry>) {
    && |r| == |l| + (if exists k :: 0 <= k < |l| && l[k].inode == 0 then 0 else 1)
    && (forall k | 0 <= k < |l| && l[k].inode != 0 :: r[k] == l[k])
    && (forall j, k | 0 <= j < k < |l| && l[j].inode == 0 :: r[k] == l[k])
  }

  lemma AddPlaces(l: seq<Entry>, n: seq<Byte>, i: nat)
    ensures Placed(l, AddEntry(l, n, i))
  {
    var k := FreeSlot(l, 0);
    if k < |l| { assert l[k].inode == 0; }
    hide FreeSlot, Padded;
  }

  /** The creating path of open_namei, and mknod, which may make an empty "directory". */
  function Create(s: Table, d: nat, n: seq<Byte>, isDir: bool, isRoot: bool, room: bool): (Table, Outcome)
    requires NamesOk(s) && IsDir(s, d)
  {
    var i := FreeInode(s, 1);
    if Lookup(s, d, n, isRoot) < |Entries(s, d)| || i >= |s| || !CanAdd(s, d, room) then (s, Failed)
    else (SetEntries(s[i := Some(Node(isDir, 1, []))], d, AddEntry(Entries(s, d), n, i), 0), Done)
  }

  /** sys_mkdir.  When its add_entry fails, the zone of the new directory is freed twice. */
  function Mkdir(s: Table, d: nat, n: seq<Byte>, isRoot: bool, block: bool, room: bool): (Table, Outcome)
    requires NamesOk(s) && IsDir(s, d)
  {
    var i := FreeInode(s, 1);
    if Lookup(s, d, n, isRoot) < |Entries(s, d)| || i >= |s| || !block then (s, Failed)
    else if !CanAdd(s, d, room) then (s, Panic)
    else (SetEntries(s[i := Some(Node(true, 2, [Entry(i, DOT), Entry(d, DOTDOT)]))], d, AddEntry(Entries(s, d), n, i), 1), Done)
  }

  /** sys_rmdir; `busy` when somebody else uses the directory.  Its inode is free afterwards. */
  function Rmdir(s: Table, d: nat, n: seq<Byte>, isRoot: bool, busy: bool): (Table, Outcome)
    requires NamesOk(s) && IsDir(s, d)
  {
    var l, k := Entries(s, d), Lookup(s, d, n, isRoot);
    if k == |l| then (s, Failed)
    else
      var i := l[k].inode;
      if busy || i == d || !IsDir(s, i) || !EmptyDir(Entries(s, i), i) then (s, Failed)
      else (SetEntries(s, d, l[k := l[k].(inode := 0)], -1)[i := None], Done)
  }

  /** sys_unlink; `open` when the file is still in use, so that its inode stays. */
  function Unlink(s: Table, d: nat, n: seq<Byte>, isRoot: bool, open: bool): (Table, Outcome)
    requires NamesOk(s) && IsDir(s, d)
  {
    var l, k := Entries(s, d), Lookup(s, d, n, isRoot);
    if k == |l| || !IsNode(s, l[k].inode) || IsDir(s, l[k].inode) then (s, Failed)
    else
      var i := l[k].inode;
      var t := SetEntries(s, d, l[k := l[k].(inode := 0)], 0);
      var links := if t[i].value.nlinks == 0 then 1 else t[i].value.nlinks;
      (t[i := if links - 1 == 0 && !open then None else Some(t[i].value.(nlinks := links - 1))], Done)
  }

  /** One more entry and one more link. */
  function MoreLinks(s: Table, i: nat, d: nat, n: seq<Byte>): Table
    requires IsDir(s, d) && IsNode(s, i)
  {
    var t := SetEntries(s, d, AddEntry(Entries(s, d), n, i), 0);
    t[i := Some(t[i].value.(nlinks := t[i].value.nlinks + 1))]
  }

  /** sys_link of the inode i, which is no directory. */
  function Link(s: Table, i: nat, d: nat, n: seq<Byte>, isRoot: bool, room: bool): (Table, Outcome)
    requires NamesOk(s) && IsDir(s, d) && IsNode(s, i)
  {
    if IsDir(s, i) || Lookup(s, d, n, isRoot) < |Entries(s, d)| || !CanAdd(s, d, room) then (s, Failed)
    else (MoreLinks(s, i, d, n), Done)
  }

  /** The last iput of an inode without links. */
  function Close(s: Table, i: nat): Table
    requires IsNode(s, i)
  {
    if s[i].value.nlinks == 0 then s[i := None] else s
  }
}
