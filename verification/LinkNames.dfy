// What the directory calls mean for names: a directory is a finite relation between names and inodes,
// wherever its entries stand.

module LinkNames {
  import opened Common
  import opened LinkModel
  import opened LinkProofs

  // ----- directories as relations ------------------------------------------------------------------

  /** The list has a live entry x for the inode i. */
  ghost predicate Has(l: seq<Entry>, x: seq<Byte>, i: nat) {
    i != 0 && exists k :: 0 <= k < |l| && l[k] == Entry(i, x)
  }

  ghost predicate Named(s: Table, d: nat, x: seq<Byte>, i: nat) { Has(Entries(s, d), x, i) }

  /** The stored form of what find_entry looks for. */
  function Key(n: seq<Byte>, isRoot: bool): seq<Byte> {
    if isRoot && n == [46, 46] then DOT else Padded(n)
  }

  lemma AddNames(l: seq<Entry>, n: seq<Byte>, i: nat, x: seq<Byte>, j: nat)
    requires |l| >= 2 && l[0].inode != 0 && l[1].inode != 0 && i != 0
    ensures Has(AddEntry(l, n, i), x, j) <==> Has(l, x, j) || (x, j) == (Padded(n), i)
  {
    Added(l, n, i);
    var p, r := FreeSlot(l, 0), AddEntry(l, n, i);
    hide AddEntry, FreeSlot, Padded;
    if Has(l, x, j) {
      var k :| 0 <= k < |l| && l[k] == Entry(j, x);
      assert r[k] == l[k];
    }
    if Has(r, x, j) {
      var k :| 0 <= k < |r| && r[k] == Entry(j, x);
      if k != p { assert l[k] == r[k]; }
    }
  }

  lemma DropNames(l: seq<Entry>, k: nat, x: seq<Byte>, j: nat)
    requires Apart(l) && k < |l| && l[k].inode != 0
    ensures Has(l[k := l[k].(inode := 0)], x, j) <==> Has(l, x, j) && x != l[k].name
  {
    var r := l[k := l[k].(inode := 0)];
    if Has(r, x, j) {
      var m :| 0 <= m < |r| && r[m] == Entry(j, x);
      assert l[m] == r[m];
    }
    if Has(l, x, j) && x != l[k].name {
      var m :| 0 <= m < |l| && l[m] == Entry(j, x);
      assert r[m] == l[m];
    }
  }

  // ----- looking up ----------------------------------------------------------------------------------

  /** find_entry finds the one inode that the directory has under the name, or there is none. */
  lemma LookupMeaning(s: Table, d: nat, n: seq<Byte>, isRoot: bool)
    requires Inv(s) && IsDir(s, d) && IsName(n)
    ensures NamesOk(s)
    ensures var l, k := Entries(s, d), Lookup(s, d, n, isRoot);
      (k < |l| ==> l[k].inode != 0 && l[k].name == Key(n, isRoot)) &&
      forall i :: Named(s, d, Key(n, isRoot), i) <==> k < |l| && i == l[k].inode
  {
    ShapeNames(s);
    var l, k := Entries(s, d), Lookup(s, d, n, isRoot);
    var m := if isRoot && n == [46, 46] then [46] else n;
    forall j | 0 <= j < |l| && l[j].inode != 0 ensures Match(Cut(m), l[j]) <==> l[j].name == Key(n, isRoot) {
      assert EntryOk(s, l[j]);
      MatchMeaning(m, l[j]);
    }
    if k < |l| { assert l[k] == Entry(l[k].inode, Key(n, isRoot)); }
    forall i | Named(s, d, Key(n, isRoot), i) ensures k < |l| && i == l[k].inode {
      var j :| 0 <= j < |l| && l[j] == Entry(i, Key(n, isRoot));
      assert Match(Cut(m), l[j]);
    }
  }

  /** The directory has no entry under the name. */
  ghost predicate Absent(s: Table, d: nat, x: seq<Byte>) { forall i: nat :: !Named(s, d, x, i) }

  lemma AbsentMeaning(s: Table, d: nat, n: seq<Byte>, isRoot: bool)
    requires Inv(s) && IsDir(s, d) && IsName(n)
    ensures NamesOk(s) && (Absent(s, d, Key(n, isRoot)) <==> Lookup(s, d, n, isRoot) == |Entries(s, d)|)
  {
    LookupMeaning(s, d, n, isRoot);
    hide Inv, Named, Key, IsDir, IsName, Find;
    var l, k := Entries(s, d), Lookup(s, d, n, isRoot);
    if k < |l| { assert Named(s, d, Key(n, isRoot), l[k].inode); }
  }

  // ----- what changes -----------------------------------------------------------------------------------

  /** Beside i and the link count of d, the inodes are as they were. */
  ghost predicate SameOthers(s: Table, t: Table, d: nat, i: nat, more: int) {
    && |t| == |s|
    && forall e: nat | e != i :: (IsNode(t, e) <==> IsNode(s, e)) && (IsDir(t, e) <==> IsDir(s, e)) &&
         (IsNode(s, e) && IsNode(t, e) ==> t[e].value.nlinks == s[e].value.nlinks + if e == d then more else 0)
  }

  /** t has the names of s and x for i in d. */
  ghost predicate Entered(s: Table, t: Table, d: nat, x: seq<Byte>, i: nat) {
    forall e: nat, y, j: nat :: Named(t, e, y, j) <==> Named(s, e, y, j) || (e, y, j) == (d, x, i)
  }

  /** t has the names of s but x in d. */
  ghost predicate Dropped(s: Table, t: Table, d: nat, x: seq<Byte>) {
    forall e: nat, y, j: nat :: Named(t, e, y, j) <==> Named(s, e, y, j) && (e, y) != (d, x)
  }

  /** new_inode takes the lowest free number, and fails only when there is none. */
  lemma {:induction false} FreeInodeMeaning(s: Table, i: nat)
    requires 0 < i <= |s|
    ensures forall j | i <= j < FreeInode(s, i) :: s[j].Some?
    decreases |s| - i
  {
    if i < |s| && s[i].Some? { FreeInodeMeaning(s, i + 1); }
  }

  lemma GrownNames(s: Table, t: Table, d: nat, n: seq<Byte>, i: nat, node: Node, more: int, e: nat, x: seq<Byte>, j: nat)
    requires Grown(s, t, d, n, i, node, more)
    ensures Named(t, e, x, j) <==> Named(s, e, x, j) || (e, x, j) == (d, Padded(n), i) || (e == i && Has(node.entries, x, j))
  {
    GrownEntries(s, t, d, n, i, node, more);
    ProperStarts(s);
    hide Entries, AddEntry, Padded, Shape, Has;
    if e == d { AddNames(Entries(s, d), n, i, x, j); }
    if e == i { assert !Has([], x, j) by { EmptyHas(x, j); } }
  }

  lemma EmptyHas(x: seq<Byte>, j: nat)
    ensures !Has([], x, j)
  {
  }

  lemma GrownOthers(s: Table, t: Table, d: nat, n: seq<Byte>, i: nat, node: Node, more: int)
    requires Grown(s, t, d, n, i, node, more)
    ensures SameOthers(s, t, d, i, more)
  {
    assert IsDir(s, d);
    hide AddEntry, Shape, Proper;
    forall e: nat | e != i && e != d && e < |s|
      ensures (IsNode(t, e) <==> IsNode(s, e)) && (IsDir(t, e) <==> IsDir(s, e)) && (IsNode(s, e) ==> t[e] == s[e])
    {
      assert t[e] == s[e];
    }
  }

  // ----- the calls ---------------------------------------------------------------------------------------

  /** open with O_CREAT and mknod succeed exactly when the name is not there, an inode is free and the
      directory takes an entry; then the name stands for the lowest free inode, which has one link, and no
      other name and no other inode changes. */
  lemma CreateMeaning(s: Table, d: nat, n: seq<Byte>, isDir: bool, isRoot: bool, room: bool)
    requires Inv(s) && IsDir(s, d) && IsName(n)
    ensures NamesOk(s)
    ensures var (t, out) := Create(s, d, n, isDir, isRoot, room); var i := FreeInode(s, 1);
      (out == Done <==> Absent(s, d, Key(n, isRoot)) && (exists j :: 0 < j < |s| && s[j].None?) && Takes(s, d, room)) &&
      (out != Done ==> out == Failed && t == s) &&
      (out == Done ==> 0 < i < |s| && s[i].None? && (forall j | 0 < j < i :: s[j].Some?) && t[i] == Some(Node(isDir, 1, [])) &&
                       SameOthers(s, t, d, i, 0) && Entered(s, t, d, Padded(n), i) && Placed(Entries(s, d), Entries(t, d)))
  {
    TakesMeaning(s, d, room);
    AbsentMeaning(s, d, n, isRoot);
    FreeInodeMeaning(s, 1);
    var i := FreeInode(s, 1);
    var (t, out) := Create(s, d, n, isDir, isRoot, room);
    if out == Done {
      NewInode(s, d, n, i, Node(isDir, 1, []), 0);
      GrownEntries(s, t, d, n, i, Node(isDir, 1, []), 0);
      AddPlaces(Entries(s, d), n, i);
      GrownOthers(s, t, d, n, i, Node(isDir, 1, []), 0);
      hide Create, Inv, Lookup, NamesOk, SameOthers, CanAdd, Absent, Key, AddEntry, Padded, Named, Has, Entered;
      CreatedNames(s, t, d, n, i, isDir);
    }
  }

  lemma CreatedNames(s: Table, t: Table, d: nat, n: seq<Byte>, i: nat, isDir: bool)
    requires Grown(s, t, d, n, i, Node(isDir, 1, []), 0)
    ensures Entered(s, t, d, Padded(n), i)
  {
    hide Grown, Named, Has, Padded;
    forall e: nat, x, j: nat ensures Named(t, e, x, j) <==> Named(s, e, x, j) || (e, x, j) == (d, Padded(n), i) {
      GrownNames(s, t, d, n, i, Node(isDir, 1, []), 0, e, x, j);
      EmptyHas(x, j);
    }
  }

  /** sys_mkdir: the same for a directory, which is born with "." and "..", each a link. */
  lemma MkdirMeaning(s: Table, d: nat, n: seq<Byte>, isRoot: bool, block: bool, room: bool)
    requires Inv(s) && IsDir(s, d) && IsName(n)
    ensures NamesOk(s)
    ensures var (t, out) := Mkdir(s, d, n, isRoot, block, room); var i := FreeInode(s, 1);
      (out != Failed <==> Absent(s, d, Key(n, isRoot)) && (exists j :: 0 < j < |s| && s[j].None?) && block) &&
      (out == Done <==> out != Failed && Takes(s, d, room)) &&
      (out != Done ==> t == s) &&
      (out == Done ==> 0 < i < |s| && s[i].None? && (forall j | 0 < j < i :: s[j].Some?) && t[i].Some? && t[i].value.isDir && t[i].value.nlinks == 2 &&
                       SameOthers(s, t, d, i, 1) && MadeDirectory(s, t, d, Padded(n), i) && Placed(Entries(s, d), Entries(t, d)))
  {
    TakesMeaning(s, d, room);
    AbsentMeaning(s, d, n, isRoot);
    FreeInodeMeaning(s, 1);
    var i := FreeInode(s, 1);
    var (t, out) := Mkdir(s, d, n, isRoot, block, room);
    if out == Done {
      var node := Node(true, 2, [Entry(i, DOT), Entry(d, DOTDOT)]);
      NewInode(s, d, n, i, node, 1);
      GrownEntries(s, t, d, n, i, node, 1);
      AddPlaces(Entries(s, d), n, i);
      GrownOthers(s, t, d, n, i, node, 1);
      hide Mkdir, Inv, Lookup, NamesOk, SameOthers, CanAdd, Absent, Key, AddEntry, Padded, Named, Has, MadeDirectory;
      MadeNames(s, t, d, n, i);
    }
  }

  lemma MadeNames(s: Table, t: Table, d: nat, n: seq<Byte>, i: nat)
    requires Grown(s, t, d, n, i, Node(true, 2, [Entry(i, DOT), Entry(d, DOTDOT)]), 1)
    ensures MadeDirectory(s, t, d, Padded(n), i)
  {
    assert d != 0 && i != 0 by { RootIsNotZero(s); }
    hide Grown, Shape, Named, Has, DOT, DOTDOT, Padded;
    forall e: nat, x, j: nat
      ensures Named(t, e, x, j) <==> Named(s, e, x, j) || (e, x, j) in {(d, Padded(n), i), (i, DOT, i), (i, DOTDOT, d)}
    {
      GrownNames(s, t, d, n, i, Node(true, 2, [Entry(i, DOT), Entry(d, DOTDOT)]), 1, e, x, j);
      OwnNames(i, d, x, j);
    }
  }

  /** t has the names of s, x for i in d, and in i "." for i and ".." for d. */
  ghost predicate MadeDirectory(s: Table, t: Table, d: nat, x: seq<Byte>, i: nat) {
    forall e: nat, y, j: nat :: Named(t, e, y, j) <==> Named(s, e, y, j) || (e, y, j) in {(d, x, i), (i, DOT, i), (i, DOTDOT, d)}
  }

  lemma OwnNames(i: nat, d: nat, x: seq<Byte>, j: nat)
    requires i != 0 && d != 0
    ensures Has([Entry(i, DOT), Entry(d, DOTDOT)], x, j) <==> (x, j) == (DOT, i) || (x, j) == (DOTDOT, d)
  {
    var l := [Entry(i, DOT), Entry(d, DOTDOT)];
    assert l[0] == Entry(i, DOT) && l[1] == Entry(d, DOTDOT);
  }

  /** sys_link succeeds exactly for a file and a name that is not there, when the directory takes an entry;
      then the name stands for the file, which has one more link. */
  lemma LinkMeaning(s: Table, i: nat, d: nat, n: seq<Byte>, isRoot: bool, room: bool)
    requires Inv(s) && IsDir(s, d) && IsNode(s, i) && IsName(n)
    ensures NamesOk(s)
    ensures var (t, out) := Link(s, i, d, n, isRoot, room);
      (out == Done <==> !IsDir(s, i) && Absent(s, d, Key(n, isRoot)) && Takes(s, d, room)) &&
      (out != Done ==> out == Failed && t == s) &&
      (out == Done ==> IsNode(t, i) && !IsDir(t, i) && t[i].value.nlinks == s[i].value.nlinks + 1 &&
                       SameOthers(s, t, d, i, 0) && Entered(s, t, d, Padded(n), i) && Placed(Entries(s, d), Entries(t, d)))
  {
    TakesMeaning(s, d, room);
    AbsentMeaning(s, d, n, isRoot);
    var (t, out) := Link(s, i, d, n, isRoot, room);
    if out == Done {
      assert LinkedMore(s, t, d, n, i);
      LinkedEntries(s, t, d, n, i);
      AddPlaces(Entries(s, d), n, i);
      hide Inv, Lookup, NamesOk, SameOthers, CanAdd, Absent, IsDir, Key, AddEntry, Padded, Has, Entries, Shape, Find, Named;
      LinkedOthers(s, t, d, n, i);
      LinkedNames(s, t, d, n, i);
    }
  }

  lemma LinkedOthers(s: Table, t: Table, d: nat, n: seq<Byte>, i: nat)
    requires LinkedMore(s, t, d, n, i)
    ensures SameOthers(s, t, d, i, 0) && IsNode(t, i) && !IsDir(t, i) && t[i].value.nlinks == s[i].value.nlinks + 1
  {
    LinkedEntries(s, t, d, n, i);
    assert IsDir(s, d) && IsNode(s, i);
    LinkedLinks(s, t, d, AddEntry(Entries(s, d), n, i), i);
    hide LinkedMore, AddEntry, Shape, Proper, Entries, SetEntries;
  }

  lemma LinkedLinks(s: Table, t: Table, d: nat, l: seq<Entry>, i: nat)
    requires IsDir(s, d) && IsNode(s, i) && d != i
    requires t == SetEntries(s, d, l, 0)[i := Some(s[i].value.(nlinks := s[i].value.nlinks + 1))]
    ensures |t| == |s| && t[i] == Some(s[i].value.(nlinks := s[i].value.nlinks + 1))
    ensures forall e | 0 <= e < |s| && e != i && s[e].Some? :: t[e].Some? && t[e].value.nlinks == s[e].value.nlinks
  {
  }

  lemma LinkedNames(s: Table, t: Table, d: nat, n: seq<Byte>, i: nat)
    requires LinkedMore(s, t, d, n, i)
    ensures Entered(s, t, d, Padded(n), i)
  {
    LinkedEntries(s, t, d, n, i);
    ProperStarts(s);
    assert Proper(s, d);
    hide LinkedMore, Entries, AddEntry, Padded, Shape, Has, IsDir, IsNode;
    forall e: nat, x, j: nat ensures Named(t, e, x, j) <==> Named(s, e, x, j) || (e, x, j) == (d, Padded(n), i) {
      if e == d { AddNames(Entries(s, d), n, i, x, j); }
    }
  }

  // ----- taking names away -----------------------------------------------------------------------------

  lemma RemovedNames(s: Table, t: Table, d: nat, k: nat, i: nat, e: nat, x: seq<Byte>, j: nat)
    requires Removed(s, t, d, k, i) && Unique(s)
    ensures Named(t, e, x, j) <==> Named(s, e, x, j) && (e, x) != (d, Entries(s, d)[k].name) && (e == i ==> IsNode(t, i))
  {
    if e == d {
      assert Apart(Entries(s, d));
      hide Entries, Unique, Shape, Tree, IsDir, IsNode, Has, Apart;
      DropNames(Entries(s, d), k, x, j);
    } else {
      hide Unique, Shape, Tree, Has;
      EmptyHas(x, j);
    }
  }

  lemma UnlinkedLinks(s: Table, d: nat, k: nat, open: bool, i: nat, t: Table)
    requires IsDir(s, d) && k < |Entries(s, d)| && i == Entries(s, d)[k].inode != 0 && IsNode(s, i) && !IsDir(s, i) && t == Unlinked(s, d, k, open)
    requires Entries(s, i) == [] == Entries(t, i) && s[i].value.nlinks > 0 && Entries(s, d) != []
    ensures SameOthers(s, t, d, i, 0) && (IsNode(t, i) ==> !IsDir(t, i) && t[i].value.nlinks == s[i].value.nlinks - 1)
  {
    UnlinkTable(s, d, k, open, i, t);
    assert IsNode(s, d) && IsDir(t, d);
    hide Entries, Unlinked;
  }

  lemma UnlinkedOthers(s: Table, d: nat, k: nat, open: bool, i: nat, t: Table)
    requires Inv(s) && IsDir(s, d) && k < |Entries(s, d)| && i == Entries(s, d)[k].inode != 0 && IsNode(s, i) && !IsDir(s, i) && t == Unlinked(s, d, k, open)
    ensures SameOthers(s, t, d, i, 0) && (IsNode(t, i) <==> s[i].value.nlinks > 1 || open)
    ensures IsNode(t, i) ==> !IsDir(t, i) && t[i].value.nlinks == s[i].value.nlinks - 1
    ensures Dropped(s, t, d, Entries(s, d)[k].name)
  {
    UnlinkRemoves(s, d, k, open, i, t);
    UnlinkedLinks(s, d, k, open, i, t);
    assert Unique(s);
    hide Inv, Unlinked, Named, Entries, Shape, Tree, Unique, Has, SameOthers, Removed, IsNode, IsDir, Counted;
    forall e: nat, x, j: nat ensures Named(t, e, x, j) <==> Named(s, e, x, j) && (e, x) != (d, Entries(s, d)[k].name) {
      RemovedNames(s, t, d, k, i, e, x, j);
      if e == i { NoNames(s, i, x, j); }
    }
  }

  lemma NoNames(s: Table, i: nat, x: seq<Byte>, j: nat)
    requires Entries(s, i) == []
    ensures !Named(s, i, x, j)
  {
  }

  /** sys_unlink succeeds exactly when the name stands for a file; then only that name goes and the file loses
      one link, and it is gone when that was the last one and nobody has it open. */
  lemma UnlinkMeaning(s: Table, d: nat, n: seq<Byte>, isRoot: bool, open: bool)
    requires Inv(s) && IsDir(s, d) && IsName(n)
    ensures NamesOk(s)
    ensures var (t, out) := Unlink(s, d, n, isRoot, open); var x := Key(n, isRoot);
      (out == Done <==> exists i: nat :: Named(s, d, x, i) && !IsDir(s, i)) &&
      (out != Done ==> out == Failed && t == s) &&
      (out == Done ==> Dropped(s, t, d, x) && forall i: nat | Named(s, d, x, i) :: LostLink(s, t, d, i, open))
  {
    LookupMeaning(s, d, n, isRoot);
    var l, k := Entries(s, d), Lookup(s, d, n, isRoot);
    var (t, out) := Unlink(s, d, n, isRoot, open);
    if k < |l| {
      assert EntryOk(s, l[k]) && Named(s, d, Key(n, isRoot), l[k].inode);
      if out == Done {
        assert t == Unlinked(s, d, k, open);
        UnlinkedOthers(s, d, k, open, l[k].inode, t);
      }
    }
    hide Inv, Unlinked, Named, Dropped, SameOthers, Key, Find;
  }

  /** The file i has one link less in t; without links it stays only as long as it is open. */
  ghost predicate LostLink(s: Table, t: Table, d: nat, i: nat, open: bool) {
    && SameOthers(s, t, d, i, 0) && IsNode(s, i) && (IsNode(t, i) <==> s[i].value.nlinks > 1 || open)
    && (IsNode(t, i) ==> !IsDir(t, i) && t[i].value.nlinks == s[i].value.nlinks - 1)
  }

  /** Nothing but "." and "..", in a directory that has both. */
  ghost predicate Bare(s: Table, i: nat) {
    Proper(s, i) && forall x, j: nat | Named(s, i, x, j) :: x == DOT || x == DOTDOT
  }

  lemma LiveHas(l: seq<Entry>, k: nat)
    requires k < |l|
    ensures l[k].inode != 0 ==> Has(l, l[k].name, l[k].inode)
  {
    assert l[k] == Entry(l[k].inode, l[k].name);
  }

  /** Two live entries come first; the rest is unused exactly when there is no third name. */
  lemma BareList(l: seq<Entry>)
    requires |l| >= 2 && l[0].inode != 0 && l[1].inode != 0 && Apart(l)
    ensures (forall k | 2 <= k < |l| :: l[k].inode == 0) <==> forall x, j: nat | Has(l, x, j) :: x == l[0].name || x == l[1].name
  {
    if forall x, j: nat | Has(l, x, j) :: x == l[0].name || x == l[1].name {
      forall k | 2 <= k < |l| ensures l[k].inode == 0 { LiveHas(l, k); }
    }
  }

  lemma BareMeaning(s: Table, i: nat)
    requires Inv(s)
    ensures Bare(s, i) <==> IsDir(s, i) && EmptyDir(Entries(s, i), i)
  {
    hide Inv;
    if Proper(s, i) {
      DirectoryStarts(s, i);
      hide Entries, IsDir, Apart, Has, DOT, DOTDOT;
      BareList(Entries(s, i));
      forall x, j: nat ensures Named(s, i, x, j) <==> Has(Entries(s, i), x, j) {}
    }
  }

  lemma DirectoryStarts(s: Table, i: nat)
    requires Inv(s) && Proper(s, i)
    ensures var l := Entries(s, i);
      Apart(l) && |l| >= 2 && l[0].inode == i != 0 && l[1].inode != 0 && l[0].name == DOT && l[1].name == DOTDOT
  {
    ProperStarts(s);
    assert Starts(s, i);
    RootIsNotZero(s);
  }

  /** t has the names of s but x in d and the names in i. */
  ghost predicate DroppedDirectory(s: Table, t: Table, d: nat, x: seq<Byte>, i: nat) {
    forall e: nat, y, j: nat :: Named(t, e, y, j) <==> Named(s, e, y, j) && (e, y) != (d, x) && e != i
  }

  /** sys_rmdir succeeds exactly when the name stands for a directory other than d, not in use elsewhere, with
      no name but "." and ".."; then that name and the directory go, and d loses the link of its "..". */
  lemma RmdirMeaning(s: Table, d: nat, n: seq<Byte>, isRoot: bool, busy: bool)
    requires Inv(s) && IsDir(s, d) && IsName(n)
    ensures NamesOk(s)
    ensures var (t, out) := Rmdir(s, d, n, isRoot, busy); var x := Key(n, isRoot);
      (out == Done <==> !busy && exists i: nat :: i != d && Named(s, d, x, i) && Bare(s, i)) &&
      (out != Done ==> out == Failed && t == s) &&
      (out == Done ==> forall i: nat | Named(s, d, x, i) :: !IsNode(t, i) && SameOthers(s, t, d, i, -1) && DroppedDirectory(s, t, d, x, i))
  {
    LookupMeaning(s, d, n, isRoot);
    var l, k := Entries(s, d), Lookup(s, d, n, isRoot);
    var (t, out) := Rmdir(s, d, n, isRoot, busy);
    if k < |l| {
      var i := l[k].inode;
      assert Named(s, d, Key(n, isRoot), i);
      BareMeaning(s, i);
      if out == Done { RmdirNames(s, d, k, t); }
    }
    hide Inv, Named, DroppedDirectory, SameOthers, Key, Find, Bare, EmptyDir;
  }

  lemma RmdirOthers(s: Table, t: Table, d: nat, i: nat)
    requires |t| == |s| && IsDir(s, d) && IsDir(t, d)
    requires forall x: nat | x != d && x != i :: Entries(t, x) == Entries(s, x) && IsNode(t, x) == IsNode(s, x) && IsDir(t, x) == IsDir(s, x)
    requires forall x | 0 <= x < |t| && IsNode(t, x) :: IsNode(s, x) && t[x].value.nlinks == s[x].value.nlinks - if x == d then 1 else 0
    ensures SameOthers(s, t, d, i, -1)
  {
  }

  lemma RmdirNames(s: Table, d: nat, k: nat, t: Table)
    requires Inv(s) && IsDir(s, d) && k < |Entries(s, d)|
    requires var i := Entries(s, d)[k].inode; i != 0 && i != d && IsDir(s, i) && EmptyDir(Entries(s, i), i)
    requires t == SetEntries(s, d, Entries(s, d)[k := Entries(s, d)[k].(inode := 0)], -1)[Entries(s, d)[k].inode := None]
    ensures var i := Entries(s, d)[k].inode; !IsNode(t, i) && SameOthers(s, t, d, i, -1) && DroppedDirectory(s, t, d, Entries(s, d)[k].name, i)
  {
    var i := Entries(s, d)[k].inode;
    RmdirRemoves(s, d, k, t);
    RmdirTable(s, d, k, i, t);
    RmdirOthers(s, t, d, i);
    assert Unique(s);
    hide Inv, Named, Entries, Shape, Tree, Unique, Has, IsDir, IsNode, Removed, SetEntries, EmptyDir, SameOthers;
    forall e: nat, x, j: nat ensures Named(t, e, x, j) <==> Named(s, e, x, j) && (e, x) != (d, Entries(s, d)[k].name) && e != i {
      RemovedNames(s, t, d, k, i, e, x, j);
    }
  }

  // ----- round trips ---------------------------------------------------------------------------------------

  ghost predicate SameNames(s: Table, t: Table) {
    forall e: nat, x, j: nat :: Named(t, e, x, j) <==> Named(s, e, x, j)
  }

  /** The same inodes with the same link counts. */
  ghost predicate SameNodes(s: Table, t: Table) {
    && |t| == |s|
    && forall e: nat :: (IsNode(t, e) <==> IsNode(s, e)) && (IsDir(t, e) <==> IsDir(s, e)) && (IsNode(s, e) ==> t[e].value.nlinks == s[e].value.nlinks)
  }

  /** A name that is not there is looked up as it would be stored: ".." of a root directory is always there. */
  lemma KeyPlain(s: Table, d: nat, n: seq<Byte>, isRoot: bool)
    requires Inv(s) && Proper(s, d) && Absent(s, d, Key(n, isRoot))
    ensures Key(n, isRoot) == Padded(n)
  {
    DirectoryStarts(s, d);
    LiveHas(Entries(s, d), 0);
    assert Named(s, d, DOT, d);
  }

  lemma EnteredAndDropped(s: Table, t: Table, u: Table, d: nat, x: seq<Byte>, i: nat)
    requires Absent(s, d, x) && Entered(s, t, d, x, i) && Dropped(t, u, d, x)
    ensures SameNames(s, u) && Named(t, d, x, i)
  {
    hide Named;
  }

  lemma LinkedAndLost(s: Table, t: Table, u: Table, d: nat, i: nat, open: bool)
    requires IsNode(s, i) && !IsDir(s, i) && SameOthers(s, t, d, i, 0) && LostLink(t, u, d, i, open)
    requires IsNode(t, i) && t[i].value.nlinks == s[i].value.nlinks + 1 && s[i].value.nlinks > 0
    ensures SameNodes(s, u)
  {
  }

  /** sys_unlink undoes sys_link. */
  lemma LinkUndone(s: Table, i: nat, d: nat, n: seq<Byte>, isRoot: bool, room: bool, open: bool)
    requires Inv(s) && IsDir(s, d) && IsNode(s, i) && IsName(n) && s[i].value.nlinks > 0
    requires NamesOk(s) && Link(s, i, d, n, isRoot, room).1 == Done
    ensures var t := Link(s, i, d, n, isRoot, room).0;
      IsDir(t, d) && NamesOk(t) && var (u, out) := Unlink(t, d, n, isRoot, open); out == Done && SameNames(s, u) && SameNodes(s, u)
  {
    LinkMeaning(s, i, d, n, isRoot, room);
    LinkKeeps(s, i, d, n, isRoot, room);
    KeyPlain(s, d, n, isRoot);
    var t := Link(s, i, d, n, isRoot, room).0;
    assert IsDir(t, d) && Named(t, d, Padded(n), i);
    hide Inv, Link, Unlink, Named, NamesOk, Key, Padded, CanAdd, SameOthers, Entered, Dropped, Absent, LostLink;
    UnlinkMeaning(t, d, n, isRoot, open);
    var u := Unlink(t, d, n, isRoot, open).0;
    EnteredAndDropped(s, t, u, d, Padded(n), i);
    LinkedAndLost(s, t, u, d, i, open);
  }

  lemma MadeAndDropped(s: Table, t: Table, u: Table, d: nat, x: seq<Byte>, i: nat)
    requires Absent(s, d, x) && !IsNode(s, i) && i != d && MadeDirectory(s, t, d, x, i) && IsDir(t, i) && DroppedDirectory(t, u, d, x, i)
    ensures SameNames(s, u)
  {
    forall y, j: nat ensures !Named(s, i, y, j) { NoNames(s, i, y, j); }
    hide Named, DOT, DOTDOT;
  }

  lemma MadeAndGone(s: Table, t: Table, u: Table, d: nat, i: nat)
    requires !IsNode(s, i) && !IsNode(u, i) && SameOthers(s, t, d, i, 1) && SameOthers(t, u, d, i, -1)
    ensures SameNodes(s, u)
  {
  }

  lemma NewIsBare(s: Table, t: Table, d: nat, x: seq<Byte>, i: nat)
    requires !IsNode(s, i) && MadeDirectory(s, t, d, x, i) && IsDir(t, i) && i != d
    ensures Bare(t, i) && Named(t, d, x, i)
  {
    assert Named(t, i, DOT, i);
    forall y, j: nat | Named(t, i, y, j) ensures y == DOT || y == DOTDOT { NoNames(s, i, y, j); }
  }

  /** sys_rmdir undoes sys_mkdir. */
  lemma MkdirUndone(s: Table, d: nat, n: seq<Byte>, isRoot: bool, block: bool, room: bool)
    requires Inv(s) && IsDir(s, d) && IsName(n)
    requires NamesOk(s) && Mkdir(s, d, n, isRoot, block, room).1 == Done
    ensures var t := Mkdir(s, d, n, isRoot, block, room).0;
      IsDir(t, d) && NamesOk(t) && var (u, out) := Rmdir(t, d, n, isRoot, false); out == Done && SameNames(s, u) && SameNodes(s, u)
  {
    MkdirMeaning(s, d, n, isRoot, block, room);
    MkdirKeeps(s, d, n, isRoot, block, room);
    KeyPlain(s, d, n, isRoot);
    var t, i := Mkdir(s, d, n, isRoot, block, room).0, FreeInode(s, 1);
    assert IsDir(t, d) && i != d && !IsNode(s, i) && IsDir(t, i);
    hide Inv, Mkdir, Rmdir, Named, NamesOk, Key, Padded, CanAdd, DOT, DOTDOT, Bare, FreeInode, SameOthers, MadeDirectory, DroppedDirectory, Absent, IsDir, IsNode;
    NewIsBare(s, t, d, Padded(n), i);
    RmdirMeaning(t, d, n, isRoot, false);
    var u := Rmdir(t, d, n, isRoot, false).0;
    MadeAndDropped(s, t, u, d, Padded(n), i);
    MadeAndGone(s, t, u, d, i);
  }
}
