// Every call keeps the link counts, the names and the tree.

module LinkProofs {
  import opened Common
  import opened LinkModel
  import opened LinkCounts

  ghost predicate Proper(s: Table, d: nat) { IsDir(s, d) && Entries(s, d) != [] }

  /** Inode 1 is the root; a directory that has entries starts with itself and its parent; entries name
      inodes that exist. */
  ghost predicate Shape(s: Table) {
    && |s| > ROOT && s[0].None? && Proper(s, ROOT) && Starts(s, ROOT) && Entries(s, ROOT)[1].inode == ROOT
    && (forall d | 0 <= d < |s| && IsNode(s, d) && !IsDir(s, d) :: Entries(s, d) == [])
    && (forall d | 0 <= d < |s| && Proper(s, d) :: Starts(s, d))
    && (forall d, k | 0 <= d < |s| && 0 <= k < |Entries(s, d)| :: EntryOk(s, Entries(s, d)[k]))
  }

  ghost predicate EntryOk(s: Table, e: Entry) {
    |e.name| == NAME_LEN && (e.inode != 0 ==> IsNode(s, e.inode) && Tail(e.name))
  }

  ghost predicate Starts(s: Table, d: nat) {
    var l := Entries(s, d);
    |l| >= 2 && l[0] == Entry(d, DOT) && l[1].name == DOTDOT && l[1].inode != 0 && Proper(s, l[1].inode)
  }

  /** No directory has two live entries with one name. */
  ghost predicate Unique(s: Table) {
    forall d, j, k | 0 <= d < |s| && 0 <= j < k < |Entries(s, d)| && Entries(s, d)[j].inode != 0 && Entries(s, d)[k].inode != 0 ::
      Entries(s, d)[j].name != Entries(s, d)[k].name
  }

  /** i_nlinks is the number of live entries that name the inode. */
  ghost predicate Counted(s: Table) {
    forall i | 0 <= i < |s| && IsNode(s, i) :: s[i].value.nlinks == Count(s, i, |s|)
  }

  /** Beside "." and "..", a directory is named once, by the directory that its ".." names. */
  ghost predicate Tree(s: Table) {
    && (forall d, k | 0 <= d < |s| && 2 <= k < |Entries(s, d)| :: OnlyHere(s, d, k))
    && (forall i | 0 <= i < |s| && Proper(s, i) && i != ROOT :: Listed(s, i))
  }

  ghost predicate OnlyHere(s: Table, d: nat, k: nat)
    requires 2 <= k < |Entries(s, d)|
  {
    var x := Entries(s, d)[k].inode;
    && (Proper(s, x) ==> x != ROOT && |Entries(s, x)| >= 2 && Entries(s, x)[1].inode == d)
    && (IsDir(s, x) ==> forall j | 2 <= j < |Entries(s, d)| && j != k :: Entries(s, d)[j].inode != x)
  }

  ghost predicate Listed(s: Table, i: nat) {
    |Entries(s, i)| >= 2 && exists k :: 2 <= k < |Entries(s, Entries(s, i)[1].inode)| && Entries(s, Entries(s, i)[1].inode)[k].inode == i
  }

  ghost predicate Inv(s: Table) { Shape(s) && Unique(s) && Counted(s) && Tree(s) }

  // ----- single facts of the invariant ---------------------------------------------------------------

  lemma CountedAt(s: Table, x: nat)
    requires Counted(s) && IsNode(s, x)
    ensures s[x].value.nlinks == Count(s, x, |s|)
  {
  }

  lemma FileEmpty(s: Table, x: nat)
    requires Shape(s) && IsNode(s, x) && !IsDir(s, x)
    ensures Entries(s, x) == []
  {
  }

  lemma OnlyHereAt(s: Table, d: nat, k: nat)
    requires Tree(s) && d < |s| && 2 <= k < |Entries(s, d)|
    ensures OnlyHere(s, d, k)
  {
  }

  lemma ListedAt(s: Table, d: nat)
    requires Tree(s) && d < |s| && Proper(s, d) && d != ROOT
    ensures Listed(s, d)
  {
  }

  lemma StartsAt(s: Table, d: nat)
    requires Shape(s) && d < |s| && Proper(s, d)
    ensures var l := Entries(s, d);
      |l| >= 2 && l[0] == Entry(d, DOT) && l[1].name == DOTDOT && l[1].inode != 0 && Proper(s, l[1].inode) && (d == ROOT ==> l[1].inode == ROOT)
  {
    assert Starts(s, d);
  }

  lemma RootIsNotZero(s: Table)
    requires Shape(s)
    ensures |s| > ROOT && s[0].None?
  {
  }

  lemma ShapeNames(s: Table)
    requires Shape(s)
    ensures NamesOk(s)
  {
    forall d, k | 0 <= d < |s| && 0 <= k < |Entries(s, d)| ensures |Entries(s, d)[k].name| == NAME_LEN { assert EntryOk(s, Entries(s, d)[k]); }
  }

  // ----- finding and adding ------------------------------------------------------------------------

  lemma DotTails()
    ensures Tail(DOT) && Tail(DOTDOT) && DOT != DOTDOT
  {
    PaddedTail([46]);
    PaddedTail([46, 46]);
    assert DOT[1] == 0 && DOTDOT[1] == 46;
  }

  lemma SelfFound(s: Table, d: nat)
    requires Shape(s) && Proper(s, d)
    ensures Find(Entries(s, d), [46], 0) == 0
  {
    assert Starts(s, d);
    PaddedTail([46]);
    MatchMeaning([46], Entries(s, d)[0]);
  }

  /** A name that was not found is the name of no live entry. */
  lemma NotFound(s: Table, d: nat, n: seq<Byte>, isRoot: bool, k: nat)
    requires Shape(s) && Proper(s, d) && IsName(n) && k < |Entries(s, d)| && Entries(s, d)[k].inode != 0
    requires Lookup(s, d, n, isRoot) == |Entries(s, d)|
    ensures Entries(s, d)[k].name != Padded(n)
  {
    SelfFound(s, d);
    MatchMeaning(n, Entries(s, d)[k]);
  }

  lemma Added(l: seq<Entry>, n: seq<Byte>, i: nat)
    requires |l| >= 2 && l[0].inode != 0 && l[1].inode != 0
    ensures var k := FreeSlot(l, 0); var r := AddEntry(l, n, i);
      k >= 2 && k < |r| && r[k] == Entry(i, Padded(n)) && (k < |l| ==> |r| == |l| && l[k].inode == 0) && (k == |l| ==> |r| == |l| + 1) &&
      forall j | 0 <= j < |r| && j != k :: j < |l| && r[j] == l[j]
  {
  }

  /** No two live entries of a list have one name. */
  predicate Apart(l: seq<Entry>) {
    forall j, k | 0 <= j < k < |l| && l[j].inode != 0 && l[k].inode != 0 :: l[j].name != l[k].name
  }

  lemma AddedApart(s: Table, d: nat, n: seq<Byte>, isRoot: bool, i: nat)
    requires Shape(s) && Apart(Entries(s, d)) && d < |s| && Proper(s, d) && IsName(n) && NamesOk(s) && Lookup(s, d, n, isRoot) == |Entries(s, d)|
    ensures Apart(AddEntry(Entries(s, d), n, i))
  {
    StartsAt(s, d);
    hide Shape, Entries, FreeSlot, Padded, Find, Proper, NamesOk, IsName;
    var l, r := Entries(s, d), AddEntry(Entries(s, d), n, i);
    Added(l, n, i);
    var p := FreeSlot(l, 0);
    hide AddEntry;
    forall j, k | 0 <= j < k < |r| && r[j].inode != 0 && r[k].inode != 0 ensures r[j].name != r[k].name {
      if j == p {
        NotFound(s, d, n, isRoot, k);
      } else if k == p {
        NotFound(s, d, n, isRoot, j);
      } else {
        assert l[j] == r[j] && l[k] == r[k];
      }
    }
  }

  lemma AddedUnique(s: Table, d: nat, n: seq<Byte>, isRoot: bool, i: nat, t: Table)
    requires Shape(s) && Unique(s) && Proper(s, d) && IsName(n) && Lookup(s, d, n, isRoot) == |Entries(s, d)|
    requires |t| == |s| && Entries(t, d) == AddEntry(Entries(s, d), n, i)
    requires forall x | 0 <= x < |s| && x != d :: Entries(t, x) == Entries(s, x) || |Entries(t, x)| == 0 || (|Entries(t, x)| == 2 && Entries(t, x)[0].name != Entries(t, x)[1].name)
    ensures Unique(t)
  {
    assert d < |s| && Apart(Entries(s, d));
    ShapeNames(s);
    hide Shape, Entries, AddEntry, Lookup, Find, Proper, NamesOk, IsName;
    AddedApart(s, d, n, isRoot, i);
    assert Apart(Entries(t, d));
  }

  // ----- creating ----------------------------------------------------------------------------------

  /** t is s with the entry (n, i) added to d, and the new inode i whose own entries are `own`. */
  ghost predicate Grown(s: Table, t: Table, d: nat, n: seq<Byte>, i: nat, node: Node, more: int) {
    && Shape(s) && Proper(s, d) && 0 < i < |s| && s[i].None? && |t| == |s| && d != i
    && t[i] == Some(node) && t[d] == Some(s[d].value.(entries := AddEntry(Entries(s, d), n, i), nlinks := s[d].value.nlinks + more))
    && forall x | 0 <= x < |s| && x != d && x != i :: t[x] == s[x]
  }

  lemma NobodyNames(s: Table, i: nat)
    requires Shape(s) && i < |s| && s[i].None?
    ensures forall d, k | 0 <= d < |s| && 0 <= k < |Entries(s, d)| :: !Names(Entries(s, d)[k], i)
  {
  }

  /** The two tables, directory by directory. */
  lemma GrownEntries(s: Table, t: Table, d: nat, n: seq<Byte>, i: nat, node: Node, more: int)
    requires Grown(s, t, d, n, i, node, more)
    ensures Entries(t, d) == AddEntry(Entries(s, d), n, i) && Entries(t, i) == node.entries && Entries(s, i) == []
    ensures forall x: nat | x != d && x != i :: Entries(t, x) == Entries(s, x)
    ensures forall x: nat :: (IsNode(t, x) <==> IsNode(s, x) || x == i) && (IsDir(t, x) <==> IsDir(s, x) || (x == i && node.isDir))
    ensures !IsNode(s, i) && IsDir(s, d) && d < |s| == |t| && i < |s|
  {
    hide AddEntry, Shape;
    forall x: nat | x != d && x != i ensures Entries(t, x) == Entries(s, x) && IsNode(t, x) == IsNode(s, x) && IsDir(t, x) == IsDir(s, x) {
      if x < |s| { assert t[x] == s[x]; }
    }
  }

  lemma ProperStarts(s: Table)
    requires Shape(s)
    ensures forall d | 0 <= d < |s| && Proper(s, d) :: Starts(s, d)
    ensures forall d | 0 <= d < |s| && Proper(s, d) :: |Entries(s, d)| >= 2 && Entries(s, d)[0] == Entry(d, DOT) && Entries(s, d)[1].inode != 0
  {
    forall d | 0 <= d < |s| && Proper(s, d) ensures Starts(s, d) && |Entries(s, d)| >= 2 && Entries(s, d)[0] == Entry(d, DOT) && Entries(s, d)[1].inode != 0 {
      assert Starts(s, d);
    }
  }

  lemma GrownCounts(s: Table, t: Table, d: nat, n: seq<Byte>, i: nat, node: Node, more: int, x: nat)
    requires Grown(s, t, d, n, i, node, more)
    ensures Count(t, x, |t|) == Count(s, x, |s|) + One(x == i) + CountIn(node.entries, x)
    ensures Count(s, i, |s|) == 0
  {
    NobodyNames(s, i);
    CountZero(s, i, |s|);
    GrownEntries(s, t, d, n, i, node, more);
    hide AddEntry, Shape, Count, CountIn;
    var u := s[d := t[d]];
    assert Entries(u, d) == Entries(t, d);
    forall y: nat | y != d ensures Entries(u, y) == Entries(s, y) { if y < |s| { assert u[y] == s[y]; } }
    hide Entries;
    CountChange(u, t, i, x, |t|);
    CountChange(s, u, d, x, |t|);
    CountAdd(Entries(s, d), n, i, x);
  }

  lemma GrownStarts(s: Table, t: Table, d: nat, n: seq<Byte>, i: nat, node: Node, more: int, x: nat)
    requires Grown(s, t, d, n, i, node, more) && Proper(t, x)
    requires node.entries == [] || (node.isDir && node.entries == [Entry(i, DOT), Entry(d, DOTDOT)])
    ensures Starts(t, x)
  {
    GrownEntries(s, t, d, n, i, node, more);
    ProperStarts(s);
    Added(Entries(s, d), n, i);
    assert Proper(s, d);
    hide Entries, AddEntry, IsDir, IsNode, FreeSlot, Padded, Shape, Grown, DOT, DOTDOT;
    if x != i {
      assert Starts(s, x);
      assert Entries(t, x)[0] == Entries(s, x)[0] && Entries(t, x)[1] == Entries(s, x)[1];
    }
  }

  lemma GrownEntryOk(s: Table, t: Table, d: nat, n: seq<Byte>, i: nat, node: Node, more: int, e: nat, k: nat)
    requires Grown(s, t, d, n, i, node, more) && IsName(n) && e < |t| && k < |Entries(t, e)|
    requires node.entries == [] || (node.isDir && node.entries == [Entry(i, DOT), Entry(d, DOTDOT)])
    ensures EntryOk(t, Entries(t, e)[k])
  {
    GrownEntries(s, t, d, n, i, node, more);
    ProperStarts(s);
    Added(Entries(s, d), n, i);
    PaddedTail(n);
    DotTails();
    hide Entries, AddEntry, IsDir, IsNode, FreeSlot, Padded, Grown, Tail, Starts;
    if e != i && k < |Entries(s, e)| && Entries(t, e)[k] == Entries(s, e)[k] { assert EntryOk(s, Entries(s, e)[k]); }
  }

  lemma GrownShape(s: Table, t: Table, d: nat, n: seq<Byte>, i: nat, node: Node, more: int)
    requires Grown(s, t, d, n, i, node, more) && IsName(n)
    requires node.entries == [] || (node.isDir && node.entries == [Entry(i, DOT), Entry(d, DOTDOT)])
    ensures Shape(t)
  {
    assert t[0].None? && Entries(t, ROOT)[1].inode == ROOT && Proper(t, ROOT) by { GrownRoot(s, t, d, n, i, node, more); }
    hide Entries, AddEntry, FreeSlot, Padded, Tail, Starts, EntryOk;
    forall x | 0 <= x < |t| && Proper(t, x) ensures Starts(t, x) { GrownStarts(s, t, d, n, i, node, more, x); }
    forall e, k | 0 <= e < |t| && 0 <= k < |Entries(t, e)| ensures EntryOk(t, Entries(t, e)[k]) { GrownEntryOk(s, t, d, n, i, node, more, e, k); }
    GrownFiles(s, t, d, n, i, node, more);
    hide Grown;
  }

  lemma GrownRoot(s: Table, t: Table, d: nat, n: seq<Byte>, i: nat, node: Node, more: int)
    requires Grown(s, t, d, n, i, node, more)
    ensures t[0].None? && Proper(t, ROOT) && |Entries(t, ROOT)| >= 2 && Entries(t, ROOT)[1].inode == ROOT
  {
    GrownEntries(s, t, d, n, i, node, more);
    ProperStarts(s);
    Added(Entries(s, d), n, i);
    assert IsDir(s, ROOT) && ROOT != i;
    hide Entries, AddEntry, IsDir, FreeSlot, Padded;
  }

  lemma GrownFiles(s: Table, t: Table, d: nat, n: seq<Byte>, i: nat, node: Node, more: int)
    requires Grown(s, t, d, n, i, node, more) && (node.entries == [] || node.isDir)
    ensures forall x | 0 <= x < |t| && IsNode(t, x) && !IsDir(t, x) :: Entries(t, x) == []
  {
    GrownEntries(s, t, d, n, i, node, more);
    hide Entries, AddEntry, IsDir, IsNode, FreeSlot, Padded, Grown;
  }

  /** Each entry of e in t is the new one, or was there. */
  lemma GrownEntry(s: Table, t: Table, d: nat, n: seq<Byte>, i: nat, node: Node, more: int, e: nat, k: nat)
    requires Grown(s, t, d, n, i, node, more) && e != i && k < |Entries(t, e)|
    ensures if e == d && k == FreeSlot(Entries(s, d), 0) then Entries(t, e)[k].inode == i && k >= 2
            else k < |Entries(s, e)| && Entries(t, e)[k] == Entries(s, e)[k] && Entries(s, e)[k].inode != i
  {
    GrownEntries(s, t, d, n, i, node, more);
    ProperStarts(s);
    Added(Entries(s, d), n, i);
    NobodyNames(s, i);
    assert e >= |s| ==> Entries(s, e) == [];
    hide AddEntry, IsDir, FreeSlot, Padded, Shape, Grown, Entries;
    if !(e == d && k == FreeSlot(Entries(s, d), 0)) { assert !Names(Entries(s, e)[k], i); }
  }

  lemma GrownParent(s: Table, t: Table, d: nat, n: seq<Byte>, i: nat, node: Node, more: int, e: nat, k: nat)
    requires Grown(s, t, d, n, i, node, more) && Tree(s) && e < |t| && 2 <= k < |Entries(t, e)|
    requires node.entries == [] || (node.isDir && node.entries == [Entry(i, DOT), Entry(d, DOTDOT)])
    ensures OnlyHere(t, e, k)
  {
    GrownEntries(s, t, d, n, i, node, more);
    GrownEntry(s, t, d, n, i, node, more, e, k);
    hide Entries, AddEntry, IsDir, IsNode, FreeSlot, Padded, Shape, Grown, Listed;
    forall j | 2 <= j < |Entries(t, e)| && j != k ensures IsDir(t, Entries(t, e)[k].inode) ==> Entries(t, e)[j].inode != Entries(t, e)[k].inode {
      GrownEntry(s, t, d, n, i, node, more, e, j);
      if !(e == d && k == FreeSlot(Entries(s, d), 0)) { assert OnlyHere(s, e, k); }
    }
    ParentKept(s, t, d, n, i, node, more, e, k);
  }

  lemma ParentKept(s: Table, t: Table, d: nat, n: seq<Byte>, i: nat, node: Node, more: int, e: nat, k: nat)
    requires Grown(s, t, d, n, i, node, more) && Tree(s) && e < |t| && 2 <= k < |Entries(t, e)| && e != i
    requires node.entries == [] || (node.isDir && node.entries == [Entry(i, DOT), Entry(d, DOTDOT)])
    ensures var x := Entries(t, e)[k].inode; Proper(t, x) ==> x != ROOT && |Entries(t, x)| >= 2 && Entries(t, x)[1].inode == e
  {
    GrownEntries(s, t, d, n, i, node, more);
    GrownEntry(s, t, d, n, i, node, more, e, k);
    assert IsDir(s, ROOT) && i != ROOT;
    ProperStarts(s);
    Added(Entries(s, d), n, i);
    hide Entries, AddEntry, IsDir, IsNode, FreeSlot, Padded, Shape, Grown, Listed;
    if !(e == d && k == FreeSlot(Entries(s, d), 0)) { assert OnlyHere(s, e, k); }
  }

  lemma GrownListed(s: Table, t: Table, d: nat, n: seq<Byte>, i: nat, node: Node, more: int, x: nat)
    requires Grown(s, t, d, n, i, node, more) && Tree(s) && x < |t| && Proper(t, x) && x != ROOT
    requires node.entries == [] || (node.isDir && node.entries == [Entry(i, DOT), Entry(d, DOTDOT)])
    ensures Listed(t, x)
  {
    GrownEntries(s, t, d, n, i, node, more);
    ProperStarts(s);
    Added(Entries(s, d), n, i);
    hide Entries, AddEntry, IsDir, IsNode, FreeSlot, Padded, Shape, Grown, OnlyHere;
    if x == i {
      assert Entries(t, d)[FreeSlot(Entries(s, d), 0)].inode == i;
    } else {
      assert Listed(s, x);
      var q := Entries(s, x)[1].inode;
      var k :| 2 <= k < |Entries(s, q)| && Entries(s, q)[k].inode == x;
      ListedKept(s, t, d, n, i, node, more, q, k);
    }
  }

  /** Live entries stay where they are. */
  lemma ListedKept(s: Table, t: Table, d: nat, n: seq<Byte>, i: nat, node: Node, more: int, q: nat, k: nat)
    requires Grown(s, t, d, n, i, node, more) && k < |Entries(s, q)| && Entries(s, q)[k].inode != 0
    ensures k < |Entries(t, q)| && Entries(t, q)[k] == Entries(s, q)[k]
  {
    GrownEntries(s, t, d, n, i, node, more);
    ProperStarts(s);
    Added(Entries(s, d), n, i);
    hide Entries, AddEntry, IsDir, IsNode, FreeSlot, Padded, Shape, Grown;
  }

  lemma GrownTree(s: Table, t: Table, d: nat, n: seq<Byte>, i: nat, node: Node, more: int)
    requires Grown(s, t, d, n, i, node, more) && Tree(s)
    requires node.entries == [] || (node.isDir && node.entries == [Entry(i, DOT), Entry(d, DOTDOT)])
    ensures Tree(t)
  {
    hide Grown, OnlyHere, Listed, Entries;
    forall e, k | 0 <= e < |t| && 2 <= k < |Entries(t, e)| ensures OnlyHere(t, e, k) { GrownParent(s, t, d, n, i, node, more, e, k); }
    forall x | 0 <= x < |t| && Proper(t, x) && x != ROOT ensures Listed(t, x) { GrownListed(s, t, d, n, i, node, more, x); }
  }

  /** A new file or bare directory, or a new directory with its two entries. */
  predicate NewNode(node: Node, i: nat, d: nat, more: int) {
    (node.entries == [] && node.nlinks == 1 && more == 0) || (node == Node(true, 2, [Entry(i, DOT), Entry(d, DOTDOT)]) && more == 1)
  }

  lemma GrownCounted(s: Table, t: Table, d: nat, n: seq<Byte>, i: nat, node: Node, more: int, x: nat)
    requires Counted(s) && Grown(s, t, d, n, i, node, more) && NewNode(node, i, d, more) && x < |t| && IsNode(t, x)
    ensures t[x].value.nlinks == Count(t, x, |t|)
  {
    GrownCounts(s, t, d, n, i, node, more, x);
    GrownLinks(s, t, d, n, i, node, more, x);
    hide Count, CountIn, Shape, AddEntry, Entries, Grown, Counted;
    if node.entries != [] { OwnCount(i, d, x); }
    if x != i { CountedAt(s, x); }
    assert CountIn([], x) == 0 by { CountNone([], x); }
  }

  lemma GrownLinks(s: Table, t: Table, d: nat, n: seq<Byte>, i: nat, node: Node, more: int, x: nat)
    requires Grown(s, t, d, n, i, node, more) && x < |t| && IsNode(t, x)
    ensures d != 0 && i != 0 && d != i && |t| == |s| && (x != i ==> IsNode(s, x))
    ensures t[x].value.nlinks == if x == i then node.nlinks else s[x].value.nlinks + if x == d then more else 0
  {
    RootIsNotZero(s);
    assert IsDir(s, d);
    hide Shape, AddEntry, Entries, Proper;
  }

  lemma OwnCount(i: nat, d: nat, x: nat)
    requires i != 0 && d != 0
    ensures CountIn([Entry(i, DOT), Entry(d, DOTDOT)], x) == One(x == i) + One(x == d)
  {
    var l := [Entry(i, DOT), Entry(d, DOTDOT)];
    assert l[1..] == [Entry(d, DOTDOT)] && l[1..][1..] == [];
    assert CountIn(l[1..], x) == One(Names(l[1], x)) + CountIn(l[1..][1..], x);
  }

  lemma GrownUnique(s: Table, t: Table, d: nat, n: seq<Byte>, isRoot: bool, i: nat, node: Node, more: int)
    requires Unique(s) && Grown(s, t, d, n, i, node, more) && NewNode(node, i, d, more)
    requires IsName(n) && NamesOk(s) && Lookup(s, d, n, isRoot) == |Entries(s, d)|
    ensures Unique(t)
  {
    DotTails();
    GrownEntries(s, t, d, n, i, node, more);
    hide AddEntry, Entries;
    forall x | 0 <= x < |s| && x != d
      ensures Entries(t, x) == Entries(s, x) || |Entries(t, x)| == 0 || (|Entries(t, x)| == 2 && Entries(t, x)[0].name != Entries(t, x)[1].name)
    {
    }
    AddedUnique(s, d, n, isRoot, i, t);
  }

  lemma GrownInv(s: Table, t: Table, d: nat, n: seq<Byte>, isRoot: bool, i: nat, node: Node, more: int)
    requires Inv(s) && Grown(s, t, d, n, i, node, more) && IsName(n) && NamesOk(s) && Lookup(s, d, n, isRoot) == |Entries(s, d)|
    requires NewNode(node, i, d, more)
    ensures Inv(t)
  {
    hide Shape, Tree, Unique, Grown, Lookup, NamesOk;
    GrownShape(s, t, d, n, i, node, more);
    GrownTree(s, t, d, n, i, node, more);
    GrownUnique(s, t, d, n, isRoot, i, node, more);
    forall x | 0 <= x < |t| && IsNode(t, x) ensures t[x].value.nlinks == Count(t, x, |t|) { GrownCounted(s, t, d, n, i, node, more, x); }
  }

  lemma NewInode(s: Table, d: nat, n: seq<Byte>, i: nat, node: Node, more: int)
    requires Shape(s) && Proper(s, d) && 0 < i < |s| && s[i].None?
    ensures Grown(s, SetEntries(s[i := Some(node)], d, AddEntry(Entries(s, d), n, i), more), d, n, i, node, more)
  {
    hide Shape, AddEntry;
  }

  lemma CreateKeeps(s: Table, d: nat, n: seq<Byte>, isDir: bool, isRoot: bool, room: bool)
    requires Inv(s) && IsDir(s, d) && IsName(n)
    ensures NamesOk(s) && Inv(Create(s, d, n, isDir, isRoot, room).0)
  {
    ShapeNames(s);
    var i := FreeInode(s, 1);
    if Create(s, d, n, isDir, isRoot, room).1 == Done {
      NewInode(s, d, n, i, Node(isDir, 1, []), 0);
      hide Grown, Inv, Lookup, NamesOk, SetEntries;
      GrownInv(s, Create(s, d, n, isDir, isRoot, room).0, d, n, isRoot, i, Node(isDir, 1, []), 0);
    }
  }

  lemma MkdirKeeps(s: Table, d: nat, n: seq<Byte>, isRoot: bool, block: bool, room: bool)
    requires Inv(s) && IsDir(s, d) && IsName(n)
    ensures NamesOk(s) && Inv(Mkdir(s, d, n, isRoot, block, room).0)
  {
    ShapeNames(s);
    var i := FreeInode(s, 1);
    if Mkdir(s, d, n, isRoot, block, room).1 == Done {
      var node := Node(true, 2, [Entry(i, DOT), Entry(d, DOTDOT)]);
      NewInode(s, d, n, i, node, 1);
      hide Grown, Inv, Lookup, NamesOk, SetEntries;
      GrownInv(s, Mkdir(s, d, n, isRoot, block, room).0, d, n, isRoot, i, node, 1);
    }
  }

  // ----- linking a file once more --------------------------------------------------------------------

  /** t is s with one more entry (n, i) in d for the file i. */
  ghost predicate LinkedMore(s: Table, t: Table, d: nat, n: seq<Byte>, i: nat) {
    && Shape(s) && Proper(s, d) && IsNode(s, i) && !IsDir(s, i) && |t| == |s|
    && t == SetEntries(s, d, AddEntry(Entries(s, d), n, i), 0)[i := Some(s[i].value.(nlinks := s[i].value.nlinks + 1))]
  }

  lemma LinkedTable(s: Table, t: Table, d: nat, l: seq<Entry>, i: nat)
    requires IsDir(s, d) && IsNode(s, i) && !IsDir(s, i) && Entries(s, i) == [] && d != i
    requires t == SetEntries(s, d, l, 0)[i := Some(s[i].value.(nlinks := s[i].value.nlinks + 1))]
    ensures Entries(t, d) == l && Entries(t, i) == [] && |t| == |s|
    ensures forall x: nat | x != d :: Entries(t, x) == Entries(s, x)
    ensures forall x: nat :: (IsNode(t, x) <==> IsNode(s, x)) && (IsDir(t, x) <==> IsDir(s, x))
  {
    forall x: nat | x != d ensures Entries(t, x) == Entries(s, x) { if x < |s| && x != i { assert t[x] == s[x]; } }
    forall x: nat ensures (IsNode(t, x) <==> IsNode(s, x)) && (IsDir(t, x) <==> IsDir(s, x)) { if x < |s| && x != i && x != d { assert t[x] == s[x]; } }
  }

  lemma LinkedEntries(s: Table, t: Table, d: nat, n: seq<Byte>, i: nat)
    requires LinkedMore(s, t, d, n, i)
    ensures Entries(t, d) == AddEntry(Entries(s, d), n, i) && d < |s| && d != i && 0 < i < |s|
    ensures forall x: nat | x != d :: Entries(t, x) == Entries(s, x)
    ensures forall x: nat :: (IsNode(t, x) <==> IsNode(s, x)) && (IsDir(t, x) <==> IsDir(s, x))
  {
    RootIsNotZero(s);
    assert Entries(s, i) == [] && i < |s| && i != 0 && d < |s|;
    hide AddEntry, Shape;
    LinkedTable(s, t, d, AddEntry(Entries(s, d), n, i), i);
  }

  lemma LinkedEntry(s: Table, t: Table, d: nat, n: seq<Byte>, i: nat, e: nat, k: nat)
    requires LinkedMore(s, t, d, n, i) && k < |Entries(t, e)| && IsName(n)
    ensures if e == d && k == FreeSlot(Entries(s, d), 0) then Entries(t, e)[k] == Entry(i, Padded(n)) && k >= 2
            else k < |Entries(s, e)| && Entries(t, e)[k] == Entries(s, e)[k]
    ensures EntryOk(t, Entries(t, e)[k])
  {
    LinkedEntries(s, t, d, n, i);
    ProperStarts(s);
    Added(Entries(s, d), n, i);
    PaddedTail(n);
    assert e >= |s| ==> Entries(s, e) == [];
    assert forall j: nat | j < |Entries(s, e)| :: EntryOk(s, Entries(s, e)[j]);
    hide AddEntry, IsDir, IsNode, FreeSlot, Padded, Shape, LinkedMore, Entries, Tail;
  }

  lemma LinkedStarts(s: Table, t: Table, d: nat, n: seq<Byte>, i: nat, x: nat)
    requires LinkedMore(s, t, d, n, i) && Proper(t, x) && IsName(n)
    ensures Starts(t, x)
  {
    LinkedEntries(s, t, d, n, i);
    ProperStarts(s);
    Added(Entries(s, d), n, i);
    hide AddEntry, FreeSlot, Padded, Shape, LinkedMore, Entries;
    assert Starts(s, x);
  }

  lemma LinkedShape(s: Table, t: Table, d: nat, n: seq<Byte>, i: nat)
    requires LinkedMore(s, t, d, n, i) && IsName(n)
    ensures Shape(t)
  {
    LinkedEntries(s, t, d, n, i);
    ProperStarts(s);
    Added(Entries(s, d), n, i);
    assert t[0].None? && Proper(s, ROOT);
    hide AddEntry, FreeSlot, Padded, LinkedMore, Entries, EntryOk, Starts, IsNode, IsDir;
    forall x: nat | Proper(t, x) ensures Starts(t, x) { LinkedStarts(s, t, d, n, i, x); }
    forall e, k | 0 <= e < |t| && 0 <= k < |Entries(t, e)| ensures EntryOk(t, Entries(t, e)[k]) { LinkedEntry(s, t, d, n, i, e, k); }
  }

  lemma LinkedOnly(s: Table, t: Table, d: nat, n: seq<Byte>, i: nat, e: nat, k: nat)
    requires LinkedMore(s, t, d, n, i) && Tree(s) && e < |t| && 2 <= k < |Entries(t, e)| && IsName(n)
    ensures OnlyHere(t, e, k)
  {
    LinkedEntries(s, t, d, n, i);
    LinkedKept(s, t, d, n, i);
    hide AddEntry, FreeSlot, Padded, LinkedMore, Entries, EntryOk, IsNode, IsDir, Shape, Tree, Proper;
    LinkedEntry(s, t, d, n, i, e, k);
    if !(e == d && k == FreeSlot(Entries(s, d), 0)) { OnlyHereAt(s, e, k); }
    forall j | 2 <= j < |Entries(t, e)| && j != k ensures IsDir(t, Entries(t, e)[k].inode) ==> Entries(t, e)[j].inode != Entries(t, e)[k].inode {
      LinkedEntry(s, t, d, n, i, e, j);
    }
  }

  /** Directories stay directories with their first two entries; the new name is a file's. */
  lemma LinkedKept(s: Table, t: Table, d: nat, n: seq<Byte>, i: nat)
    requires LinkedMore(s, t, d, n, i)
    ensures !IsDir(t, i) && forall x: nat :: Proper(t, x) ==> Proper(s, x) && |Entries(s, x)| >= 2 && |Entries(t, x)| >= 2 && Entries(t, x)[1] == Entries(s, x)[1]
  {
    LinkedEntries(s, t, d, n, i);
    ProperStarts(s);
    Added(Entries(s, d), n, i);
    assert !IsDir(s, i);
    hide AddEntry, FreeSlot, Padded, LinkedMore, Entries, IsDir, Shape;
  }

  lemma LinkedListed(s: Table, t: Table, d: nat, n: seq<Byte>, i: nat, x: nat)
    requires LinkedMore(s, t, d, n, i) && Tree(s) && IsName(n) && x < |t| && Proper(t, x) && x != ROOT
    ensures Listed(t, x)
  {
    LinkedEntries(s, t, d, n, i);
    ProperStarts(s);
    Added(Entries(s, d), n, i);
    hide AddEntry, FreeSlot, Padded, LinkedMore, Entries, EntryOk, IsDir, OnlyHere, Shape;
    assert Listed(s, x);
    var q := Entries(s, x)[1].inode;
    var k :| 2 <= k < |Entries(s, q)| && Entries(s, q)[k].inode == x;
    assert Entries(t, q)[k].inode == x;
  }

  lemma LinkedTree(s: Table, t: Table, d: nat, n: seq<Byte>, i: nat)
    requires LinkedMore(s, t, d, n, i) && Tree(s) && IsName(n)
    ensures Tree(t)
  {
    hide Entries, OnlyHere, Listed, AddEntry;
    forall e, k | 0 <= e < |t| && 2 <= k < |Entries(t, e)| ensures OnlyHere(t, e, k) { LinkedOnly(s, t, d, n, i, e, k); }
    forall x | 0 <= x < |t| && Proper(t, x) && x != ROOT ensures Listed(t, x) { LinkedListed(s, t, d, n, i, x); }
  }

  lemma LinkedCounted(s: Table, t: Table, d: nat, n: seq<Byte>, i: nat, x: nat)
    requires Counted(s) && LinkedMore(s, t, d, n, i) && x < |t| && IsNode(t, x)
    ensures t[x].value.nlinks == Count(t, x, |t|)
  {
    LinkedEntries(s, t, d, n, i);
    LinkedCount(s, t, d, n, i, x);
    hide Count, CountIn, Shape, AddEntry, Entries, Counted, LinkedMore, Proper, IsDir;
    CountedAt(s, x);
    CountChange(s, t, d, x, |t|);
    CountAdd(Entries(s, d), n, i, x);
  }

  lemma LinkedCount(s: Table, t: Table, d: nat, n: seq<Byte>, i: nat, x: nat)
    requires LinkedMore(s, t, d, n, i) && x < |t| && IsNode(t, x)
    ensures t[x].value.nlinks == s[x].value.nlinks + One(x == i) && i != 0
  {
    RootIsNotZero(s);
    hide Shape, AddEntry, Entries, Proper;
  }

  lemma LinkedInv(s: Table, t: Table, d: nat, n: seq<Byte>, isRoot: bool, i: nat)
    requires Inv(s) && LinkedMore(s, t, d, n, i) && IsName(n) && NamesOk(s) && Lookup(s, d, n, isRoot) == |Entries(s, d)|
    ensures Inv(t)
  {
    LinkedEntries(s, t, d, n, i);
    hide Shape, Tree, Unique, Lookup, NamesOk, AddEntry, Entries;
    LinkedShape(s, t, d, n, i);
    LinkedTree(s, t, d, n, i);
    AddedUnique(s, d, n, isRoot, i, t);
    forall x | 0 <= x < |t| && IsNode(t, x) ensures t[x].value.nlinks == Count(t, x, |t|) { LinkedCounted(s, t, d, n, i, x); }
  }

  lemma LinkGives(s: Table, i: nat, d: nat, n: seq<Byte>, isRoot: bool, room: bool)
    requires Shape(s) && NamesOk(s) && IsDir(s, d) && IsNode(s, i)
    ensures var (t, out) := Link(s, i, d, n, isRoot, room);
      if out == Done then LinkedMore(s, t, d, n, i) && Lookup(s, d, n, isRoot) == |Entries(s, d)| else t == s
  {
    hide Shape, AddEntry, Find, FreeSlot;
  }

  lemma LinkKeeps(s: Table, i: nat, d: nat, n: seq<Byte>, isRoot: bool, room: bool)
    requires Inv(s) && IsDir(s, d) && IsNode(s, i) && IsName(n)
    ensures NamesOk(s) && Inv(Link(s, i, d, n, isRoot, room).0)
  {
    ShapeNames(s);
    LinkGives(s, i, d, n, isRoot, room);
    hide Inv, Link, LinkedMore, Lookup, NamesOk, Entries;
    if Link(s, i, d, n, isRoot, room).1 == Done {
      LinkedInv(s, Link(s, i, d, n, isRoot, room).0, d, n, isRoot, i);
    }
  }

  // ----- taking an entry away ----------------------------------------------------------------------

  /** t is s without the entry k of d, which named i; of i only the link count changes, or it is gone, and
      then it had no entry of its own but its first two. */
  ghost predicate Removed(s: Table, t: Table, d: nat, k: nat, i: nat) {
    && Shape(s) && Tree(s) && IsDir(s, d) && d < |s| == |t| && 2 <= k < |Entries(s, d)| && Entries(s, d)[k].inode == i && 0 < i < |s| && i != d
    && Entries(t, d) == Entries(s, d)[k := Entries(s, d)[k].(inode := 0)] && IsDir(t, d)
    && (forall x: nat | x != d && x != i :: Entries(t, x) == Entries(s, x) && IsNode(t, x) == IsNode(s, x) && IsDir(t, x) == IsDir(s, x))
    && (if IsNode(t, i) then !IsDir(t, i) && !IsDir(s, i) && IsNode(s, i) && Entries(t, i) == Entries(s, i)
        else Entries(t, i) == [] && IsNode(s, i) && forall j | 2 <= j < |Entries(s, i)| :: Entries(s, i)[j].inode == 0)
  }

  /** If i is gone and had entries, nobody is below it. */
  lemma Childless(s: Table, t: Table, d: nat, k: nat, i: nat, x: nat)
    requires Removed(s, t, d, k, i) && !IsNode(t, i) && x < |s| && Proper(s, x) && x != i
    ensures |Entries(s, x)| >= 2 && Entries(s, x)[1].inode != i && i != ROOT
  {
    assert OnlyHere(s, d, k) && Starts(s, x);
    assert IsDir(s, ROOT) && Proper(s, ROOT);
    if Proper(s, i) {
      if x != ROOT { assert Listed(s, x); }
    } else {
      assert Proper(s, Entries(s, x)[1].inode);
    }
  }

  lemma RemovedStarts(s: Table, t: Table, d: nat, k: nat, i: nat, x: nat)
    requires Removed(s, t, d, k, i) && x < |s| && Proper(t, x)
    ensures Starts(t, x)
  {
    assert x != i || IsNode(t, i);
    hide Tree, Entries, IsDir;
    if x == i {
      assert false;
    }
    assert Starts(s, x);
    if !IsNode(t, i) { Childless(s, t, d, k, i, x); }
  }

  /** Which of the entries of s are still there. */
  lemma RemovedEntry(s: Table, t: Table, d: nat, k: nat, i: nat, e: nat, j: nat)
    requires Removed(s, t, d, k, i) && j < |Entries(t, e)|
    ensures e < |s| && j < |Entries(s, e)| && Entries(t, e)[j].name == Entries(s, e)[j].name
    ensures Entries(t, e)[j].inode == if e == d && j == k then 0 else Entries(s, e)[j].inode
  {
    hide Tree, Shape;
    assert e >= |s| ==> Entries(t, e) == [];
  }

  lemma SameEntry(s: Table, d: nat, k: nat, e: nat, j: nat)
    requires Tree(s) && d < |s| && 2 <= k < |Entries(s, d)| && e < |s| && 2 <= j < |Entries(s, e)|
    requires Entries(s, d)[k].inode == Entries(s, e)[j].inode && Proper(s, Entries(s, d)[k].inode)
    ensures e == d && j == k
  {
    assert OnlyHere(s, d, k) && OnlyHere(s, e, j);
    hide Listed, Entries;
  }

  lemma NamedDeep(s: Table, d: nat, k: nat, i: nat, e: nat, j: nat)
    requires Tree(s) && d < |s| && 2 <= k < |Entries(s, d)| && Entries(s, d)[k].inode == i && Proper(s, i)
    requires e < |s| && 2 <= j < |Entries(s, e)| && (e, j) != (d, k)
    ensures Entries(s, e)[j].inode != i
  {
    if Entries(s, e)[j].inode == i { SameEntry(s, d, k, e, j); }
  }

  lemma NamedFirst(s: Table, e: nat)
    requires Shape(s) && e < |s| && Entries(s, e) != []
    ensures Entries(s, e)[0].inode == e
  {
    HasEntries(s, e);
    assert Starts(s, e);
  }

  /** Where i is gone, no other entry named it. */
  lemma NamedOnce(s: Table, t: Table, d: nat, k: nat, i: nat, e: nat, j: nat)
    requires Removed(s, t, d, k, i) && !IsNode(t, i) && Proper(s, i) && e < |s| && j < |Entries(s, e)| && e != i && (e, j) != (d, k)
    ensures Entries(s, e)[j].inode != i
  {
    hide Shape, Tree, Entries, IsDir;
    if j == 0 {
      NamedFirst(s, e);
    } else if j == 1 {
      HasEntries(s, e);
      Childless(s, t, d, k, i, e);
    } else {
      NamedDeep(s, d, k, i, e, j);
    }
  }

  lemma HasEntries(s: Table, e: nat)
    requires Shape(s) && Entries(s, e) != []
    ensures e < |s| && Proper(s, e)
  {
  }

  lemma RemovedEntryOk(s: Table, t: Table, d: nat, k: nat, i: nat, e: nat, j: nat)
    requires Removed(s, t, d, k, i) && (IsNode(t, i) || Proper(s, i) || NobodyElse(s, d, k, i)) && j < |Entries(t, e)|
    ensures EntryOk(t, Entries(t, e)[j])
  {
    RemovedEntry(s, t, d, k, i, e, j);
    assert EntryOk(s, Entries(s, e)[j]);
    assert e == i ==> IsNode(t, i);
    if !IsNode(t, i) && (e, j) != (d, k) && Proper(s, i) { NamedOnce(s, t, d, k, i, e, j); }
    hide Entries, IsDir, IsNode, Shape, Tree, Tail;
  }

  /** Entry k of d is the only one that names i. */
  ghost predicate NobodyElse(s: Table, d: nat, k: nat, i: nat) {
    forall e, j | 0 <= e < |s| && 0 <= j < |Entries(s, e)| && (e, j) != (d, k) :: Entries(s, e)[j].inode != i
  }

  lemma RemovedShape(s: Table, t: Table, d: nat, k: nat, i: nat)
    requires Removed(s, t, d, k, i) && (IsNode(t, i) || Proper(s, i) || NobodyElse(s, d, k, i)) && t[0].None?
    ensures Shape(t)
  {
    RemovedRoot(s, t, d, k, i);
    forall x | 0 <= x < |t| && IsNode(t, x) && !IsDir(t, x) ensures Entries(t, x) == [] { RemovedFile(s, t, d, k, i, x); }
    hide Removed, Entries, EntryOk, Starts, NobodyElse;
    forall x | 0 <= x < |t| && Proper(t, x) ensures Starts(t, x) { RemovedStarts(s, t, d, k, i, x); }
    forall e, j | 0 <= e < |t| && 0 <= j < |Entries(t, e)| ensures EntryOk(t, Entries(t, e)[j]) { RemovedEntryOk(s, t, d, k, i, e, j); }
  }

  lemma RemovedFile(s: Table, t: Table, d: nat, k: nat, i: nat, x: nat)
    requires Removed(s, t, d, k, i) && x < |t| && IsNode(t, x) && !IsDir(t, x)
    ensures Entries(t, x) == []
  {
    assert IsNode(s, x) && !IsDir(s, x) ==> Entries(s, x) == [];
    hide Tree, Entries, IsDir, IsNode;
  }

  lemma RemovedRoot(s: Table, t: Table, d: nat, k: nat, i: nat)
    requires Removed(s, t, d, k, i)
    ensures Proper(t, ROOT) && |Entries(t, ROOT)| >= 2 && Entries(t, ROOT)[1].inode == ROOT
  {
    assert Proper(s, ROOT) && Starts(s, ROOT) && OnlyHere(s, d, k);
    assert IsDir(s, ROOT);
    hide Tree, Shape, Starts, IsDir, IsNode, Entries;
  }

  lemma RemovedOnly(s: Table, t: Table, d: nat, k: nat, i: nat, e: nat, j: nat)
    requires Removed(s, t, d, k, i) && e < |t| && 2 <= j < |Entries(t, e)| && t[0].None?
    ensures OnlyHere(t, e, j)
  {
    RemovedEntry(s, t, d, k, i, e, j);
    assert OnlyHere(s, e, j);
    assert !IsDir(t, 0);
    assert Proper(t, i) ==> false;
    hide Tree, Shape, Starts, IsDir, IsNode, Entries, Listed;
    forall m | 2 <= m < |Entries(t, e)| && m != j ensures IsDir(t, Entries(t, e)[j].inode) ==> Entries(t, e)[m].inode != Entries(t, e)[j].inode {
      RemovedEntry(s, t, d, k, i, e, m);
    }
  }

  lemma RemovedTree(s: Table, t: Table, d: nat, k: nat, i: nat)
    requires Removed(s, t, d, k, i) && t[0].None?
    ensures Tree(t)
  {
    hide OnlyHere, Listed, Entries;
    forall e, j | 0 <= e < |t| && 2 <= j < |Entries(t, e)| ensures OnlyHere(t, e, j) { RemovedOnly(s, t, d, k, i, e, j); }
    forall x | 0 <= x < |t| && Proper(t, x) && x != ROOT ensures Listed(t, x) { RemovedListed(s, t, d, k, i, x); }
  }

  lemma RemovedListed(s: Table, t: Table, d: nat, k: nat, i: nat, x: nat)
    requires Removed(s, t, d, k, i) && x < |t| && Proper(t, x) && x != ROOT
    ensures Listed(t, x)
  {
    assert x != i;
    assert Listed(s, x);
    var q := Entries(s, x)[1].inode;
    var j :| 2 <= j < |Entries(s, q)| && Entries(s, q)[j].inode == x;
    assert Entries(t, x)[1].inode == q;
    assert Entries(t, q)[j].inode == x;
  }

  lemma RemovedUnique(s: Table, t: Table, d: nat, k: nat, i: nat)
    requires Removed(s, t, d, k, i) && Unique(s)
    ensures Unique(t)
  {
    hide Shape, Tree;
    forall e, a, b | 0 <= e < |t| && 0 <= a < b < |Entries(t, e)| && Entries(t, e)[a].inode != 0 && Entries(t, e)[b].inode != 0
      ensures Entries(t, e)[a].name != Entries(t, e)[b].name
    {
      RemovedEntry(s, t, d, k, i, e, a);
      RemovedEntry(s, t, d, k, i, e, b);
    }
  }

  lemma {:induction false} CountFirst(l: seq<Entry>, m: nat, x: nat)
    requires m <= |l| && x != 0 && forall j | m <= j < |l| :: l[j].inode == 0
    ensures CountIn(l, x) == CountIn(l[..m], x)
    decreases |l|
  {
    if l == [] {
      assert l[..m] == l;
    } else if m == 0 {
      CountNone(l, x);
    } else {
      forall j | m - 1 <= j < |l[1..]| ensures l[1..][j].inode == 0 { assert l[1..][j] == l[j + 1]; }
      CountFirst(l[1..], m - 1, x);
      assert l[..m][1..] == l[1..][..m - 1];
    }
  }

  lemma CountEmptyDir(l: seq<Entry>, i: nat, x: nat)
    requires EmptyDir(l, i) && x != 0 && i != 0
    ensures CountIn(l, x) == One(x == i) + One(x == l[1].inode)
  {
    CountFirst(l, 2, x);
    assert l[..2] == [l[0], l[1]] && [l[0], l[1]][1..] == [l[1]] && [l[1]][1..] == [];
    assert CountIn([l[1]], x) == One(Names(l[1], x)) + CountIn([l[1]][1..], x);
  }

  /** What the entries that went away counted. */
  lemma RemovedCount(s: Table, t: Table, d: nat, k: nat, i: nat, x: nat)
    requires Removed(s, t, d, k, i) && x != 0
    ensures Count(t, x, |t|) == Count(s, x, |s|) - One(x == i) - CountIn(Entries(s, i), x) + CountIn(Entries(t, i), x)
  {
    CountSet(Entries(s, d), k, Entries(s, d)[k].(inode := 0), x);
    var u := s[d := t[d]];
    assert Entries(u, d) == Entries(t, d);
    forall y: nat | y != d ensures Entries(u, y) == Entries(s, y) { if y < |s| { assert u[y] == s[y]; } }
    hide Tree, Shape, Entries, Count, CountIn;
    CountChange(s, u, d, x, |s|);
    CountChange(u, t, i, x, |s|);
  }

  // ----- unlink, rmdir, close --------------------------------------------------------------------------

  lemma FirstTwo(s: Table, d: nat)
    requires Shape(s) && d < |s| && Entries(s, d) != []
    ensures |Entries(s, d)| >= 2 && Entries(s, d)[0].inode == d && IsDir(s, d) && IsDir(s, Entries(s, d)[1].inode)
  {
    HasEntries(s, d);
    assert Starts(s, d);
    hide Shape, Entries, IsDir;
  }

  /** The entry found is a real one, past "." and "..". */
  lemma FoundFile(s: Table, d: nat, k: nat)
    requires Shape(s) && d < |s| && k < |Entries(s, d)| && Entries(s, d)[k].inode != 0 && !IsDir(s, Entries(s, d)[k].inode)
    ensures k >= 2
  {
    FirstTwo(s, d);
    hide Shape, Entries, IsDir;
  }

  /** The directory that ".." names is not empty: it has d. */
  lemma ParentNotEmpty(s: Table, d: nat, p: nat)
    requires Shape(s) && Tree(s) && d < |s| && Proper(s, d) && d != ROOT && |Entries(s, d)| >= 2 && p == Entries(s, d)[1].inode
    ensures !EmptyDir(Entries(s, p), p)
  {
    ListedAt(s, d);
    RootIsNotZero(s);
    assert d != 0;
    hide Shape, Tree, Entries, IsDir, Proper;
    var k :| 2 <= k < |Entries(s, p)| && Entries(s, p)[k].inode == d;
  }

  lemma FoundDir(s: Table, d: nat, k: nat)
    requires Shape(s) && Tree(s) && d < |s| && k < |Entries(s, d)| && Entries(s, d)[k].inode != d
    requires Proper(s, Entries(s, d)[k].inode) && EmptyDir(Entries(s, Entries(s, d)[k].inode), Entries(s, d)[k].inode)
    ensures k >= 2 && Entries(s, Entries(s, d)[k].inode)[1].inode == d
  {
    hide Shape, Tree, Entries, IsDir, Proper, EmptyDir, DOT, DOTDOT;
    HasEntries(s, d);
    StartsAt(s, d);
    var x := Entries(s, d)[k].inode;
    if k == 1 && d != ROOT { ParentNotEmpty(s, d, x); }
    if k >= 2 { OnlyHereAt(s, d, k); }
  }

  lemma RmdirTable(s: Table, d: nat, k: nat, i: nat, t: Table)
    requires IsDir(s, d) && d < |s| && k < |Entries(s, d)| && i < |s| && i != d
    requires t == SetEntries(s, d, Entries(s, d)[k := Entries(s, d)[k].(inode := 0)], -1)[i := None]
    ensures Entries(t, d) == Entries(s, d)[k := Entries(s, d)[k].(inode := 0)] && IsDir(t, d) && Entries(t, i) == [] && !IsNode(t, i) && |t| == |s|
    ensures forall x: nat | x != d && x != i :: Entries(t, x) == Entries(s, x) && IsNode(t, x) == IsNode(s, x) && IsDir(t, x) == IsDir(s, x)
    ensures forall x | 0 <= x < |t| && IsNode(t, x) :: IsNode(s, x) && t[x].value.nlinks == s[x].value.nlinks - if x == d then 1 else 0
    ensures i != 0 && d != 0 ==> t[0] == s[0]
  {
    forall x: nat | x != d && x != i ensures Entries(t, x) == Entries(s, x) && IsNode(t, x) == IsNode(s, x) && IsDir(t, x) == IsDir(s, x) {
      if x < |s| { assert t[x] == s[x]; }
    }
  }

  lemma RmdirRemoves(s: Table, d: nat, k: nat, t: Table)
    requires Inv(s) && IsDir(s, d) && k < |Entries(s, d)|
    requires var i := Entries(s, d)[k].inode; i != 0 && i != d && IsDir(s, i) && EmptyDir(Entries(s, i), i)
    requires t == SetEntries(s, d, Entries(s, d)[k := Entries(s, d)[k].(inode := 0)], -1)[Entries(s, d)[k].inode := None]
    ensures var i := Entries(s, d)[k].inode;
      k >= 2 && Entries(s, i)[1].inode == d && Proper(s, i) && t[0].None? && Removed(s, t, d, k, i) && !IsNode(t, i) && Entries(t, i) == []
  {
    hide Unique, Counted, Tree, Shape, SetEntries, DOT, DOTDOT;
    var i := Entries(s, d)[k].inode;
    RootIsNotZero(s);
    assert i < |s| && d < |s| && d != 0 && IsNode(s, i);
    FoundDir(s, d, k);
    RmdirTable(s, d, k, i, t);
    hide Entries, IsDir, IsNode;
  }

  lemma RmdirCounted(s: Table, d: nat, k: nat, t: Table, x: nat)
    requires Inv(s) && IsDir(s, d) && k < |Entries(s, d)|
    requires var i := Entries(s, d)[k].inode; i != 0 && i != d && IsDir(s, i) && EmptyDir(Entries(s, i), i)
    requires t == SetEntries(s, d, Entries(s, d)[k := Entries(s, d)[k].(inode := 0)], -1)[Entries(s, d)[k].inode := None]
    requires x < |t| && IsNode(t, x)
    ensures t[x].value.nlinks == Count(t, x, |t|)
  {
    var i := Entries(s, d)[k].inode;
    RmdirRemoves(s, d, k, t);
    RmdirTable(s, d, k, i, t);
    RootIsNotZero(s);
    assert x < |s| && IsNode(s, x) && x != i && Counted(s);
    assert x != 0;
    hide Inv, Unique, Counted, Tree, Shape, Entries, IsDir, IsNode, SetEntries, Removed, Count, CountIn, EmptyDir, Proper;
    RemovedCount(s, t, d, k, i, x);
    CountEmptyDir(Entries(s, i), i, x);
    CountNone(Entries(t, i), x);
    CountedAt(s, x);
  }

  lemma RmdirInv(s: Table, d: nat, k: nat, t: Table)
    requires Inv(s) && IsDir(s, d) && k < |Entries(s, d)|
    requires var i := Entries(s, d)[k].inode; i != 0 && i != d && IsDir(s, i) && EmptyDir(Entries(s, i), i)
    requires t == SetEntries(s, d, Entries(s, d)[k := Entries(s, d)[k].(inode := 0)], -1)[Entries(s, d)[k].inode := None]
    ensures Inv(t)
  {
    var i := Entries(s, d)[k].inode;
    RmdirRemoves(s, d, k, t);
    forall x | 0 <= x < |t| && IsNode(t, x) ensures t[x].value.nlinks == Count(t, x, |t|) { RmdirCounted(s, d, k, t, x); }
    hide Unique, Tree, Shape, Entries, IsDir, SetEntries, Removed, Count, EmptyDir;
    RemovedShape(s, t, d, k, i);
    RemovedTree(s, t, d, k, i);
    RemovedUnique(s, t, d, k, i);
  }

  lemma RmdirKeeps(s: Table, d: nat, n: seq<Byte>, isRoot: bool, busy: bool)
    requires Inv(s) && IsDir(s, d) && IsName(n)
    ensures NamesOk(s) && Inv(Rmdir(s, d, n, isRoot, busy).0)
  {
    ShapeNames(s);
    hide Inv;
    if Rmdir(s, d, n, isRoot, busy).1 == Done {
      hide NamesOk, EmptyDir, SetEntries;
      RmdirInv(s, d, Lookup(s, d, n, isRoot), Rmdir(s, d, n, isRoot, busy).0);
    }
  }

  /** The table unlink leaves for entry k of d, which names a file. */
  function Unlinked(s: Table, d: nat, k: nat, open: bool): Table
    requires IsDir(s, d) && k < |Entries(s, d)| && IsNode(s, Entries(s, d)[k].inode)
  {
    var l := Entries(s, d);
    var i := l[k].inode;
    var t := SetEntries(s, d, l[k := l[k].(inode := 0)], 0);
    var links := if t[i].value.nlinks == 0 then 1 else t[i].value.nlinks;
    t[i := if links - 1 == 0 && !open then None else Some(t[i].value.(nlinks := links - 1))]
  }

  lemma UnlinkTable(s: Table, d: nat, k: nat, open: bool, i: nat, t: Table)
    requires IsDir(s, d) && k < |Entries(s, d)| && i == Entries(s, d)[k].inode && IsNode(s, i) && !IsDir(s, i) && Entries(s, i) == []
    requires s[i].value.nlinks > 0 && t == Unlinked(s, d, k, open)
    ensures Entries(t, d) == Entries(s, d)[k := Entries(s, d)[k].(inode := 0)] && IsDir(t, d) && Entries(t, i) == [] && |t| == |s| && i != d
    ensures forall x: nat | x != d && x != i :: Entries(t, x) == Entries(s, x) && IsNode(t, x) == IsNode(s, x) && IsDir(t, x) == IsDir(s, x)
    ensures forall x | 0 <= x < |t| && IsNode(t, x) :: IsNode(s, x) && t[x].value.nlinks == s[x].value.nlinks - if x == i then 1 else 0
    ensures (IsNode(t, i) <==> s[i].value.nlinks > 1 || open) && !IsDir(t, i) && (i != 0 && d != 0 ==> t[0] == s[0])
  {
    forall x: nat | x != d && x != i ensures Entries(t, x) == Entries(s, x) && IsNode(t, x) == IsNode(s, x) && IsDir(t, x) == IsDir(s, x) {
      if x < |s| { assert t[x] == s[x]; }
    }
  }

  lemma UnlinkRemoves(s: Table, d: nat, k: nat, open: bool, i: nat, t: Table)
    requires Inv(s) && IsDir(s, d) && k < |Entries(s, d)| && i == Entries(s, d)[k].inode != 0 && IsNode(s, i) && !IsDir(s, i) && t == Unlinked(s, d, k, open)
    ensures Removed(s, t, d, k, i) && t[0].None? && s[i].value.nlinks == Count(s, i, |s|) > 0 && Entries(s, i) == [] == Entries(t, i)
    ensures forall x | 0 <= x < |t| && IsNode(t, x) :: IsNode(s, x) && t[x].value.nlinks == s[x].value.nlinks - if x == i then 1 else 0
    ensures IsNode(t, i) <==> s[i].value.nlinks > 1 || open
  {
    hide Unique, Counted, Tree, Shape, Entries, SetEntries, Unlinked, Count;
    RootIsNotZero(s);
    FoundFile(s, d, k);
    assert Names(Entries(s, d)[k], i) && i < |s| && d < |s| && d != 0;
    CountSome(s, i, |s|, d, k);
    CountedAt(s, i);
    FileEmpty(s, i);
    UnlinkTable(s, d, k, open, i, t);
    hide IsDir, IsNode, CountIn;
  }

  lemma UnlinkCounted(s: Table, d: nat, k: nat, open: bool, i: nat, t: Table, x: nat)
    requires Inv(s) && IsDir(s, d) && k < |Entries(s, d)| && i == Entries(s, d)[k].inode != 0 && IsNode(s, i) && !IsDir(s, i) && t == Unlinked(s, d, k, open)
    requires 0 < x < |t|
    ensures IsNode(t, x) ==> t[x].value.nlinks == Count(t, x, |t|)
    ensures x == i && !IsNode(t, i) ==> Count(t, i, |t|) == 0
  {
    UnlinkRemoves(s, d, k, open, i, t);
    RemovedCount(s, t, d, k, i, x);
    assert IsNode(s, x) ==> s[x].value.nlinks == Count(s, x, |s|);
    hide Unique, Counted, Tree, Shape, Entries, IsDir, IsNode, SetEntries, Unlinked, Count, CountIn, Removed;
  }

  lemma UnlinkAlone(s: Table, d: nat, k: nat, open: bool, i: nat, t: Table)
    requires Inv(s) && IsDir(s, d) && k < |Entries(s, d)| && i == Entries(s, d)[k].inode != 0 && IsNode(s, i) && !IsDir(s, i) && t == Unlinked(s, d, k, open)
    requires !IsNode(t, i)
    ensures NobodyElse(s, d, k, i)
  {
    UnlinkRemoves(s, d, k, open, i, t);
    UnlinkCounted(s, d, k, open, i, t, i);
    forall e, j | 0 <= e < |s| && 0 <= j < |Entries(s, e)| && (e, j) != (d, k) ensures Entries(s, e)[j].inode != i {
      assert Entries(t, e)[j] == Entries(s, e)[j];
      if Entries(s, e)[j].inode == i { CountSome(t, i, |t|, e, j); }
    }
  }

  lemma UnlinkInv(s: Table, d: nat, k: nat, open: bool, i: nat, t: Table)
    requires Inv(s) && IsDir(s, d) && k < |Entries(s, d)| && i == Entries(s, d)[k].inode != 0 && IsNode(s, i) && !IsDir(s, i) && t == Unlinked(s, d, k, open)
    ensures Inv(t)
  {
    UnlinkRemoves(s, d, k, open, i, t);
    if !IsNode(t, i) { UnlinkAlone(s, d, k, open, i, t); }
    assert !IsNode(t, 0);
    hide Unique, Tree, Shape, Entries, IsDir, SetEntries, Removed, Count, Unlinked, NobodyElse;
    forall x | 0 <= x < |t| && IsNode(t, x) ensures t[x].value.nlinks == Count(t, x, |t|) { UnlinkCounted(s, d, k, open, i, t, x); }
    RemovedShape(s, t, d, k, i);
    RemovedTree(s, t, d, k, i);
    RemovedUnique(s, t, d, k, i);
  }

  lemma FoundLive(s: Table, d: nat, n: seq<Byte>, isRoot: bool)
    requires NamesOk(s) && d < |s| && Lookup(s, d, n, isRoot) < |Entries(s, d)|
    ensures Entries(s, d)[Lookup(s, d, n, isRoot)].inode != 0
  {
  }

  lemma UnlinkKeeps(s: Table, d: nat, n: seq<Byte>, isRoot: bool, open: bool)
    requires Inv(s) && IsDir(s, d) && IsName(n)
    ensures NamesOk(s) && Inv(Unlink(s, d, n, isRoot, open).0)
  {
    ShapeNames(s);
    hide Inv, NamesOk, SetEntries, Find;
    var k := Lookup(s, d, n, isRoot);
    if Unlink(s, d, n, isRoot, open).1 == Done {
      FoundLive(s, d, n, isRoot);
      var t := Unlink(s, d, n, isRoot, open).0;
      assert t == Unlinked(s, d, k, open);
      hide Unlink, Unlinked, Entries, Lookup;
      UnlinkInv(s, d, k, open, Entries(s, d)[k].inode, t);
    }
  }

  lemma CloseKeeps(s: Table, i: nat)
    requires Inv(s) && IsNode(s, i)
    ensures Inv(Close(s, i))
  {
    if s[i].value.nlinks == 0 {
      Unnamed(s, i);
      ClosedInv(s, i);
    }
  }

  /** An inode without links is named by nobody and has no entries. */
  lemma Unnamed(s: Table, i: nat)
    requires Inv(s) && IsNode(s, i) && s[i].value.nlinks == 0
    ensures Entries(s, i) == [] && i != ROOT && forall e, j | 0 <= e < |s| && 0 <= j < |Entries(s, e)| :: Entries(s, e)[j].inode != i
  {
    RootIsNotZero(s);
    forall e, j | 0 <= e < |s| && 0 <= j < |Entries(s, e)| ensures Entries(s, e)[j].inode != i {
      if Entries(s, e)[j].inode == i { CountSome(s, i, |s|, e, j); }
    }
    if Entries(s, i) != [] {
      NamedFirst(s, i);
      assert false;
    }
    assert Entries(s, ROOT) != [];
  }

  lemma ClosedInv(s: Table, i: nat)
    requires Inv(s) && IsNode(s, i) && Entries(s, i) == [] && i != ROOT
    requires forall e, j | 0 <= e < |s| && 0 <= j < |Entries(s, e)| :: Entries(s, e)[j].inode != i
    ensures Inv(s[i := None])
  {
    var t := s[i := None];
    RootIsNotZero(s);
    forall x: nat ensures Entries(t, x) == Entries(s, x) && (IsNode(t, x) <==> IsNode(s, x) && x != i) && (IsDir(t, x) <==> IsDir(s, x) && x != i) {
      if x < |s| && x != i { assert t[x] == s[x]; }
    }
    forall x | 0 <= x < |t| && IsNode(t, x) ensures t[x].value.nlinks == Count(t, x, |t|) {
      CountSame(s, t, x, |t|);
      assert s[x].value.nlinks == Count(s, x, |s|);
    }
    hide Count;
    ClosedShape(s, t, i);
    ClosedTree(s, t, i);
  }

  /** t is s without the inode i, which had no entries and no names. */
  ghost predicate Gone(s: Table, t: Table, i: nat) {
    && |t| == |s| && i < |s| && i != ROOT && Entries(s, i) == [] && t[0].None?
    && (forall x: nat :: Entries(t, x) == Entries(s, x) && (IsNode(t, x) <==> IsNode(s, x) && x != i) && (IsDir(t, x) <==> IsDir(s, x) && x != i))
    && forall e, j | 0 <= e < |s| && 0 <= j < |Entries(s, e)| :: Entries(s, e)[j].inode != i
  }

  lemma ClosedShape(s: Table, t: Table, i: nat)
    requires Shape(s) && Gone(s, t, i)
    ensures Shape(t)
  {
    hide Entries, IsNode, IsDir, Tail;
    forall x | 0 <= x < |t| && Proper(t, x) ensures Starts(t, x) { assert Starts(s, x); }
    forall e, j | 0 <= e < |t| && 0 <= j < |Entries(t, e)| ensures EntryOk(t, Entries(t, e)[j]) { assert EntryOk(s, Entries(s, e)[j]); }
  }

  lemma ClosedTree(s: Table, t: Table, i: nat)
    requires Tree(s) && Gone(s, t, i)
    ensures Tree(t)
  {
    hide Entries, IsNode, IsDir;
    forall e, j | 0 <= e < |t| && 2 <= j < |Entries(t, e)| ensures OnlyHere(t, e, j) { assert OnlyHere(s, e, j); }
    forall x | 0 <= x < |t| && Proper(t, x) && x != ROOT ensures Listed(t, x) { assert Listed(s, x); }
  }

  // ----- any sequence of calls --------------------------------------------------------------------------

  datatype Call =
    | CreateCall(d: nat, n: seq<Byte>, isDir: bool, isRoot: bool, room: bool)
    | MkdirCall(d: nat, n: seq<Byte>, isRoot: bool, block: bool, room: bool)
    | RmdirCall(d: nat, n: seq<Byte>, isRoot: bool, busy: bool)
    | UnlinkCall(d: nat, n: seq<Byte>, isRoot: bool, open: bool)
    | LinkCall(i: nat, d: nat, n: seq<Byte>, isRoot: bool, room: bool)
    | CloseCall(i: nat)

  ghost predicate Allowed(s: Table, c: Call) {
    match c
    case CreateCall(d, n, _, _, _) => IsDir(s, d) && IsName(n)
    case MkdirCall(d, n, _, _, _) => IsDir(s, d) && IsName(n)
    case RmdirCall(d, n, _, _) => IsDir(s, d) && IsName(n)
    case UnlinkCall(d, n, _, _) => IsDir(s, d) && IsName(n)
    case LinkCall(i, d, n, _, _) => IsNode(s, i) && IsDir(s, d) && IsName(n)
    case CloseCall(i) => IsNode(s, i)
  }

  ghost function Perform(s: Table, c: Call): (Table, Outcome)
    requires Inv(s) && Allowed(s, c)
  {
    ShapeNames(s);
    match c
    case CreateCall(d, n, isDir, isRoot, room) => Create(s, d, n, isDir, isRoot, room)
    case MkdirCall(d, n, isRoot, block, room) => Mkdir(s, d, n, isRoot, block, room)
    case RmdirCall(d, n, isRoot, busy) => Rmdir(s, d, n, isRoot, busy)
    case UnlinkCall(d, n, isRoot, open) => Unlink(s, d, n, isRoot, open)
    case LinkCall(i, d, n, isRoot, room) => Link(s, i, d, n, isRoot, room)
    case CloseCall(i) => (Close(s, i), Done)
  }

  /** After any call every link count is the number of live entries that name the inode, no directory has
      two live entries with one name, and the directories form a tree. */
  lemma PerformKeeps(s: Table, c: Call)
    requires Inv(s) && Allowed(s, c)
    ensures Inv(Perform(s, c).0)
  {
    match c
    case CreateCall(d, n, isDir, isRoot, room) => CreateKeeps(s, d, n, isDir, isRoot, room);
    case MkdirCall(d, n, isRoot, block, room) => MkdirKeeps(s, d, n, isRoot, block, room);
    case RmdirCall(d, n, isRoot, busy) => RmdirKeeps(s, d, n, isRoot, busy);
    case UnlinkCall(d, n, isRoot, open) => UnlinkKeeps(s, d, n, isRoot, open);
    case LinkCall(i, d, n, isRoot, room) => LinkKeeps(s, i, d, n, isRoot, room);
    case CloseCall(i) => CloseKeeps(s, i);
  }

  ghost predicate Possible(s: Table, cs: seq<Call>)
    requires Inv(s)
    decreases |cs|
  {
    cs == [] || (Allowed(s, cs[0]) && (PerformKeeps(s, cs[0]); Possible(Perform(s, cs[0]).0, cs[1..])))
  }

  ghost function After(s: Table, cs: seq<Call>): (t: Table)
    requires Inv(s) && Possible(s, cs)
    ensures Inv(t)
    decreases |cs|
  {
    if cs == [] then s else PerformKeeps(s, cs[0]); After(Perform(s, cs[0]).0, cs[1..])
  }

  lemma LinksCounted(s: Table, cs: seq<Call>, i: nat)
    requires Inv(s) && Possible(s, cs)
    ensures var t := After(s, cs); Unique(t) && (IsNode(t, i) ==> t[i].value.nlinks == Count(t, i, |t|))
  {
    assert Counted(After(s, cs));
  }

  ghost predicate Fresh(s: Table) {
    && |s| > ROOT && s[ROOT] == Some(Node(true, 2, [Entry(ROOT, DOT), Entry(ROOT, DOTDOT)]))
    && forall i | 0 <= i < |s| && i != ROOT :: s[i].None?
  }

  lemma FreshEntries(s: Table)
    requires Fresh(s)
    ensures Entries(s, ROOT) == [Entry(ROOT, DOT), Entry(ROOT, DOTDOT)] && IsDir(s, ROOT)
    ensures forall d: nat | d != ROOT :: Entries(s, d) == [] && !IsNode(s, d) && !IsDir(s, d)
  {
  }

  lemma FreshShape(s: Table)
    requires Fresh(s)
    ensures Shape(s) && Unique(s) && Tree(s)
  {
    DotTails();
    FreshEntries(s);
    assert s[0].None?;
    hide Entries, IsDir, IsNode, Fresh, DOT, DOTDOT, Tail;
    assert Starts(s, ROOT);
  }

  /** Where it starts: a root directory that names itself twice. */
  lemma FreshRoot(s: Table)
    requires Fresh(s)
    ensures Inv(s)
  {
    FreshShape(s);
    FreshEntries(s);
    OwnCount(ROOT, ROOT, ROOT);
    var t := s[ROOT := None];
    forall d: nat ensures Entries(t, d) == [] {}
    assert s[ROOT].value.nlinks == 2;
    hide Shape, Unique, Tree, Entries, Fresh, Count, CountIn, DOT, DOTDOT;
    CountZero(t, ROOT, |s|);
    CountChange(t, s, ROOT, ROOT, |s|);
    CountNone(Entries(t, ROOT), ROOT);
  }
}
