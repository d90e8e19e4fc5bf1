// The directory calls in place, on the table of inodes.

module Namei {
  import opened Common
  import opened LinkModel
  import opened LinkProofs

  class InodeTable {
    const node: array<Option<Node>>

    ghost predicate Valid()
      reads this, node
    {
      Inv(node[..])
    }

    constructor (s: Table)
      requires Inv(s)
      ensures Valid() && node[..] == s && fresh(node)
    {
      node := new Option<Node>[|s|](i requires 0 <= i < |s| => s[i]);
      new;
      assert node[..] == s;
    }

    /** find_entry: the index of the entry, or the number of entries. */
    method FindEntry(d: nat, name: seq<Byte>, isRoot: bool) returns (k: nat, found: bool)
      requires NamesOk(node[..]) && IsDir(node[..], d)
      ensures k == Lookup(node[..], d, name, isRoot) && found == (k < |Entries(node[..], d)|)
    {
      var n := if isRoot && name == [46, 46] then [46] else name;
      if |n| > NAME_LEN { n := n[..NAME_LEN]; }
      var l := node[d].value.entries;
      k := 0;
      ghost var key := if isRoot && name == [46, 46] then [46] else name;
      assert l == Entries(node[..], d) && n == Cut(key);
      while k < |l| && !Match(n, l[k])
        invariant k <= |l| && Find(l, key, 0) == Find(l, key, k)
      {
        k := k + 1;
      }
      found := k < |l|;
    }

    /** add_entry, with the inode number its callers store: the first unused entry, or one more. */
    method AddEntry(d: nat, name: seq<Byte>, i: nat, room: bool) returns (ok: bool)
      requires IsDir(node[..], d)
      modifies node
      ensures ok == CanAdd(old(node[..]), d, room) == Takes(old(node[..]), d, room)
      ensures ok ==> IsDir(node[..], d) && Placed(old(Entries(node[..], d)), Entries(node[..], d))
      ensures node[..] == if ok then SetEntries(old(node[..]), d, LinkModel.AddEntry(Entries(old(node[..]), d), name, i), 0) else old(node[..])
    {
      var dir := node[d].value;
      var l := dir.entries;
      assert l == Entries(node[..], d);
      TakesMeaning(node[..], d, room);
      AddPlaces(l, name, i);
      if l == [] { return false; }
      var k := 0;
      while k < |l| && l[k].inode != 0
        invariant k <= |l| && FreeSlot(l, 0) == FreeSlot(l, k)
      {
        k := k + 1;
      }
      if k == |l| && k % PER_BLOCK == 0 && !room { return false; }
      var e := Entry(i, Padded(name));
      node[d] := Some(dir.(entries := if k == |l| then l + [e] else l[k := e]));
      ok := true;
    }

    /** empty_dir */
    method IsEmptyDir(i: nat) returns (b: bool)
      requires IsDir(node[..], i)
      ensures b == EmptyDir(Entries(node[..], i), i)
    {
      var l := node[i].value.entries;
      assert l == Entries(node[..], i);
      if |l| < 2 || l[0].inode != i || l[1].inode == 0 || l[0].name != DOT || l[1].name != DOTDOT { return false; }
      var k := 2;
      while k < |l|
        invariant 2 <= k <= |l| && forall j | 2 <= j < k :: l[j].inode == 0
      {
        if l[k].inode != 0 { return false; }
        k := k + 1;
      }
      b := true;
    }

    /** new_inode's search */
    method FindFreeInode() returns (i: nat)
      requires node.Length > 1
      ensures i == FreeInode(node[..], 1)
    {
      i := 1;
      while i < node.Length && node[i].Some?
        invariant 1 <= i <= node.Length && FreeInode(node[..], 1) == FreeInode(node[..], i)
      {
        i := i + 1;
      }
    }

    /** open with O_CREAT of a name not there yet, and mknod. */
    method CreateFile(d: nat, name: seq<Byte>, isDir: bool, isRoot: bool, room: bool) returns (out: Outcome)
      requires Valid() && IsDir(node[..], d) && IsName(name)
      modifies node
      ensures Valid() && NamesOk(old(node[..])) && (node[..], out) == Create(old(node[..]), d, name, isDir, isRoot, room)
    {
      ghost var s := node[..];
      CreateKeeps(s, d, name, isDir, isRoot, room);
      RootIsNotZero(s);
      hide Inv, Find, NamesOk, Match;
      var _, found := FindEntry(d, name, isRoot);
      if found { return Failed; }
      var i := FindFreeInode();
      if i >= node.Length { return Failed; }
      node[i] := Some(Node(isDir, 1, []));
      assert node[..] == s[i := Some(Node(isDir, 1, []))];
      var ok := AddEntry(d, name, i, room);
      if !ok {
        node[i] := None;
        assert node[..] == s;
        return Failed;
      }
      out := Done;
    }

    method Mkdir(d: nat, name: seq<Byte>, isRoot: bool, block: bool, room: bool) returns (out: Outcome)
      requires Valid() && IsDir(node[..], d) && IsName(name)
      modifies node
      ensures out != Panic ==> Valid()
      ensures NamesOk(old(node[..])) && out == LinkModel.Mkdir(old(node[..]), d, name, isRoot, block, room).1
      ensures out != Panic ==> node[..] == LinkModel.Mkdir(old(node[..]), d, name, isRoot, block, room).0
    {
      ghost var s := node[..];
      MkdirKeeps(s, d, name, isRoot, block, room);
      RootIsNotZero(s);
      hide Inv, Find, NamesOk, Match;
      var _, found := FindEntry(d, name, isRoot);
      if found { return Failed; }
      var i := FindFreeInode();
      if i >= node.Length || !block { return Failed; }
      out := AddDirectory(d, name, i, room);
    }

    /** sys_mkdir from the new directory's block on. */
    method AddDirectory(d: nat, name: seq<Byte>, i: nat, room: bool) returns (out: Outcome)
      requires IsDir(node[..], d) && i < node.Length && i != d
      modifies node
      ensures out == if CanAdd(old(node[..]), d, room) then Done else Panic
      ensures out == Done ==>
        var s := old(node[..]);
        node[..] == SetEntries(s[i := Some(Node(true, 2, [Entry(i, DOT), Entry(d, DOTDOT)]))], d, LinkModel.AddEntry(Entries(s, d), name, i), 1)
    {
      hide DOT, DOTDOT, FreeSlot, Padded;
      ghost var s := node[..];
      node[i] := Some(Node(true, 2, [Entry(i, DOT), Entry(d, DOTDOT)]));
      assert Entries(node[..], d) == Entries(s, d) && IsDir(node[..], d);
      var ok := AddEntry(d, name, i, room);
      if !ok { return Panic; }
      node[d] := Some(node[d].value.(nlinks := node[d].value.nlinks + 1));
      out := Done;
    }

    method Rmdir(d: nat, name: seq<Byte>, isRoot: bool, busy: bool) returns (out: Outcome)
      requires Valid() && IsDir(node[..], d) && IsName(name)
      modifies node
      ensures Valid() && NamesOk(old(node[..])) && (node[..], out) == LinkModel.Rmdir(old(node[..]), d, name, isRoot, busy)
    {
      ghost var s := node[..];
      RmdirKeeps(s, d, name, isRoot, busy);
      hide Inv, Find, EmptyDir, NamesOk, Match;
      var k, found := FindEntry(d, name, isRoot);
      if !found { return Failed; }
      var l := node[d].value.entries;
      var i := l[k].inode;
      if busy || i == d || i >= node.Length || node[i].None? || !node[i].value.isDir { return Failed; }
      var empty := IsEmptyDir(i);
      if !empty { return Failed; }
      DropDir(d, k, i);
      out := Done;
    }

    /** sys_rmdir once it is decided, with the final iput of the directory. */
    method DropDir(d: nat, k: nat, i: nat)
      requires IsDir(node[..], d) && k < |Entries(node[..], d)| && IsNode(node[..], i) && i != d
      modifies node
      ensures var s := old(node[..]);
        node[..] == SetEntries(s, d, Entries(s, d)[k := Entries(s, d)[k].(inode := 0)], -1)[i := None]
    {
      ghost var s := node[..];
      var l := node[d].value.entries;
      assert l == Entries(s, d);
      node[d] := Some(node[d].value.(entries := l[k := l[k].(inode := 0)]));
      node[d] := Some(node[d].value.(nlinks := node[d].value.nlinks - 1));
      assert node[..] == SetEntries(s, d, l[k := l[k].(inode := 0)], -1);
      node[i] := None;
    }

    method Unlink(d: nat, name: seq<Byte>, isRoot: bool, open: bool) returns (out: Outcome)
      requires Valid() && IsDir(node[..], d) && IsName(name)
      modifies node
      ensures Valid() && NamesOk(old(node[..])) && (node[..], out) == LinkModel.Unlink(old(node[..]), d, name, isRoot, open)
    {
      ghost var s := node[..];
      UnlinkKeeps(s, d, name, isRoot, open);
      hide Inv, Find, NamesOk, Match;
      var k, found := FindEntry(d, name, isRoot);
      if !found { return Failed; }
      var l := node[d].value.entries;
      var i := l[k].inode;
      if i >= node.Length || node[i].None? || node[i].value.isDir { return Failed; }
      assert l == Entries(s, d) && LinkModel.Unlink(s, d, name, isRoot, open) == (Unlinked(s, d, k, open), Done);
      hide Unlinked, LinkModel.Unlink, Lookup;
      DropFile(d, k, i, open);
      out := Done;
    }

    /** sys_unlink once it is decided, with the final iput of the file. */
    method DropFile(d: nat, k: nat, i: nat, open: bool)
      requires IsDir(node[..], d) && k < |Entries(node[..], d)| && i == Entries(node[..], d)[k].inode && IsNode(node[..], i) && !IsDir(node[..], i)
      modifies node
      ensures node[..] == Unlinked(old(node[..]), d, k, open)
    {
      ghost var s := node[..];
      var l := node[d].value.entries;
      node[d] := Some(node[d].value.(entries := l[k := l[k].(inode := 0)]));
      assert node[..] == SetEntries(s, d, l[k := l[k].(inode := 0)], 0);
      ghost var t := node[..];
      if node[i].value.nlinks == 0 {
        node[i] := Some(node[i].value.(nlinks := 1));
      }
      node[i] := Some(node[i].value.(nlinks := node[i].value.nlinks - 1));
      if node[i].value.nlinks == 0 && !open {
        node[i] := None;
      }
      assert node[..] == t[i := node[i]];
    }

    /** sys_link from add_entry on. */
    method AddLink(i: nat, d: nat, name: seq<Byte>, room: bool) returns (ok: bool)
      requires IsNode(node[..], i) && !IsDir(node[..], i) && IsDir(node[..], d)
      modifies node
      ensures ok == CanAdd(old(node[..]), d, room) == Takes(old(node[..]), d, room)
      ensures ok ==> IsDir(node[..], d) && Placed(old(Entries(node[..], d)), Entries(node[..], d))
      ensures !ok ==> node[..] == old(node[..])
      ensures ok ==> node[..] == MoreLinks(old(node[..]), i, d, name)
    {
      ok := AddEntry(d, name, i, room);
      if ok {
        ghost var t := node[..];
        node[i] := Some(node[i].value.(nlinks := node[i].value.nlinks + 1));
        assert node[..] == t[i := Some(t[i].value.(nlinks := t[i].value.nlinks + 1))];
      }
    }

    method Link(i: nat, d: nat, name: seq<Byte>, isRoot: bool, room: bool) returns (out: Outcome)
      requires Valid() && IsNode(node[..], i) && IsDir(node[..], d) && IsName(name)
      modifies node
      ensures Valid() && NamesOk(old(node[..])) && (node[..], out) == LinkModel.Link(old(node[..]), i, d, name, isRoot, room)
    {
      LinkKeeps(node[..], i, d, name, isRoot, room);
      hide Inv, Find, NamesOk, Lookup, Entries, MoreLinks, IsName;
      if node[i].value.isDir { return Failed; }
      var _, found := FindEntry(d, name, isRoot);
      if found { return Failed; }
      var ok := AddLink(i, d, name, room);
      out := if ok then Done else Failed;
    }
  }
}
