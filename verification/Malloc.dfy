// malloc and free_s on their descriptors and pages.  The ghost field g holds the lists that the
// pointers spell out.  A result of 0 from Malloc is the kernel panic for want of a page.

module Malloc {
  import opened NumberLists
  import opened MallocModel
  import opened MallocSteps

  class Allocator {
    var desc: seq<Desc>
    var chain: seq<nat>
    var freeDesc: nat
    const mem: array<nat>
    var pool: seq<nat>           // the pages get_free_page can still give
    ghost var g: Lists

    ghost function Abs(): Heap
      reads this, mem
    {
      Heap(desc, chain, freeDesc, mem[..])
    }

    ghost predicate PoolOk()
      reads this
    {
      Distinct(pool) && forall p | p in pool :: 0 < p && (p + 1) * PAGE <= mem.Length && p !in g.owner
    }

    ghost predicate Valid()
      reads this, mem
    {
      Inv(Abs(), g) && PoolOk()
    }

    /** a is an object a client holds. */
    ghost predicate Holds(a: nat)
      reads this, mem
    {
      Live(Abs(), g, a)
    }

    /** Where the kernel starts: empty chains, and no descriptors. */
    constructor (words: nat, pages: seq<nat>)
      requires Distinct(pages) && forall p | p in pages :: 0 < p && (p + 1) * PAGE <= words
      ensures Valid() && pool == pages && forall a: nat :: !Holds(a)
    {
      desc, chain, freeDesc := [Desc(0, 0, 0, 0, 0)], seq(BUCKETS, _ => 0), 0;
      mem := new nat[words](_ => 0);
      pool := pages;
      g := Lists(seq(BUCKETS, _ => []), [], [[]], [SPARE], map[]);
    }

    method GetFreePage() returns (p: nat)
      requires PoolOk()
      modifies `pool
      ensures PoolOk() && (p == 0 <==> old(pool) == [])
      ensures p != 0 ==> old(pool) == [p] + pool && p !in pool
    {
      if pool == [] { return 0; }
      assert pool[0] in pool;
      p := pool[0];
      pool := pool[1..];
      assert old(pool) == [p] + pool;
      assert forall q | q in pool :: q in old(pool);
      forall i | 0 <= i < |pool| ensures pool[i] != p { assert pool[i] == old(pool)[i + 1]; }
    }

    /** The loop of init_bucket_desc: descriptors of one page, the last linked to the spare list. */
    method LinkDescs(k: nat)
      requires k > 0
      modifies `desc
      ensures desc == old(desc) + Added(|old(desc)|, k, freeDesc)
    {
      ghost var n := |desc|;
      var i := k;
      while i > 1
        invariant 1 <= i <= k
        invariant desc + Added(|desc|, i, freeDesc) == old(desc) + Added(n, k, freeDesc)
      {
        ghost var was := desc;
        desc := desc + [Desc(0, |desc| + 1, 0, 0, 0)];
        assert was + Added(|was|, i, freeDesc) == desc + Added(|desc|, i - 1, freeDesc);
        i := i - 1;
      }
      assert Added(|desc|, 1, freeDesc) == [Desc(0, freeDesc, 0, 0, 0)] + Added(|desc| + 1, 0, freeDesc);
      desc := desc + [Desc(0, freeDesc, 0, 0, 0)];
    }

    /** init_bucket_desc */
    method InitBucketDesc() returns (ok: bool)
      requires Valid()
      modifies `desc, `freeDesc, `pool, `g
      ensures ok <==> old(pool) != []
      ensures ok ==> Valid() && freeDesc > 0 && pool == old(pool)[1..] && |desc| == |old(desc)| + 256
      ensures ok ==> Abs() == InitHeap(old(Abs()), DESCS_PER_PAGE) && LiveSame(old(Abs()), old(g), Abs(), g)
    {
      hide Inv, Added, Numbers;
      var page := GetFreePage();
      if page == 0 { return false; }
      InitStep(Abs(), g, DESCS_PER_PAGE);
      var first := |desc|;
      LinkDescs(DESCS_PER_PAGE);
      freeDesc := first;
      g := InitLists(g, DESCS_PER_PAGE);
      ok := true;
    }

    /** The first descriptor of a chain that has a free object, or 0. */
    method FindFree(b: nat) returns (d: nat)
      requires Valid() && b < BUCKETS
      ensures d == 0 || (Used(Abs(), g, d) && g.place[d] == b && desc[d].freeptr != 0)
      ensures d == 0 ==> forall e | e in g.chains[b] && e < |desc| :: desc[e].freeptr == 0
    {
      ghost var l := g.chains[b];
      ghost var i := 0;
      d := chain[b];
      assert DescList(desc, d, l);
      while d != 0 && desc[d].freeptr == 0
        invariant i <= |l| && DescList(desc, d, l[i..])
        invariant forall j | 0 <= j < i :: l[j] < |desc| && desc[l[j]].freeptr == 0
        invariant d != 0 ==> i < |l| && d == l[i] && 0 < d < |desc|
        decreases |l| - i
      {
        d := desc[d].next;
        assert l[i..][1..] == l[i + 1..];
        i := i + 1;
      }
      if d != 0 { assert d in l; }
    }

    /** A new bucket for a chain, all of its objects free, from a spare descriptor and a page. */
    method StartBucket(b: nat, page: nat) returns (d: nat)
      requires Valid() && b < BUCKETS && freeDesc != 0
      requires page !in g.owner && page !in pool && 0 < page && (page + 1) * PAGE <= mem.Length
      modifies `desc, `freeDesc, `chain, `g, mem
      ensures Core(Abs(), g) && BusyBut(Abs(), g, d) && PoolOk() && Used(Abs(), g, d) && g.place[d] == b && desc[d].freeptr != 0
      ensures LiveSame(old(Abs()), old(g), Abs(), g)
      ensures forall w | 0 <= w < mem.Length && w / PAGE != page :: mem[w] == old(mem[w])
    {
      hide Core, Partition, Bucket, Live, IsSlot, ObjList, DescList;
      ghost var h := Abs();
      Counts(h, g);
      NewStep(h, g, b, page);
      FreshList(mem[..], page, Size(b));
      Pieces(Size(b), 0);
      d := freeDesc;
      freeDesc := desc[d].next;
      desc := desc[d := Desc(page, chain[b], page * PAGE, 0, Size(b))];
      ThreadPage(page * PAGE, Size(b), PAGE / Size(b));
      assert forall w | 0 <= w < mem.Length && w / PAGE != page :: mem[..][w] == h.mem[w];
      chain := chain[b := d];
      g := NewLists(g, b, page);
      assert Abs() == NewHeap(h, b, page);
    }

    method NewBucket(b: nat) returns (d: nat)
      requires Valid() && b < BUCKETS
      modifies this, mem
      ensures d == 0 ==> old(pool) == [] || (|old(pool)| == 1 && old(freeDesc) == 0)
      ensures d != 0 ==> |old(pool)| == |pool| + if old(freeDesc) == 0 then 2 else 1
      ensures d != 0 ==> Core(Abs(), g) && BusyBut(Abs(), g, d) && PoolOk() && Used(Abs(), g, d) && g.place[d] == b && desc[d].freeptr != 0
      ensures d != 0 ==> LiveSame(old(Abs()), old(g), Abs(), g)
      ensures forall w | 0 <= w < mem.Length && mem[w] != old(mem[w]) :: w / PAGE !in old(g).owner
    {
      hide Inv, Core, Live, LiveSame, Distinct;
      if freeDesc == 0 {
        var ok := InitBucketDesc();
        if !ok { return 0; }
      } else {
        SameToItself(Abs(), g);
      }
      ghost var h, lists := Abs(), g;
      var page := GetFreePage();
      if page == 0 { return 0; }
      d := StartBucket(b, page);
      SameTwice(old(Abs()), old(g), h, lists, Abs(), g);
    }

    static lemma SameToItself(h: Heap, g: Lists)
      ensures LiveSame(h, g, h, g)
    {
    }

    static lemma SameTwice(h: Heap, g: Lists, h1: Heap, g1: Lists, h2: Heap, g2: Lists)
      requires LiveSame(h, g, h1, g1) && LiveSame(h1, g1, h2, g2)
      ensures LiveSame(h, g, h2, g2)
    {
    }

    /** The loop that links the free objects of a page. */
    method ThreadPage(cp: nat, size: nat, k: nat)
      requires 0 < size && 0 < k && cp + k * size <= mem.Length
      modifies mem
      ensures mem[..] == Thread(old(mem[..]), cp, size, k)
    {
      var c: nat, i := cp, k;
      assert k * size >= size;
      while i > 1
        invariant 1 <= i <= k && c + i * size <= mem.Length && c < mem.Length
        invariant Thread(mem[..], c, size, i) == Thread(old(mem[..]), cp, size, k)
      {
        assert i * size == (i - 1) * size + size && (i - 1) * size >= size;
        mem[c] := c + size;
        c := c + size;
        i := i - 1;
      }
      mem[c] := 0;
    }
  
    /** The first free object of a bucket. */
    method TakeObject(d: nat) returns (a: nat)
      requires Core(Abs(), g) && BusyBut(Abs(), g, d) && PoolOk() && Used(Abs(), g, d) && desc[d].freeptr != 0
      modifies `desc, `g
      ensures Valid() && a != 0 && !old(Holds(a)) && Holds(a) && SizeOf(Abs(), g, a) == Size(old(g.place[d])) && mem[..] == old(mem[..])
      ensures forall x: nat :: Holds(x) <==> old(Holds(x)) || x == a
    {
      assert Bucket(Abs(), g, d);
      TakeStep(Abs(), g, d);
      hide Core, BusyBut, Live, Bucket, IsSlot;
      a := desc[d].freeptr;
      desc := desc[d := desc[d].(freeptr := mem[a], refcnt := desc[d].refcnt + 1)];
      g := TakeLists(g, d);
    }

    /** Some page of objects of the smallest size that will do has a free one. */
    ghost predicate HasFree(len: nat)
      reads this, mem
    {
      exists d: nat :: Used(Abs(), g, d) && desc[d].freeptr != 0 && Smallest(desc[d].size, len)
    }

    /** Bucket b is the first that len words fit in. */
    static predicate FirstFit(b: nat, len: nat) {
      b < BUCKETS && len <= Size(b) && forall c | 0 <= c < b :: Size(c) < len
    }

    static lemma FirstFitSize(b: nat, len: nat)
      requires FirstFit(b, len)
      ensures Smallest(Size(b), len) && forall c | 0 <= c < BUCKETS && Smallest(Size(c), len) :: c == b
    {
      Sizes();
      if b > 0 { assert Size(b - 1) < len; }
    }

    static lemma Sizes()
      ensures Size(0) == 4 && forall b | 0 < b < BUCKETS :: Size(b) == 2 * Size(b - 1)
      ensures forall b, c | 0 <= b < c < BUCKETS :: 2 * Size(b) <= Size(c)
    {
    }

    lemma FreeOne(b: nat, len: nat, d: nat)
      requires Valid() && FirstFit(b, len)
      requires d == 0 || (Used(Abs(), g, d) && g.place[d] == b && desc[d].freeptr != 0)
      requires d == 0 ==> forall e | e in g.chains[b] && e < |desc| :: desc[e].freeptr == 0
      ensures HasFree(len) <==> d != 0
    {
      FirstFitSize(b, len);
      hide Smallest;
      ghost var h := Abs();
      if d != 0 { assert Bucket(h, g, d); }
      if d == 0 {
        forall e: nat | Used(h, g, e) && desc[e].freeptr != 0 ensures !Smallest(desc[e].size, len) {
          assert Bucket(h, g, e);
          assert e !in g.chains[b];
        }
      }
    }

    /** malloc of len words.  The object is new, of the smallest size that will do, and nobody else's;
        whatever is in the objects already held stays there.  The original panics if len exceeds a page. */
    method Malloc(len: nat) returns (a: nat)
      requires Valid() && len <= PAGE
      modifies this, mem
      ensures a == 0 ==> old(pool) == [] || (|old(pool)| == 1 && old(freeDesc) == 0)
      ensures a != 0 ==> Valid() && !old(Holds(a)) && Holds(a) && forall x: nat :: Holds(x) <==> old(Holds(x)) || x == a
      ensures a != 0 ==> Smallest(SizeOf(Abs(), g, a), len)
      ensures a != 0 ==> |old(pool)| - |pool| == if old(HasFree(len)) then 0 else if old(freeDesc) != 0 then 1 else 2
      ensures forall w | 0 <= w < mem.Length && mem[w] != old(mem[w]) :: w / PAGE !in old(g).owner
    {
      hide Core, Live, Distinct, Partition;
      var b := 0;
      while Size(b) < len
        invariant 0 <= b < BUCKETS && forall c | 0 <= c < b :: Size(c) < len
        decreases BUCKETS - b
      {
        assert b < 8;
        b := b + 1;
      }
      FirstFitSize(b, len);
      var d := FindFree(b);
      FreeOne(b, len, d);
      hide HasFree;
      if d == 0 {
        d := NewBucket(b);
        if d == 0 { return 0; }
      } else {
        SameToItself(Abs(), g);
      }
      a := TakeObject(d);
    }

    /** The search of free_s along one chain, with the descriptor before the one found. */
    method FindPage(b: nat, page: nat) returns (d: nat, prev: nat, ghost i: nat)
      requires Valid() && b < BUCKETS
      ensures d != 0 ==> i < |g.chains[b]| && g.chains[b][i] == d < |desc| && desc[d].page == page &&
                         prev == if i == 0 then 0 else g.chains[b][i - 1]
      ensures d == 0 ==> forall e | e in g.chains[b] && e < |desc| :: desc[e].page != page
    {
      ghost var l := g.chains[b];
      d, prev, i := chain[b], 0, 0;
      while d != 0 && desc[d].page != page
        invariant i <= |l| && DescList(desc, d, l[i..])
        invariant forall j | 0 <= j < i :: l[j] < |desc| && desc[l[j]].page != page
        invariant d != 0 ==> i < |l| && d == l[i] && 0 < d < |desc|
        invariant prev == if i == 0 then 0 else l[i - 1]
        decreases |l| - i
      {
        prev := d;
        d := desc[d].next;
        assert l[i..][1..] == l[i + 1..];
        i := i + 1;
      }
    }

    /** free_s up to `found`: the bucket of an object's page.  A size larger than the object's misses it,
        and the original panics. */
    method FindBucket(obj: nat, size: nat) returns (b: nat, d: nat, prev: nat, ghost i: nat)
      requires Valid() && Holds(obj) && size <= SizeOf(Abs(), g, obj)
      ensures b < BUCKETS && i < |g.chains[b]| && g.chains[b][i] == d == g.owner[obj / PAGE] && prev == if i == 0 then 0 else g.chains[b][i - 1]
    {
      ghost var o := g.owner[obj / PAGE];
      assert Used(Abs(), g, o) && Bucket(Abs(), g, o) && o in g.chains[g.place[o]];
      b, d, prev, i := 0, 0, 0, 0;
      while b < BUCKETS
        invariant 0 <= b <= g.place[o]
      {
        if Size(b) >= size {
          d, prev, i := FindPage(b, obj / PAGE);
          if d != 0 {
            FoundOwner(Abs(), g, b, i);
            return;
          }
        }
        b := b + 1;
      }
    }

    static lemma FoundOwner(h: Heap, lists: Lists, b: nat, i: nat)
      requires Inv(h, lists) && b < BUCKETS && i < |lists.chains[b]|
      ensures var d := lists.chains[b][i]; Used(h, lists, d) && lists.place[d] == b && h.desc[d].page in lists.owner && lists.owner[h.desc[d].page] == d
    {
      var d := lists.chains[b][i];
      ChainIn(h, lists, b, d);
      assert Bucket(h, lists, d);
    }

    /** The object goes to the front of its page's free list. */
    method PutObject(d: nat, obj: nat)
      requires Valid() && Holds(obj) && d == g.owner[obj / PAGE]
      modifies `desc, `g, mem
      ensures Core(Abs(), g) && BusyBut(Abs(), g, d) && PoolOk() && Used(Abs(), g, d) && g.chains == old(g).chains && g.owner == old(g).owner
      ensures g.place == old(g).place && |desc| == |old(desc)| && desc[d].page == old(desc)[d].page
      ensures forall x: nat :: Holds(x) <==> old(Holds(x)) && x != obj
      ensures forall w | 0 <= w < mem.Length && w != obj :: mem[w] == old(mem[w])
    {
      ghost var h := Abs();
      PutStep(h, g, d, obj);
      hide Core, BusyBut, Live;
      mem[obj] := desc[d].freeptr;
      desc := desc[d := desc[d].(freeptr := obj, refcnt := desc[d].refcnt - 1)];
      g := PutLists(g, d, obj);
      assert Abs() == PutHeap(h, d, obj);
    }

    method Unlink(b: nat, d: nat, prev: nat)
      requires b < |chain| && d < |desc| && prev < |desc|
      modifies `desc, `chain, `freeDesc
      ensures Abs() == DropHeap(old(Abs()), b, prev, d)
    {
      if prev != 0 {
        desc := desc[prev := desc[prev].(next := desc[d].next)];
      } else {
        chain := chain[b := desc[d].next];
      }
      desc := desc[d := desc[d].(next := freeDesc)];
      freeDesc := d;
    }

    /** A bucket without objects in use is unlinked and its page given back. */
    method DropBucket(b: nat, d: nat, prev: nat, ghost i: nat)
      requires Core(Abs(), g) && BusyBut(Abs(), g, d) && PoolOk() && b < BUCKETS == |g.chains| && i < |g.chains[b]|
      requires g.chains[b][i] == d < |desc| && prev == (if i == 0 then 0 else g.chains[b][i - 1]) && desc[d].refcnt == 0
      requires 0 < desc[d].page && (desc[d].page + 1) * PAGE <= mem.Length
      modifies `desc, `chain, `freeDesc, `pool, `g
      ensures Valid() && LiveSame(old(Abs()), old(g), Abs(), g) && pool == [old(desc)[d].page] + old(pool)
    {
      ghost var h, owner := Abs(), g.owner;
      Counts(h, g);
      DropStep(h, g, b, i);
      hide Core, BusyBut, Live, Inv;
      var page := desc[d].page;
      Unlink(b, d, prev);
      pool := [page] + pool;
      g := DropLists(g, b, i, page);
      forall p | p in pool ensures 0 < p && (p + 1) * PAGE <= mem.Length && p !in g.owner {}
      PushDistinct(old(pool), page);
    }

    static lemma PushDistinct(l: seq<nat>, x: nat)
      requires Distinct(l) && x !in l
      ensures Distinct([x] + l)
    {
    }

    /** free_s.  The object and no other is given up, and its page goes back to the pool exactly when no
        object of it is held any more. */
    method Free(obj: nat, size: nat)
      requires Valid() && Holds(obj) && size <= SizeOf(Abs(), g, obj)
      modifies this, mem
      ensures Valid() && forall x: nat :: Holds(x) <==> old(Holds(x)) && x != obj
      ensures forall w | 0 <= w < mem.Length && w != obj :: mem[w] == old(mem[w])
      ensures pool == if Unheld(Abs(), g, obj / PAGE) then [obj / PAGE] + old(pool) else old(pool)
    {
      hide Core, BusyBut, Live, Inv, Used;
      ghost var h0, lists0 := Abs(), g;
      var b, d, prev, i := FindBucket(obj, size);
      OwnerPage(Abs(), g, b, i, obj);
      PutObject(d, obj);
      ghost var h, lists := Abs(), g;
      assert forall x: nat :: Live(h, lists, x) <==> Live(h0, lists0, x) && x != obj by {
        forall x: nat ensures Live(h, lists, x) <==> Live(h0, lists0, x) && x != obj { assert Holds(x) <==> old(Holds(x)) && x != obj; }
      }
      EmptyPage(h, lists, d);
      if desc[d].refcnt == 0 {
        DropBucket(b, d, prev, i);
        SameUnheld(h, lists, Abs(), g, obj / PAGE);
      } else {
        StillBusy(h, lists, d);
        SameToItself(h, lists);
      }
      forall x: nat ensures Holds(x) <==> old(Holds(x)) && x != obj {
        assert Live(Abs(), g, x) <==> Live(h, lists, x);
        assert Live(h, lists, x) <==> Live(h0, lists0, x) && x != obj;
      }
    }

    static lemma OwnerPage(h: Heap, lists: Lists, b: nat, i: nat, obj: nat)
      requires Inv(h, lists) && Live(h, lists, obj) && b < BUCKETS && i < |lists.chains[b]| && lists.chains[b][i] == lists.owner[obj / PAGE]
      ensures |lists.chains| == BUCKETS && lists.chains[b][i] < |h.desc|
      ensures var p := h.desc[lists.chains[b][i]].page; p == obj / PAGE && 0 < p && (p + 1) * PAGE <= |h.mem|
    {
      ChainIn(h, lists, b, lists.chains[b][i]);
      assert Bucket(h, lists, lists.owner[obj / PAGE]);
    }

    static lemma SameUnheld(h: Heap, lists: Lists, h': Heap, lists': Lists, p: nat)
      requires LiveSame(h, lists, h', lists')
      ensures Unheld(h', lists', p) <==> Unheld(h, lists, p)
    {
    }

    static lemma StillBusy(h: Heap, lists: Lists, d: nat)
      requires Core(h, lists) && BusyBut(h, lists, d) && d < |h.desc| && h.desc[d].refcnt > 0
      ensures Inv(h, lists)
    {
    }
  }
}
