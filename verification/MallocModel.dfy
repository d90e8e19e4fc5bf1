// The heap of lib/malloc.c: bucket descriptors on linked lists, and in each bucket's page a free
// list threaded through the free objects themselves.  Addresses and sizes count 4-byte words; page p
// is the words from 1024 * p on.  Descriptors are numbered from 1, and 0 is the null pointer.

module MallocModel {
  import opened NumberLists

  const PAGE: nat := 1024
  const BUCKETS: nat := 9
  const SPARE: nat := 9
  const DESCS_PER_PAGE: nat := 256

  /** bucket_dir: 16 bytes to 4096 bytes. */
  function Size(b: nat): (z: nat)
    requires b < BUCKETS
    ensures 4 <= z <= PAGE && PAGE % z == 0 && z in {4, 8, 16, 32, 64, 128, 256, 512, 1024}
  {
    [4, 8, 16, 32, 64, 128, 256, 512, 1024][b]
  }

  /** The smallest of the sizes 16, 32, ..., 4096 bytes that holds len words. */
  predicate Smallest(z: nat, len: nat) {
    z in {4, 8, 16, 32, 64, 128, 256, 512, 1024} && len <= z && (z == 4 || z < 2 * len)
  }

  datatype Desc = Desc(page: nat, next: nat, freeptr: nat, refcnt: nat, size: nat)

  datatype Heap = Heap(desc: seq<Desc>, chain: seq<nat>, freeDesc: nat, mem: seq<nat>)

  /** What the pointers say: the descriptors on each chain and on the spare list, the free objects of
      each descriptor in list order, the list each descriptor is on, and the descriptor of each page. */
  datatype Lists = Lists(chains: seq<seq<nat>>, spare: seq<nat>, objs: seq<seq<nat>>, place: seq<nat>, owner: map<nat, nat>)

  ghost predicate DescList(desc: seq<Desc>, head: nat, l: seq<nat>)
    decreases |l|
  {
    if l == [] then head == 0 else head == l[0] && 0 < head < |desc| && DescList(desc, desc[head].next, l[1..])
  }

  ghost predicate ObjList(mem: seq<nat>, head: nat, l: seq<nat>)
    decreases |l|
  {
    if l == [] then head == 0 else head == l[0] && 0 < head < |mem| && ObjList(mem, mem[head], l[1..])
  }

  /** The objects of a page cut into pieces of a size. */
  ghost predicate IsSlot(page: nat, size: nat, a: nat)
    requires 0 < size
  {
    a / PAGE == page && a % PAGE % size == 0
  }

  ghost predicate Used(h: Heap, g: Lists, d: nat) {
    0 < d < |h.desc| == |g.place| == |g.objs| && g.place[d] < BUCKETS
  }

  /** The descriptors are partitioned by the chains and the spare list. */
  ghost predicate Partition(h: Heap, g: Lists) {
    && |h.chain| == |g.chains| == BUCKETS && 0 < |h.desc| == |g.place| == |g.objs|
    && (forall b | 0 <= b < BUCKETS :: DescList(h.desc, h.chain[b], g.chains[b]) && Distinct(g.chains[b]))
    && DescList(h.desc, h.freeDesc, g.spare) && Distinct(g.spare)
    && (forall d | 0 < d < |h.desc| :: g.place[d] <= SPARE)
    && (forall d, b | 0 <= b < BUCKETS && 0 < d < |h.desc| :: d in g.chains[b] <==> g.place[d] == b)
    && (forall d | 0 < d < |h.desc| :: d in g.spare <==> g.place[d] == SPARE)
  }

  /** A descriptor in use: its page holds PAGE / size objects, on its free list or counted in refcnt. */
  ghost predicate Bucket(h: Heap, g: Lists, d: nat)
    requires Used(h, g, d)
  {
    var e := h.desc[d];
    && e.size == Size(g.place[d]) && e.refcnt + |g.objs[d]| == PAGE / e.size
    && 0 < e.page && (e.page + 1) * PAGE <= |h.mem|
    && e.page in g.owner && g.owner[e.page] == d
    && Distinct(g.objs[d]) && ObjList(h.mem, e.freeptr, g.objs[d])
    && (forall i | 0 <= i < |g.objs[d]| :: IsSlot(e.page, e.size, g.objs[d][i]))
  }

  ghost predicate Core(h: Heap, g: Lists) {
    && Partition(h, g)
    && (forall d | Used(h, g, d) :: Bucket(h, g, d))
    && (forall p | p in g.owner :: Used(h, g, g.owner[p]) && h.desc[g.owner[p]].page == p)
  }

  /** No bucket but x is kept without an object in it. */
  ghost predicate BusyBut(h: Heap, g: Lists, x: nat) {
    forall d: nat | Used(h, g, d) && d != x :: h.desc[d].refcnt > 0
  }

  ghost predicate Inv(h: Heap, g: Lists) {
    Core(h, g) && BusyBut(h, g, 0)
  }

  /** An object that a client holds: one of a bucket's objects, not on its free list. */
  ghost predicate Live(h: Heap, g: Lists, a: nat) {
    a / PAGE in g.owner &&
    var d := g.owner[a / PAGE];
    Used(h, g, d) && 0 < h.desc[d].size && IsSlot(h.desc[d].page, h.desc[d].size, a) && a !in g.objs[d]
  }

  ghost function SizeOf(h: Heap, g: Lists, a: nat): nat
    requires Live(h, g, a)
  {
    h.desc[g.owner[a / PAGE]].size
  }

  /** The word w belongs to the object a. */
  ghost predicate Within(h: Heap, g: Lists, a: nat, w: nat)
    requires Live(h, g, a)
  {
    a <= w < a + SizeOf(h, g, a)
  }

  // ----- what the invariant means for clients -----------------------------------------------

  predicate IsSize(z: nat) { z in {4, 8, 16, 32, 64, 128, 256, 512, 1024} }

  /** Multiples of a size below PAGE leave room for one more, and are a size apart. */
  lemma Multiples(size: nat, x: nat, y: nat)
    requires IsSize(size) && x < PAGE && x % size == 0 && y < PAGE && y % size == 0
    ensures x + size <= PAGE && (x < y ==> x + size <= y)
  {
    if size == 4 {} else if size == 8 {} else if size == 16 {} else if size == 32 {} else if size == 64 {}
    else if size == 128 {} else if size == 256 {} else if size == 512 {} else {}
  }

  lemma SlotFits(page: nat, size: nat, a: nat)
    requires IsSize(size) && IsSlot(page, size, a)
    ensures page * PAGE <= a && a + size <= (page + 1) * PAGE
  {
    Multiples(size, a % PAGE, a % PAGE);
  }

  lemma SlotsApart(page: nat, size: nat, a: nat, b: nat)
    requires IsSize(size) && IsSlot(page, size, a) && IsSlot(page, size, b) && a < b
    ensures a + size <= b
  {
    assert a == page * PAGE + a % PAGE && b == page * PAGE + b % PAGE;
    Multiples(size, a % PAGE, b % PAGE);
  }

  /** Live objects are aligned pieces of their pages and do not overlap. */
  lemma LiveDisjoint(h: Heap, g: Lists, a: nat, b: nat, w: nat)
    requires Core(h, g) && Live(h, g, a) && Live(h, g, b) && Within(h, g, a, w) && Within(h, g, b, w)
    ensures a == b && w / PAGE == a / PAGE && w < |h.mem|
  {
    var d, e := g.owner[a / PAGE], g.owner[b / PAGE];
    assert Bucket(h, g, d) && Bucket(h, g, e);
    SlotFits(h.desc[d].page, h.desc[d].size, a);
    SlotFits(h.desc[e].page, h.desc[e].size, b);
    assert a / PAGE == w / PAGE == b / PAGE;
    if a < b { SlotsApart(h.desc[d].page, h.desc[d].size, a, b); }
    if b < a { SlotsApart(h.desc[d].page, h.desc[d].size, b, a); }
  }

  /** A free object's link is in no live object. */
  lemma LinkNotLive(h: Heap, g: Lists, a: nat, d: nat, i: nat)
    requires Core(h, g) && Live(h, g, a) && Used(h, g, d) && i < |g.objs[d]|
    ensures !Within(h, g, a, g.objs[d][i])
  {
    var f := g.objs[d][i];
    if Within(h, g, a, f) {
      var e := g.owner[a / PAGE];
      assert Bucket(h, g, d) && Bucket(h, g, e);
      SlotFits(h.desc[e].page, h.desc[e].size, a);
      assert f / PAGE == a / PAGE && d == e;
      if a < f { SlotsApart(h.desc[d].page, h.desc[d].size, a, f); }
    }
  }

  lemma {:induction false} ObjListFrame(m: seq<nat>, m': seq<nat>, head: nat, l: seq<nat>)
    requires ObjList(m, head, l) && |m'| == |m| && forall i | 0 <= i < |l| :: l[i] < |m| ==> m'[l[i]] == m[l[i]]
    ensures ObjList(m', head, l)
    decreases |l|
  {
    if l != [] {
      forall i | 0 <= i < |l[1..]| ensures l[1..][i] < |m| ==> m'[l[1..][i]] == m[l[1..][i]] { assert l[1..][i] == l[i + 1]; }
      ObjListFrame(m, m', m[head], l[1..]);
    }
  }

  /** The point of the design: whatever a client stores in an object it holds, the free lists inside the
      pages stay what they were. */
  lemma ClientStore(h: Heap, g: Lists, a: nat, w: nat, v: nat)
    requires Core(h, g) && Live(h, g, a) && Within(h, g, a, w)
    ensures w < |h.mem| && Core(h.(mem := h.mem[w := v]), g) && (Inv(h, g) ==> Inv(h.(mem := h.mem[w := v]), g))
    ensures forall x :: Live(h.(mem := h.mem[w := v]), g, x) <==> Live(h, g, x)
  {
    LiveDisjoint(h, g, a, a, w);
    var h' := h.(mem := h.mem[w := v]);
    forall d: nat | Used(h', g, d) ensures Bucket(h', g, d) {
      assert Used(h, g, d) && Bucket(h, g, d);
      forall i | 0 <= i < |g.objs[d]| ensures g.objs[d][i] != w { LinkNotLive(h, g, a, d, i); }
      ObjListFrame(h.mem, h'.mem, h.desc[d].freeptr, g.objs[d]);
    }
    assert forall d :: Used(h', g, d) <==> Used(h, g, d);
  }
}
