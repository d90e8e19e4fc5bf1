// The steps of malloc and free_s, and what each does to the lists and to the objects in use.

module MallocSteps {
  import opened NumberLists
  import opened MallocModel

  ghost predicate LiveSame(h: Heap, g: Lists, h': Heap, g': Lists) {
    forall x :: Live(h', g', x) <==> Live(h, g, x)
  }

  lemma {:induction false} DescListFrame(s: seq<Desc>, t: seq<Desc>, head: nat, l: seq<nat>)
    requires DescList(s, head, l) && |s| <= |t| && forall i | 0 <= i < |l| :: l[i] < |s| ==> t[l[i]].next == s[l[i]].next
    ensures DescList(t, head, l)
    decreases |l|
  {
    if l != [] {
      forall i | 0 <= i < |l[1..]| ensures l[1..][i] < |s| ==> t[l[1..][i]].next == s[l[1..][i]].next { assert l[1..][i] == l[i + 1]; }
      DescListFrame(s, t, s[head].next, l[1..]);
    }
  }

  lemma {:induction false} DescListIn(s: seq<Desc>, head: nat, l: seq<nat>, i: nat)
    requires DescList(s, head, l) && i < |l|
    ensures 0 < l[i] < |s| && s[l[i]].next == if i + 1 < |l| then l[i + 1] else 0
    decreases |l|
  {
    if i > 0 { DescListIn(s, s[head].next, l[1..], i - 1); }
  }

  /** Changing anything but the links of descriptors leaves the lists alone. */
  lemma LinksKept(h: Heap, h': Heap, g: Lists)
    requires Partition(h, g) && |h'.desc| == |h.desc| && h'.chain == h.chain && h'.freeDesc == h.freeDesc
    requires forall d | 0 <= d < |h.desc| :: h'.desc[d].next == h.desc[d].next
    ensures Partition(h', g)
  {
    forall b | 0 <= b < BUCKETS ensures DescList(h'.desc, h.chain[b], g.chains[b]) {
      DescListFrame(h.desc, h'.desc, h.chain[b], g.chains[b]);
    }
    DescListFrame(h.desc, h'.desc, h.freeDesc, g.spare);
  }

  // ----- malloc: taking the first free object of a bucket --------------------------------------

  function TakeHeap(h: Heap, d: nat): Heap
    requires d < |h.desc| && h.desc[d].freeptr < |h.mem|
  {
    h.(desc := h.desc[d := h.desc[d].(freeptr := h.mem[h.desc[d].freeptr], refcnt := h.desc[d].refcnt + 1)])
  }

  ghost function TakeLists(g: Lists, d: nat): Lists
    requires d < |g.objs| && g.objs[d] != []
  {
    g.(objs := g.objs[d := g.objs[d][1..]])
  }

  lemma TakeBucket(h: Heap, g: Lists, d: nat)
    requires Core(h, g) && Used(h, g, d) && h.desc[d].freeptr != 0
    ensures g.objs[d] != [] && h.desc[d].freeptr < |h.mem| && g.objs[d][0] == h.desc[d].freeptr
    ensures Used(TakeHeap(h, d), TakeLists(g, d), d) && Bucket(TakeHeap(h, d), TakeLists(g, d), d)
  {
    assert Bucket(h, g, d);
    var l := g.objs[d];
    forall i, j | 0 <= i < j < |l[1..]| ensures l[1..][i] != l[1..][j] { assert l[1..][i] == l[i + 1] && l[1..][j] == l[j + 1]; }
    forall i | 0 <= i < |l[1..]| ensures IsSlot(h.desc[d].page, h.desc[d].size, l[1..][i]) { assert l[1..][i] == l[i + 1]; }
  }

  /** The object was free, is now live, and nothing else changed hands. */
  lemma TakeStep(h: Heap, g: Lists, d: nat)
    requires Core(h, g) && Used(h, g, d) && h.desc[d].freeptr != 0
    ensures g.objs[d] != [] && h.desc[d].freeptr < |h.mem|
    ensures var a := h.desc[d].freeptr; var h' := TakeHeap(h, d); var g' := TakeLists(g, d);
      Core(h', g') && (BusyBut(h, g, d) ==> Inv(h', g')) && !Live(h, g, a) && Live(h', g', a) && SizeOf(h', g', a) == h.desc[d].size &&
      forall x :: Live(h', g', x) <==> Live(h, g, x) || x == a
  {
    TakeBucket(h, g, d);
    var h' := TakeHeap(h, d);
    var g' := TakeLists(g, d);
    LinksKept(h, h', g);
    assert Partition(h', g');
    forall e: nat | Used(h', g', e) ensures Bucket(h', g', e) { assert e != d ==> Used(h, g, e) && Bucket(h, g, e); }
    assert forall e :: Used(h', g', e) <==> Used(h, g, e);
    TakeLive(h, g, d);
  }

  lemma TakeLive(h: Heap, g: Lists, d: nat)
    requires Core(h, g) && Used(h, g, d) && g.objs[d] != [] && h.desc[d].freeptr < |h.mem| && g.objs[d][0] == h.desc[d].freeptr
    ensures var a := h.desc[d].freeptr; !Live(h, g, a) && Live(TakeHeap(h, d), TakeLists(g, d), a)
    ensures forall x :: Live(TakeHeap(h, d), TakeLists(g, d), x) <==> Live(h, g, x) || x == h.desc[d].freeptr
  {
    var l := g.objs[d];
    assert Bucket(h, g, d);
    assert IsSlot(h.desc[d].page, h.desc[d].size, l[0]);
    assert l == [l[0]] + l[1..];
    assert l[0] !in l[1..];
    assert Used(TakeHeap(h, d), TakeLists(g, d), d);
    forall x: nat ensures Live(TakeHeap(h, d), TakeLists(g, d), x) <==> Live(h, g, x) || x == l[0] {
      if x / PAGE in g.owner && g.owner[x / PAGE] != d { assert x != l[0]; }
    }
  }

  // ----- malloc: a new page of free objects ----------------------------------------------------

  function Thread(mem: seq<nat>, a: nat, size: nat, k: nat): (m: seq<nat>)
    ensures |m| == |mem|
    decreases k
  {
    if k == 0 || a >= |mem| then mem
    else if k == 1 then mem[a := 0]
    else Thread(mem[a := a + size], a + size, size, k - 1)
  }

  function SlotsFrom(a: nat, size: nat, k: nat): (l: seq<nat>)
    ensures |l| == k
    decreases k
  {
    if k == 0 then [] else [a] + SlotsFrom(a + size, size, k - 1)
  }

  lemma {:induction false} SlotsFromAt(a: nat, size: nat, k: nat, i: nat)
    requires i < k
    ensures SlotsFrom(a, size, k)[i] == a + i * size
    decreases k
  {
    if i > 0 {
      SlotsFromAt(a + size, size, k - 1, i - 1);
      assert i * size == (i - 1) * size + size;
    }
  }

  lemma {:induction false} ThreadOutside(mem: seq<nat>, a: nat, size: nat, k: nat, w: nat)
    requires w < |mem| && (w < a || a + k * size <= w) && 0 < size
    ensures Thread(mem, a, size, k)[w] == mem[w]
    decreases k
  {
    if k > 0 && a < |mem| {
      assert k * size == (k - 1) * size + size && (k - 1) * size >= 0;
      if k > 1 { ThreadOutside(mem[a := a + size], a + size, size, k - 1, w); }
    }
  }

  lemma {:induction false} ThreadLists(mem: seq<nat>, a: nat, size: nat, k: nat)
    requires 0 < a && 0 < size && a + k * size <= |mem| && 0 < k
    ensures ObjList(Thread(mem, a, size, k), a, SlotsFrom(a, size, k))
    decreases k
  {
    assert k * size == (k - 1) * size + size && (k - 1) * size >= 0;
    if k > 1 {
      var m := mem[a := a + size];
      ThreadLists(m, a + size, size, k - 1);
      ThreadOutside(m, a + size, size, k - 1, a);
      assert SlotsFrom(a, size, k)[1..] == SlotsFrom(a + size, size, k - 1);
    } else {
      assert SlotsFrom(a, size, 1)[1..] == [];
    }
  }

  lemma Pieces(size: nat, i: nat)
    requires IsSize(size) && i < PAGE / size
    ensures i * size < PAGE && i * size % size == 0 && PAGE / size * size == PAGE
  {
    if size == 4 {} else if size == 8 {} else if size == 16 {} else if size == 32 {} else if size == 64 {}
    else if size == 128 {} else if size == 256 {} else if size == 512 {} else {}
  }

  lemma SlotsRise(a: nat, size: nat, k: nat, i: nat, j: nat)
    requires i < j < k && 0 < size
    ensures SlotsFrom(a, size, k)[i] < SlotsFrom(a, size, k)[j]
    decreases k
  {
    if i == 0 {
      SlotsFromAt(a, size, k, j);
      assert j * size > 0;
    } else {
      SlotsRise(a + size, size, k - 1, i - 1, j - 1);
    }
  }

  lemma SlotsAre(p: nat, size: nat, i: nat)
    requires IsSize(size) && i < PAGE / size
    ensures IsSlot(p, size, SlotsFrom(p * PAGE, size, PAGE / size)[i])
  {
    SlotsFromAt(p * PAGE, size, PAGE / size, i);
    Pieces(size, i);
  }

  /** The fresh free list: every object of the page, once. */
  lemma FreshList(mem: seq<nat>, p: nat, size: nat)
    requires IsSize(size) && 0 < p && (p + 1) * PAGE <= |mem|
    ensures var l := SlotsFrom(p * PAGE, size, PAGE / size);
      ObjList(Thread(mem, p * PAGE, size, PAGE / size), p * PAGE, l) && Distinct(l) &&
      forall i | 0 <= i < |l| :: IsSlot(p, size, l[i])
    ensures forall w | 0 <= w < |mem| && w / PAGE != p :: Thread(mem, p * PAGE, size, PAGE / size)[w] == mem[w]
  {
    hide IsSlot;
    var n := PAGE / size;
    var l := SlotsFrom(p * PAGE, size, n);
    Pieces(size, 0);
    ThreadLists(mem, p * PAGE, size, n);
    forall i | 0 <= i < |l| ensures IsSlot(p, size, l[i]) { SlotsAre(p, size, i); }
    forall i, j | 0 <= i < j < |l| ensures l[i] != l[j] { SlotsRise(p * PAGE, size, n, i, j); }
    forall w | 0 <= w < |mem| && w / PAGE != p ensures Thread(mem, p * PAGE, size, n)[w] == mem[w] {
      ThreadOutside(mem, p * PAGE, size, n, w);
    }
  }

  function NewHeap(h: Heap, b: nat, p: nat): Heap
    requires b < BUCKETS == |h.chain| && h.freeDesc < |h.desc|
  {
    var d := h.freeDesc;
    h.(desc := h.desc[d := Desc(p, h.chain[b], p * PAGE, 0, Size(b))],
       freeDesc := h.desc[d].next, chain := h.chain[b := d],
       mem := Thread(h.mem, p * PAGE, Size(b), PAGE / Size(b)))
  }

  ghost function NewLists(g: Lists, b: nat, p: nat): Lists
    requires b < BUCKETS == |g.chains| && g.spare != [] && g.spare[0] < |g.place| == |g.objs|
  {
    var d := g.spare[0];
    Lists(g.chains[b := [d] + g.chains[b]], g.spare[1..], g.objs[d := SlotsFrom(p * PAGE, Size(b), PAGE / Size(b))],
          g.place[d := b], g.owner[p := d])
  }

  lemma NewPartition(h: Heap, g: Lists, b: nat, p: nat)
    requires Partition(h, g) && b < BUCKETS && h.freeDesc != 0
    ensures g.spare != [] && g.spare[0] == h.freeDesc < |h.desc| && Partition(NewHeap(h, b, p), NewLists(g, b, p))
  {
    var d := h.freeDesc;
    var h', g' := NewHeap(h, b, p), NewLists(g, b, p);
    assert d in g.spare && g.place[d] == SPARE;
    assert g.spare == [d] + g.spare[1..];
    forall c | 0 <= c < BUCKETS ensures DescList(h'.desc, h'.chain[c], g'.chains[c]) && Distinct(g'.chains[c]) {
      assert d !in g.chains[c];
      DescListFrame(h.desc, h'.desc, h.chain[c], g.chains[c]);
      if c == b { assert g'.chains[b][1..] == g.chains[b]; }
    }
    assert d !in g.spare[1..];
    DescListFrame(h.desc, h'.desc, h.desc[d].next, g.spare[1..]);
    forall e, c | 0 <= c < BUCKETS && 0 < e < |h.desc| ensures e in g'.chains[c] <==> g'.place[e] == c {
      assert e in g.chains[c] <==> g.place[e] == c;
    }
    forall e | 0 < e < |h.desc| ensures e in g'.spare <==> g'.place[e] == SPARE {
      assert e in g.spare <==> g.place[e] == SPARE;
    }
  }

  /** A fresh page becomes a bucket whose objects are all free; no object changes hands. */
  lemma NewStep(h: Heap, g: Lists, b: nat, p: nat)
    requires Inv(h, g) && b < BUCKETS && h.freeDesc != 0 && p !in g.owner && 0 < p && (p + 1) * PAGE <= |h.mem|
    ensures g.spare != [] && g.spare[0] == h.freeDesc < |h.desc|
    ensures var h' := NewHeap(h, b, p); var g' := NewLists(g, b, p);
      Core(h', g') && BusyBut(h', g', h.freeDesc) && LiveSame(h, g, h', g') && Used(h', g', h.freeDesc) && h'.desc[h.freeDesc].freeptr == p * PAGE
  {
    NewPartition(h, g, b, p);
    var d := h.freeDesc;
    var h', g' := NewHeap(h, b, p), NewLists(g, b, p);
    FreshList(h.mem, p, Size(b));
    assert d in g.spare && g.place[d] == SPARE;
    forall e: nat | Used(h', g', e) ensures Bucket(h', g', e) {
      if e != d {
        assert Used(h, g, e) && Bucket(h, g, e);
        ObjListFrame(h.mem, h'.mem, h.desc[e].freeptr, g.objs[e]);
      }
    }
    forall q | q in g'.owner ensures Used(h', g', g'.owner[q]) && h'.desc[g'.owner[q]].page == q {
      if q != p { assert Used(h, g, g.owner[q]); }
    }
    NewLive(h, g, b, p);
  }

  lemma NewLive(h: Heap, g: Lists, b: nat, p: nat)
    requires Core(h, g) && b < BUCKETS && p !in g.owner && g.spare != [] && g.spare[0] == h.freeDesc < |h.desc| && Partition(NewHeap(h, b, p), NewLists(g, b, p))
    ensures LiveSame(h, g, NewHeap(h, b, p), NewLists(g, b, p))
  {
    var d := h.freeDesc;
    var h', g' := NewHeap(h, b, p), NewLists(g, b, p);
    assert d in g.spare && 0 < d < |h.desc| by { DescListIn(h.desc, d, g.spare, 0); }
    forall x: nat ensures Live(h', g', x) <==> Live(h, g, x) {
      if x / PAGE == p {
        if IsSlot(p, Size(b), x) { SlotListed(p, Size(b), x); }
      } else if x / PAGE in g.owner {
        assert g.owner[x / PAGE] != d;
      }
    }
  }

  lemma SlotListed(p: nat, size: nat, a: nat)
    requires IsSize(size) && IsSlot(p, size, a)
    ensures a in SlotsFrom(p * PAGE, size, PAGE / size)
  {
    var i := a % PAGE / size;
    SlotNumber(size, a % PAGE);
    SlotsFromAt(p * PAGE, size, PAGE / size, i);
    assert SlotsFrom(p * PAGE, size, PAGE / size)[i] == a;
  }

  lemma SlotNumber(size: nat, x: nat)
    requires IsSize(size) && x < PAGE && x % size == 0
    ensures x / size < PAGE / size && x / size * size == x
  {
    if size == 4 {} else if size == 8 {} else if size == 16 {} else if size == 32 {} else if size == 64 {}
    else if size == 128 {} else if size == 256 {} else if size == 512 {} else {}
  }

  // ----- free_s: putting an object back ----------------------------------------------------------

  function PutHeap(h: Heap, d: nat, a: nat): Heap
    requires d < |h.desc| && a < |h.mem| && h.desc[d].refcnt > 0
  {
    h.(mem := h.mem[a := h.desc[d].freeptr], desc := h.desc[d := h.desc[d].(freeptr := a, refcnt := h.desc[d].refcnt - 1)])
  }

  ghost function PutLists(g: Lists, d: nat, a: nat): Lists
    requires d < |g.objs|
  {
    g.(objs := g.objs[d := [a] + g.objs[d]])
  }

  lemma PutBucket(h: Heap, g: Lists, d: nat, a: nat)
    requires Inv(h, g) && Live(h, g, a) && d == g.owner[a / PAGE]
    ensures Used(h, g, d) && 0 < a < |h.mem| && h.desc[d].refcnt > 0 && Bucket(PutHeap(h, d, a), PutLists(g, d, a), d)
  {
    assert Bucket(h, g, d);
    SlotFits(h.desc[d].page, h.desc[d].size, a);
    var l := g.objs[d];
    var h' := PutHeap(h, d, a);
    ObjListFrame(h.mem, h'.mem, h.desc[d].freeptr, l);
    assert ([a] + l)[1..] == l;
  }

  /** The object is no longer live, and nothing else changed hands. */
  lemma PutStep(h: Heap, g: Lists, d: nat, a: nat)
    requires Inv(h, g) && Live(h, g, a) && d == g.owner[a / PAGE]
    ensures Used(h, g, d) && 0 < a < |h.mem| && h.desc[d].refcnt > 0
    ensures var h' := PutHeap(h, d, a); var g' := PutLists(g, d, a);
      Core(h', g') && BusyBut(h', g', d) && Used(h', g', d) && forall x: nat :: Live(h', g', x) <==> Live(h, g, x) && x != a
  {
    PutBucket(h, g, d, a);
    var h', g' := PutHeap(h, d, a), PutLists(g, d, a);
    LinksKept(h, h', g);
    forall e: nat | Used(h', g', e) ensures Bucket(h', g', e) {
      if e != d {
        assert Used(h, g, e) && Bucket(h, g, e);
        forall i | 0 <= i < |g.objs[e]| ensures g.objs[e][i] != a { LinkNotLive(h, g, a, e, i); }
        ObjListFrame(h.mem, h'.mem, h.desc[e].freeptr, g.objs[e]);
      }
    }
    assert forall e: nat :: Used(h', g', e) <==> Used(h, g, e);
  }

  // ----- when is a page empty ----------------------------------------------------------------------

  ghost function Elements(l: seq<nat>): set<nat> { set x | x in l }

  lemma {:induction false} DistinctCard(l: seq<nat>)
    requires Distinct(l)
    ensures |Elements(l)| == |l|
    decreases |l|
  {
    if l != [] {
      var t, x := l[..|l| - 1], l[|l| - 1];
      DistinctCard(t);
      assert l == t + [x] && x !in t;
      assert Elements(l) == Elements(t) + {x};
    }
  }

  lemma Pigeonhole(small: seq<nat>, large: seq<nat>)
    requires Distinct(small) && Distinct(large) && forall x | x in small :: x in large
    ensures |small| <= |large|
    ensures |small| == |large| ==> forall x | x in large :: x in small
  {
    DistinctCard(small);
    DistinctCard(large);
    var a, b := Elements(small), Elements(large);
    assert a <= b && b == a + (b - a);
    if |small| == |large| {
      assert |b - a| == 0;
      forall x | x in large ensures x in small { assert x in b && x !in b - a; }
    }
  }

  /** No object of page p is held. */
  ghost predicate Unheld(h: Heap, g: Lists, p: nat) {
    forall x: nat | x / PAGE == p :: !Live(h, g, x)
  }

  /** refcnt is 0 exactly when no object of the page is live. */
  lemma EmptyPage(h: Heap, g: Lists, d: nat)
    requires Core(h, g) && Used(h, g, d)
    ensures h.desc[d].refcnt == 0 <==> Unheld(h, g, h.desc[d].page)
  {
    assert Bucket(h, g, d);
    var p, size := h.desc[d].page, h.desc[d].size;
    var all := SlotsFrom(p * PAGE, size, PAGE / size);
    forall i, j | 0 <= i < j < |all| ensures all[i] != all[j] { SlotsRise(p * PAGE, size, PAGE / size, i, j); }
    forall x | x in g.objs[d] ensures x in all { SlotListed(p, size, x); }
    forall i | 0 <= i < |all| ensures IsSlot(p, size, all[i]) { SlotsAre(p, size, i); }
    Pigeonhole(g.objs[d], all);
    if h.desc[d].refcnt == 0 {
      forall x: nat | x / PAGE == p ensures !Live(h, g, x) {
        if IsSlot(p, size, x) { SlotListed(p, size, x); }
      }
    } else if Unheld(h, g, p) {
      forall x | x in all ensures x in g.objs[d] { assert IsSlot(p, size, x) && !Live(h, g, x); }
      Pigeonhole(all, g.objs[d]);
      assert false;
    }
  }

  // ----- free_s: giving an empty page back -----------------------------------------------------------

  function DropHeap(h: Heap, b: nat, prev: nat, d: nat): Heap
    requires b < |h.chain| && d < |h.desc| && prev < |h.desc|
  {
    var k := if prev != 0 then h.(desc := h.desc[prev := h.desc[prev].(next := h.desc[d].next)]) else h.(chain := h.chain[b := h.desc[d].next]);
    k.(desc := k.desc[d := k.desc[d].(next := h.freeDesc)], freeDesc := d)
  }

  ghost function DropLists(g: Lists, b: nat, i: nat, p: nat): Lists
    requires b < |g.chains| && i < |g.chains[b]| && g.chains[b][i] < |g.place| == |g.objs|
  {
    var d := g.chains[b][i];
    Lists(g.chains[b := RemoveAt(g.chains[b], i)], [d] + g.spare, g.objs[d := []], g.place[d := SPARE], g.owner - {p})
  }

  lemma {:induction false} DescListWithout(s: seq<Desc>, t: seq<Desc>, head: nat, l: seq<nat>, i: nat)
    requires DescList(s, head, l) && Distinct(l) && i < |l| && |t| == |s|
    requires forall j | 0 <= j < |l| && j != i && j != i - 1 :: l[j] < |s| ==> t[l[j]].next == s[l[j]].next
    requires i > 0 ==> l[i - 1] < |s| && l[i] < |s| && t[l[i - 1]].next == s[l[i]].next
    ensures l[0] < |s| && DescList(t, if i == 0 then s[l[0]].next else head, RemoveAt(l, i))
    decreases i
  {
    if i == 0 {
      forall j | 0 <= j < |l[1..]| ensures l[1..][j] < |s| ==> t[l[1..][j]].next == s[l[1..][j]].next { assert l[1..][j] == l[j + 1]; }
      DescListFrame(s, t, s[head].next, l[1..]);
      assert RemoveAt(l, 0) == l[1..];
    } else {
      var m := l[1..];
      forall j | 0 <= j < |m| && j != i - 1 && j != i - 2 ensures m[j] < |s| ==> t[m[j]].next == s[m[j]].next { assert m[j] == l[j + 1]; }
      DescListWithout(s, t, s[head].next, m, i - 1);
      assert RemoveAt(l, i)[1..] == RemoveAt(m, i - 1);
      assert RemoveAt(l, i)[0] == l[0];
    }
  }

  lemma RemoveAtDistinct(l: seq<nat>, i: nat)
    requires Distinct(l) && i < |l|
    ensures Distinct(RemoveAt(l, i)) && forall x :: x in RemoveAt(l, i) <==> x in l && x != l[i]
  {
    var r := RemoveAt(l, i);
    forall a, b | 0 <= a < b < |r| ensures r[a] != r[b] {
      assert r[a] == l[if a < i then a else a + 1] && r[b] == l[if b < i then b else b + 1];
    }
    forall x | x in l && x != l[i] ensures x in r {
      var k :| 0 <= k < |l| && l[k] == x;
      assert r[if k < i then k else k - 1] == x;
    }
    forall k | 0 <= k < |r| ensures r[k] in l && r[k] != l[i] {
      assert r[k] == l[if k < i then k else k + 1];
    }
  }

  /** The chains after the descriptor i of chain b is taken out. */
  lemma DropChain(h: Heap, g: Lists, b: nat, i: nat, p: nat, c: nat)
    requires Partition(h, g) && b < BUCKETS && i < |g.chains[b]| && c < BUCKETS && 0 < g.chains[b][i] < |h.desc|
    requires i > 0 ==> g.chains[b][i - 1] < |h.desc|
    ensures var d := g.chains[b][i]; var prev := if i == 0 then 0 else g.chains[b][i - 1];
      var h', g' := DropHeap(h, b, prev, d), DropLists(g, b, i, p);
      DescList(h'.desc, h'.chain[c], g'.chains[c]) && Distinct(g'.chains[c])
  {
    var l := g.chains[b];
    var d, prev := l[i], if i == 0 then 0 else l[i - 1];
    var h', g' := DropHeap(h, b, prev, d), DropLists(g, b, i, p);
    assert d in l && (i > 0 ==> prev in l);
    if i > 0 { DescListIn(h.desc, h.chain[b], l, i - 1); }
    if c == b {
      RemoveAtDistinct(l, i);
      assert i > 0 ==> prev != d;
      hide Partition, RemoveAt;
      DescListWithout(h.desc, h'.desc, h.chain[b], l, i);
    } else {
      assert g.place[d] == b && d !in g.chains[c];
      assert i > 0 ==> 0 < prev && g.place[prev] == b && prev !in g.chains[c];
      hide Partition, RemoveAt;
      DescListFrame(h.desc, h'.desc, h.chain[c], g.chains[c]);
    }
  }

  /** The spare descriptors, with one more in front. */
  lemma DropSpare(h: Heap, g: Lists, b: nat, i: nat, p: nat)
    requires Partition(h, g) && b < BUCKETS && i < |g.chains[b]| && 0 < g.chains[b][i] < |h.desc|
    requires i > 0 ==> 0 < g.chains[b][i - 1] < |h.desc|
    ensures var d := g.chains[b][i]; var prev := if i == 0 then 0 else g.chains[b][i - 1];
      var h', g' := DropHeap(h, b, prev, d), DropLists(g, b, i, p);
      d !in g.spare && DescList(h'.desc, h'.freeDesc, g'.spare) && Distinct(g'.spare)
  {
    var l := g.chains[b];
    var d, prev := l[i], if i == 0 then 0 else l[i - 1];
    assert d in l && (i > 0 ==> prev in l);
    assert d !in g.spare && (i > 0 ==> prev !in g.spare);
    var h', g' := DropHeap(h, b, prev, d), DropLists(g, b, i, p);
    hide Partition, RemoveAt;
    DescListFrame(h.desc, h'.desc, h.freeDesc, g.spare);
    assert g'.spare[1..] == g.spare;
  }

  lemma DropPartition(h: Heap, g: Lists, b: nat, i: nat, p: nat)
    requires Partition(h, g) && b < BUCKETS && i < |g.chains[b]|
    ensures var d := g.chains[b][i]; var prev := if i == 0 then 0 else g.chains[b][i - 1];
      0 < d < |h.desc| && prev < |h.desc| && g.place[d] == b && Partition(DropHeap(h, b, prev, d), DropLists(g, b, i, p))
  {
    var l := g.chains[b];
    var d := l[i];
    DescListIn(h.desc, h.chain[b], l, i);
    if i > 0 { DescListIn(h.desc, h.chain[b], l, i - 1); }
    var prev := if i == 0 then 0 else l[i - 1];
    var h', g' := DropHeap(h, b, prev, d), DropLists(g, b, i, p);
    RemoveAtDistinct(l, i);
    assert d in l;
    DropSpare(h, g, b, i, p);
    hide DescList, Distinct, RemoveAt;
    forall c | 0 <= c < BUCKETS ensures DescList(h'.desc, h'.chain[c], g'.chains[c]) && Distinct(g'.chains[c]) { DropChain(h, g, b, i, p, c); }
    forall e, c | 0 <= c < BUCKETS && 0 < e < |h.desc| ensures e in g'.chains[c] <==> g'.place[e] == c {
      assert e in g.chains[c] <==> g.place[e] == c;
    }
  }

  lemma DropBuckets(h: Heap, g: Lists, h': Heap, g': Lists, d: nat)
    requires Core(h, g) && Used(h, g, d) && BusyBut(h, g, d) && |h'.desc| == |h.desc| && h'.mem == h.mem && Partition(h', g')
    requires g'.place == g.place[d := SPARE] && g'.objs == g.objs[d := []] && g'.owner == g.owner - {h.desc[d].page}
    requires forall e | 0 <= e < |h.desc| && e != d :: h'.desc[e] == h.desc[e].(next := h'.desc[e].next)
    ensures Inv(h', g') && h.desc[d].page in g.owner
  {
    assert Bucket(h, g, d);
    assert forall e: nat :: Used(h', g', e) <==> Used(h, g, e) && e != d;
    forall e: nat | Used(h', g', e) ensures Bucket(h', g', e) { assert Bucket(h, g, e); }
    forall e: nat | Used(h', g', e) ensures h'.desc[e].refcnt > 0 { assert Used(h, g, e); }
    forall q | q in g'.owner ensures Used(h', g', g'.owner[q]) && h'.desc[g'.owner[q]].page == q {
      assert Used(h, g, g.owner[q]);
    }
  }

  lemma DropLive(h: Heap, g: Lists, h': Heap, g': Lists, d: nat)
    requires Core(h, g) && Used(h, g, d) && h.desc[d].refcnt == 0 && Core(h', g') && |h'.desc| == |h.desc|
    requires g'.place == g.place[d := SPARE] && g'.objs == g.objs[d := []] && g'.owner == g.owner - {h.desc[d].page}
    requires forall e | 0 <= e < |h.desc| && e != d :: h'.desc[e] == h.desc[e].(next := h'.desc[e].next)
    ensures LiveSame(h, g, h', g')
  {
    EmptyPage(h, g, d);
    assert Bucket(h, g, d);
    forall x: nat ensures Live(h', g', x) <==> Live(h, g, x) {
      if x / PAGE in g'.owner { assert g.owner[x / PAGE] != d; }
    }
  }

  /** A bucket without live objects leaves its chain; no object changes hands. */
  lemma DropStep(h: Heap, g: Lists, b: nat, i: nat)
    requires Core(h, g) && b < BUCKETS && i < |g.chains[b]| && BusyBut(h, g, g.chains[b][i])
    requires g.chains[b][i] < |h.desc| && h.desc[g.chains[b][i]].refcnt == 0
    ensures var d := g.chains[b][i]; var prev := if i == 0 then 0 else g.chains[b][i - 1];
      0 < d < |h.desc| && prev < |h.desc| &&
      var h' := DropHeap(h, b, prev, d); var g' := DropLists(g, b, i, h.desc[d].page);
      Inv(h', g') && LiveSame(h, g, h', g') && h.desc[d].page in g.owner
  {
    var d := g.chains[b][i];
    DropPartition(h, g, b, i, h.desc[d].page);
    hide DescList, Bucket;
    var prev := if i == 0 then 0 else g.chains[b][i - 1];
    DropBuckets(h, g, DropHeap(h, b, prev, d), DropLists(g, b, i, h.desc[d].page), d);
    DropLive(h, g, DropHeap(h, b, prev, d), DropLists(g, b, i, h.desc[d].page), d);
  }

  // ----- init_bucket_desc ----------------------------------------------------------------------------

  /** A page of descriptors, each linked to the next and the last to the spare list. */
  function Added(n: nat, k: nat, last: nat): (s: seq<Desc>)
    ensures |s| == k
    decreases k
  {
    if k == 0 then [] else [Desc(0, if k == 1 then last else n + 1, 0, 0, 0)] + Added(n + 1, k - 1, last)
  }

  function Numbers(n: nat, k: nat): (s: seq<nat>)
    ensures |s| == k && forall i | 0 <= i < k :: s[i] == n + i
    decreases k
  {
    if k == 0 then [] else [n] + Numbers(n + 1, k - 1)
  }

  lemma {:induction false} AddedLists(s: seq<Desc>, k: nat, last: nat, spare: seq<nat>, t: seq<Desc>)
    requires DescList(t, last, spare) && |s| > 0 && t == s + Added(|s|, k, last) && k > 0
    ensures DescList(t, |s|, Numbers(|s|, k) + spare)
    decreases k
  {
    var l := Numbers(|s|, k) + spare;
    if k == 1 {
      assert l[1..] == spare;
    } else {
      var s1 := s + [Desc(0, |s| + 1, 0, 0, 0)];
      assert t == s1 + Added(|s| + 1, k - 1, last);
      AddedLists(s1, k - 1, last, spare, t);
      assert l[1..] == Numbers(|s| + 1, k - 1) + spare;
    }
  }

  function InitHeap(h: Heap, k: nat): Heap {
    h.(desc := h.desc + Added(|h.desc|, k, h.freeDesc), freeDesc := |h.desc|)
  }

  ghost function InitLists(g: Lists, k: nat): Lists {
    g.(spare := Numbers(|g.place|, k) + g.spare,
       place := g.place + seq(k, _ => SPARE), objs := g.objs + seq(k, _ => []))
  }

  lemma InitSpare(g: Lists, n: nat, h: Heap, k: nat)
    requires Partition(h, g) && n == |h.desc|
    ensures Distinct(InitLists(g, k).spare) && forall d | 0 < d < n + k :: d in InitLists(g, k).spare <==> InitLists(g, k).place[d] == SPARE
  {
    forall x | x in g.spare ensures 0 < x < n { SpareIn(h, g, x); }
    var more := Numbers(n, k);
    forall d | n <= d < n + k ensures d in more { assert more[d - n] == d; }
    assert forall d | 0 < d < n :: d !in more;
    var all := more + g.spare;
    forall i, j | 0 <= i < j < |all| ensures all[i] != all[j] {
      if i < |more| <= j { assert g.spare[j - |more|] in g.spare; }
    }
  }

  lemma InitPartition(h: Heap, g: Lists, k: nat)
    requires k > 0 && Partition(h, g)
    ensures Partition(InitHeap(h, k), InitLists(g, k))
  {
    var h', g' := InitHeap(h, k), InitLists(g, k);
    forall b | 0 <= b < BUCKETS ensures DescList(h'.desc, h'.chain[b], g'.chains[b]) {
      DescListsShort(h.desc, h'.desc, h.chain[b], g.chains[b]);
    }
    DescListsShort(h.desc, h'.desc, h.freeDesc, g.spare);
    AddedLists(h.desc, k, h.freeDesc, g.spare, h'.desc);
    InitSpare(g, |h.desc|, h, k);
    hide DescList, Added, Numbers, Distinct;
    forall d, b | 0 <= b < BUCKETS && 0 < d < |h'.desc| ensures d in g'.chains[b] <==> g'.place[d] == b {
      if d in g.chains[b] { ChainIn(h, g, b, d); }
    }
  }

  lemma SpareIn(h: Heap, g: Lists, x: nat)
    requires Partition(h, g) && x in g.spare
    ensures 0 < x < |h.desc|
  {
    var i :| 0 <= i < |g.spare| && g.spare[i] == x;
    DescListIn(h.desc, h.freeDesc, g.spare, i);
  }

  lemma ChainIn(h: Heap, g: Lists, b: nat, x: nat)
    requires Partition(h, g) && b < BUCKETS && x in g.chains[b]
    ensures 0 < x < |h.desc| && Used(h, g, x)
  {
    var i :| 0 <= i < |g.chains[b]| && g.chains[b][i] == x;
    DescListIn(h.desc, h.chain[b], g.chains[b], i);
  }

  lemma InitUsed(h: Heap, g: Lists, k: nat)
    requires k > 0 && Core(h, g)
    ensures 0 < |h.desc| == |g.place| == |g.objs|
    ensures forall e: nat :: Used(InitHeap(h, k), InitLists(g, k), e) <==> Used(h, g, e)
    ensures forall e: nat | e < |h.desc| :: InitHeap(h, k).desc[e] == h.desc[e] && InitLists(g, k).objs[e] == g.objs[e]
  {
    hide Added, Numbers, DescList, Bucket;
    Counts(h, g);
  }

  lemma InitStep(h: Heap, g: Lists, k: nat)
    requires k > 0 && Inv(h, g)
    ensures Inv(InitHeap(h, k), InitLists(g, k)) && LiveSame(h, g, InitHeap(h, k), InitLists(g, k)) && InitHeap(h, k).freeDesc > 0
  {
    InitPartition(h, g, k);
    InitUsed(h, g, k);
    hide Partition, Added, Numbers;
    var h', g' := InitHeap(h, k), InitLists(g, k);
    forall e: nat | Used(h', g', e) ensures Bucket(h', g', e) { assert Bucket(h, g, e); }
  }

  lemma Counts(h: Heap, g: Lists)
    requires Core(h, g)
    ensures 0 < |h.desc| == |g.place| == |g.objs| && |h.chain| == |g.chains| == BUCKETS
  {
  }

  lemma DescListsShort(s: seq<Desc>, t: seq<Desc>, head: nat, l: seq<nat>)
    requires DescList(s, head, l) && |s| <= |t| && s == t[..|s|]
    ensures DescList(t, head, l)
  {
    forall i | 0 <= i < |l| ensures l[i] < |s| ==> t[l[i]].next == s[l[i]].next {}
    DescListFrame(s, t, head, l);
  }
}
