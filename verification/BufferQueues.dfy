// The hash chains and the free list of fs/buffer.c, linked through the buffer heads.

module BufferQueues {
  import opened NumberLists

  const NR_HASH: nat := 307
  const NULL: int := -1

  /** dev ^ block, bit by bit. */
  function Xor(a: nat, b: nat): nat
    decreases a + b
  {
    if a == 0 && b == 0 then 0 else (if a % 2 == b % 2 then 0 else 1) + 2 * Xor(a / 2, b / 2)
  }

  /** _hashfn */
  function HashFn(dev: nat, block: nat): (h: nat)
    ensures h < NR_HASH
  {
    Xor(dev, block) % NR_HASH
  }

  // ----- doubly linked lists, as values ----------------------------------------------------

  function Elem(c: seq<nat>, i: int): int { if 0 <= i < |c| then c[i] else NULL }

  /** c is linked through nx and pv from `head` on, and NULL ends it on both sides. */
  ghost predicate Chain(c: seq<nat>, nx: seq<int>, pv: seq<int>, head: int) {
    && Distinct(c) && head == Elem(c, 0)
    && (forall i | 0 <= i < |c| :: c[i] < |nx| && c[i] < |pv|)
    && (forall i {:trigger nx[c[i]]} | 0 <= i < |c| :: nx[c[i]] == Elem(c, i + 1))
    && (forall i {:trigger pv[c[i]]} | 0 <= i < |c| :: pv[c[i]] == Elem(c, i - 1))
  }

  /** `if (x) a[x] = v` */
  function SetIf(a: seq<int>, x: int, v: int): seq<int> {
    if 0 <= x < |a| then a[x := v] else a
  }

  lemma ChainRemoveNext(c: seq<nat>, nx: seq<int>, pv: seq<int>, head: int, i: nat, k: nat)
    requires Chain(c, nx, pv, head) && i < |c| && k < |c| && k != i
    ensures SetIf(nx, pv[c[i]], nx[c[i]])[c[k]] == Elem(c, if k == i - 1 then i + 1 else k + 1)
  {
    assert nx[c[i]] == Elem(c, i + 1) && pv[c[i]] == Elem(c, i - 1) && nx[c[k]] == Elem(c, k + 1);
    if i > 0 { Apart(c, k, i - 1); }
  }

  lemma ChainRemovePrev(c: seq<nat>, nx: seq<int>, pv: seq<int>, head: int, i: nat, k: nat)
    requires Chain(c, nx, pv, head) && i < |c| && k < |c| && k != i
    ensures SetIf(pv, nx[c[i]], pv[c[i]])[c[k]] == Elem(c, if k == i + 1 then i - 1 else k - 1)
  {
    assert nx[c[i]] == Elem(c, i + 1) && pv[c[i]] == Elem(c, i - 1) && pv[c[k]] == Elem(c, k - 1);
    if i + 1 < |c| { Apart(c, k, i + 1); }
  }

  lemma ChainRemoveAt(c: seq<nat>, nx: seq<int>, pv: seq<int>, head: int, i: nat, j: nat)
    requires Chain(c, nx, pv, head) && i < |c| && j < |c| - 1
    ensures var b := c[i]; var r := RemoveAt(c, i);
      SetIf(nx, pv[b], nx[b])[r[j]] == Elem(r, j + 1) && SetIf(pv, nx[b], pv[b])[r[j]] == Elem(r, j - 1)
  {
    var k := if j < i then j else j + 1;
    ChainRemoveNext(c, nx, pv, head, i, k);
    ChainRemovePrev(c, nx, pv, head, i, k);
  }

  lemma ChainRemoveHead(c: seq<nat>, nx: seq<int>, pv: seq<int>, head: int, i: nat)
    requires Chain(c, nx, pv, head) && i < |c|
    ensures (if head == c[i] then nx[c[i]] else head) == Elem(RemoveAt(c, i), 0)
  {
    Apart(c, 0, i);
    assert nx[c[i]] == Elem(c, i + 1);
  }

  lemma ChainRemove(c: seq<nat>, nx: seq<int>, pv: seq<int>, head: int, i: nat)
    requires Chain(c, nx, pv, head) && i < |c|
    ensures var b := c[i];
      Chain(RemoveAt(c, i), SetIf(nx, pv[b], nx[b]), SetIf(pv, nx[b], pv[b]), if head == b then nx[b] else head)
  {
    var b := c[i];
    ChainRemoveHead(c, nx, pv, head, i);
    RemoveDistinct(c, i);
    var nx', pv' := SetIf(nx, pv[b], nx[b]), SetIf(pv, nx[b], pv[b]);
    ChainRemoveLinks(c, nx, pv, head, i);
    hide SetIf, Elem, Distinct, RemoveAt;
  }

  lemma ChainRemoveLinks(c: seq<nat>, nx: seq<int>, pv: seq<int>, head: int, i: nat)
    requires Chain(c, nx, pv, head) && i < |c|
    ensures var b := c[i]; var r, nx', pv' := RemoveAt(c, i), SetIf(nx, pv[b], nx[b]), SetIf(pv, nx[b], pv[b]);
      (forall j | 0 <= j < |r| :: r[j] < |nx'| && r[j] < |pv'|) &&
      (forall j {:trigger nx'[r[j]]} | 0 <= j < |r| :: nx'[r[j]] == Elem(r, j + 1)) &&
      (forall j {:trigger pv'[r[j]]} | 0 <= j < |r| :: pv'[r[j]] == Elem(r, j - 1))
  {
    var b := c[i];
    var r, nx', pv' := RemoveAt(c, i), SetIf(nx, pv[b], nx[b]), SetIf(pv, nx[b], pv[b]);
    assert forall j | 0 <= j < |r| :: r[j] < |nx'| && r[j] < |pv'|;
    hide SetIf, Elem, Distinct, RemoveAt;
    forall j {:trigger nx'[r[j]]} | 0 <= j < |r| ensures nx'[r[j]] == Elem(r, j + 1) { ChainRemoveAt(c, nx, pv, head, i, j); }
    forall j {:trigger pv'[r[j]]} | 0 <= j < |r| ensures pv'[r[j]] == Elem(r, j - 1) { ChainRemoveAt(c, nx, pv, head, i, j); }
  }

  lemma ChainPush(c: seq<nat>, nx: seq<int>, pv: seq<int>, head: int, b: nat)
    requires Chain(c, nx, pv, head) && b < |nx| && |nx| == |pv| && b !in c
    ensures Chain([b] + c, nx[b := head], SetIf(pv[b := NULL], head, b), b)
  {
    var r := [b] + c;
    forall i | 0 <= i < |c| ensures c[i] != b { assert c[i] in c; }
    forall j | 0 < j < |r| ensures r[j] == c[j - 1] {}
    forall j | 0 <= j < |r| ensures nx[b := head][r[j]] == Elem(r, j + 1) {
      if j > 0 { assert nx[c[j - 1]] == Elem(c, j); }
    }
    forall j | 0 <= j < |r| ensures SetIf(pv[b := NULL], head, b)[r[j]] == Elem(r, j - 1) {
      if j > 1 { assert c[0] != c[j - 1] && pv[c[j - 1]] == Elem(c, j - 2); }
    }
  }

  /** Links of other buffers do not matter. */
  lemma ChainFrame(c: seq<nat>, nx: seq<int>, pv: seq<int>, nx': seq<int>, pv': seq<int>, head: int)
    requires Chain(c, nx, pv, head) && |nx'| == |nx| && |pv'| == |pv|
    requires forall x | x in c && x < |nx| :: nx'[x] == nx[x]
    requires forall x | x in c && x < |pv| :: pv'[x] == pv[x]
    ensures Chain(c, nx', pv', head)
  {
    forall i | 0 <= i < |c| ensures nx'[c[i]] == Elem(c, i + 1) && pv'[c[i]] == Elem(c, i - 1) {
      assert c[i] in c;
    }
  }

  /** r is linked into a ring, in both directions, from `head` on. */
  ghost predicate Ring(r: seq<nat>, nx: seq<int>, pv: seq<int>, head: int) {
    && r != [] && Distinct(r) && head == r[0]
    && (forall i | 0 <= i < |r| :: r[i] < |nx| && r[i] < |pv|)
    && (forall i {:trigger nx[r[i]]} | 0 <= i < |r| :: nx[r[i]] == r[Succ(i, |r|)])
    && (forall i {:trigger pv[r[i]]} | 0 <= i < |r| :: pv[r[i]] == r[Pred(i, |r|)])
  }

  function Succ(i: nat, n: nat): (j: nat)
    requires i < n
    ensures j < n
  {
    if i + 1 < n then i + 1 else 0
  }

  function Pred(i: nat, n: nat): (j: nat)
    requires i < n
    ensures j < n
  {
    if i == 0 then n - 1 else i - 1
  }

  lemma RingRemoveNext(r: seq<nat>, nx: seq<int>, pv: seq<int>, head: int, i: nat, k: nat)
    requires Ring(r, nx, pv, head) && i < |r| && k < |r| && k != i
    ensures SetIf(nx, pv[r[i]], nx[r[i]])[r[k]] == r[if k == Pred(i, |r|) then Succ(i, |r|) else Succ(k, |r|)]
  {
    var n := |r|;
    assert nx[r[i]] == r[Succ(i, n)] && pv[r[i]] == r[Pred(i, n)] && nx[r[k]] == r[Succ(k, n)];
    Apart(r, k, Pred(i, n));
  }

  lemma RingRemovePrev(r: seq<nat>, nx: seq<int>, pv: seq<int>, head: int, i: nat, k: nat)
    requires Ring(r, nx, pv, head) && i < |r| && k < |r| && k != i
    ensures SetIf(pv, nx[r[i]], pv[r[i]])[r[k]] == r[if k == Succ(i, |r|) then Pred(i, |r|) else Pred(k, |r|)]
  {
    var n := |r|;
    assert nx[r[i]] == r[Succ(i, n)] && pv[r[i]] == r[Pred(i, n)] && pv[r[k]] == r[Pred(k, n)];
    Apart(r, k, Succ(i, n));
  }

  lemma RemoveNeighbours(r: seq<nat>, i: nat, j: nat)
    requires i < |r| && j < |r| - 1
    ensures var q := RemoveAt(r, i); var n := |r|; var k := if j < i then j else j + 1;
      q[j] == r[k] &&
      q[Succ(j, n - 1)] == r[if k == Pred(i, n) then Succ(i, n) else Succ(k, n)] &&
      q[Pred(j, n - 1)] == r[if k == Succ(i, n) then Pred(i, n) else Pred(k, n)]
  {
  }

  lemma RingRemoveAt(r: seq<nat>, nx: seq<int>, pv: seq<int>, head: int, i: nat, j: nat)
    requires Ring(r, nx, pv, head) && i < |r| && j < |r| - 1
    ensures var b := r[i]; var q := RemoveAt(r, i);
      SetIf(nx, pv[b], nx[b])[q[j]] == q[Succ(j, |q|)] && SetIf(pv, nx[b], pv[b])[q[j]] == q[Pred(j, |q|)]
  {
    var k := if j < i then j else j + 1;
    RingRemoveNext(r, nx, pv, head, i, k);
    RingRemovePrev(r, nx, pv, head, i, k);
    RemoveNeighbours(r, i, j);
  }

  lemma RingRemove(r: seq<nat>, nx: seq<int>, pv: seq<int>, head: int, i: nat)
    requires Ring(r, nx, pv, head) && i < |r| && |r| > 1
    ensures var b := r[i];
      Ring(RemoveAt(r, i), SetIf(nx, pv[b], nx[b]), SetIf(pv, nx[b], pv[b]), if head == b then nx[b] else head)
  {
    var q := RemoveAt(r, i);
    Apart(r, 0, i);
    assert nx[r[i]] == r[Succ(i, |r|)];
    RemoveDistinct(r, i);
    hide Distinct;
    forall j | 0 <= j < |q|
      ensures SetIf(nx, pv[r[i]], nx[r[i]])[q[j]] == q[Succ(j, |q|)] && SetIf(pv, nx[r[i]], pv[r[i]])[q[j]] == q[Pred(j, |q|)]
    {
      RingRemoveAt(r, nx, pv, head, i, j);
    }
  }

  lemma RingAppend(r: seq<nat>, nx: seq<int>, pv: seq<int>, head: int, b: nat)
    requires Ring(r, nx, pv, head) && b < |nx| && |nx| == |pv| && b !in r
    ensures var last := pv[head];
      Ring(r + [b], SetIf(nx[b := head], last, b), SetIf(pv[b := last], head, b), head)
  {
    var n := |r|;
    var q := r + [b];
    var last := pv[head];
    assert last == r[n - 1];
    forall i | 0 <= i < n ensures r[i] != b { assert r[i] in r; }
    forall j | 0 <= j < |q|
      ensures SetIf(nx[b := head], last, b)[q[j]] == q[Succ(j, |q|)]
      ensures SetIf(pv[b := last], head, b)[q[j]] == q[Pred(j, |q|)]
    {
      if j < n {
        assert nx[r[j]] == r[Succ(j, n)] && pv[r[j]] == r[Pred(j, n)];
        Apart(r, j, n - 1);
        Apart(r, j, 0);
      }
    }
  }

  // ----- all chains together ---------------------------------------------------------------

  /** Every chain is a list from its head, and no buffer is on two. */
  ghost predicate Chains(chain: seq<seq<nat>>, nx: seq<int>, pv: seq<int>, heads: seq<int>) {
    && |chain| == |heads| && |nx| == |pv|
    && (forall h | 0 <= h < |chain| :: Chain(chain[h], nx, pv, heads[h]))
    && (forall g, h, b | 0 <= g < |chain| && 0 <= h < |chain| && b in chain[g] && b in chain[h] :: g == h)
  }

  lemma ChainsRemove(chain: seq<seq<nat>>, nx: seq<int>, pv: seq<int>, heads: seq<int>, h: nat, b: nat)
    requires Chains(chain, nx, pv, heads) && h < |chain| && b in chain[h]
    ensures b < |nx| && Chains(chain[h := Without(chain[h], b)], SetIf(nx, pv[b], nx[b]), SetIf(pv, nx[b], pv[b]),
              heads[h := if heads[h] == b then nx[b] else heads[h]])
  {
    var c := chain[h];
    assert Chain(c, nx, pv, heads[h]);
    var i :| 0 <= i < |c| && c[i] == b;
    WithoutAt(c, i);
    ChainRemove(c, nx, pv, heads[h], i);
    assert nx[b] == Elem(c, i + 1) && pv[b] == Elem(c, i - 1);
    var chain' := chain[h := Without(c, b)];
    var nx', pv' := SetIf(nx, pv[b], nx[b]), SetIf(pv, nx[b], pv[b]);
    assert forall x | 0 <= x < |nx| && x !in c :: nx'[x] == nx[x] && pv'[x] == pv[x];
    hide Without, SetIf, Elem;
    forall g | 0 <= g < |chain| && g != h ensures Chain(chain'[g], nx', pv', heads[g]) {
      forall x | x in chain[g] ensures x !in c {}
      ChainFrame(chain[g], nx, pv, nx', pv', heads[g]);
    }
    hide Chain;
  }

  lemma ChainsPush(chain: seq<seq<nat>>, nx: seq<int>, pv: seq<int>, heads: seq<int>, h: nat, b: nat)
    requires Chains(chain, nx, pv, heads) && h < |chain| && b < |nx| && forall g | 0 <= g < |chain| :: b !in chain[g]
    ensures Chains(chain[h := [b] + chain[h]], nx[b := heads[h]], SetIf(pv[b := NULL], heads[h], b), heads[h := b])
  {
    var c := chain[h];
    var nx', pv' := nx[b := heads[h]], SetIf(pv[b := NULL], heads[h], b);
    assert Chain(c, nx, pv, heads[h]);
    ChainPush(c, nx, pv, heads[h], b);
    if c != [] { assert c[0] in c; }
    forall g | 0 <= g < |chain| && g != h ensures Chain(chain[g], nx', pv', heads[g]) {
      forall x | x in chain[g] ensures x !in c && x != b {}
      ChainFrame(chain[g], nx, pv, nx', pv', heads[g]);
    }
  }

  lemma ChainsReset(chain: seq<seq<nat>>, nx: seq<int>, pv: seq<int>, heads: seq<int>, b: nat)
    requires Chains(chain, nx, pv, heads) && b < |nx| && forall g | 0 <= g < |chain| :: b !in chain[g]
    ensures Chains(chain, nx[b := NULL], pv[b := NULL], heads)
  {
    forall g | 0 <= g < |chain| ensures Chain(chain[g], nx[b := NULL], pv[b := NULL], heads[g]) {
      ChainFrame(chain[g], nx, pv, nx[b := NULL], pv[b := NULL], heads[g]);
    }
  }

  /** Buffer b is on the chain of its block if it has a device, and on no other. */
  ghost predicate OnOwnChain(chain: seq<seq<nat>>, b: nat, d: nat, k: nat) {
    |chain| == NR_HASH && forall h | 0 <= h < NR_HASH :: b in chain[h] <==> d != 0 && h == HashFn(d, k)
  }

  lemma OffChain(was: seq<seq<nat>>, mid: seq<seq<nat>>, b: nat, d0: nat, k0: nat)
    requires OnOwnChain(was, b, d0, k0)
    requires var h := HashFn(d0, k0); mid == was[h := Without(was[h], b)]
    ensures |mid| == NR_HASH && forall g | 0 <= g < NR_HASH :: b !in mid[g]
  {
    forall g | 0 <= g < NR_HASH ensures b !in mid[g] { assert b in was[g] ==> g == HashFn(d0, k0); }
  }

  lemma OntoChain(mid: seq<seq<nat>>, fin: seq<seq<nat>>, b: nat, d: nat, k: nat)
    requires |mid| == NR_HASH && forall g | 0 <= g < NR_HASH :: b !in mid[g]
    requires var h := HashFn(d, k); fin == if d == 0 then mid else mid[h := [b] + mid[h]]
    ensures OnOwnChain(fin, b, d, k)
  {
  }

  lemma OtherChain(was: seq<seq<nat>>, fin: seq<seq<nat>>, b: nat, h0: nat, h: nat, put: bool, x: nat, d: nat, k: nat)
    requires OnOwnChain(was, x, d, k) && x != b && h0 < NR_HASH && h < NR_HASH
    requires var mid := was[h0 := Without(was[h0], b)]; fin == if put then mid[h := [b] + mid[h]] else mid
    ensures OnOwnChain(fin, x, d, k)
  {
    forall g | 0 <= g < NR_HASH ensures x in fin[g] <==> x in was[g] {}
  }

  // ----- the buffer heads ------------------------------------------------------------------

  class Queues {
    const dev: array<nat>
    const block: array<nat>
    const next: array<int>
    const prev: array<int>
    const next_free: array<int>
    const prev_free: array<int>
    const hash_table: array<int>
    var free_list: int
    ghost var ring: seq<nat>
    ghost var chain: seq<seq<nat>>

    ghost predicate Shape()
      reads this
    {
      && dev.Length == block.Length == next.Length == prev.Length == next_free.Length == prev_free.Length
      && hash_table.Length == NR_HASH == |chain|
      && dev != block && next != prev && next != next_free && next != prev_free && prev != next_free && prev != prev_free
      && next_free != prev_free && hash_table != next && hash_table != prev && hash_table != next_free && hash_table != prev_free
      && NotAmong(dev, {next, prev, next_free, prev_free, hash_table}) && NotAmong(block, {next, prev, next_free, prev_free, hash_table})
    }

    /** The keys and the links are different arrays. */
    ghost predicate NotAmong(key: array<nat>, links: set<array<int>>) {
      forall a | a in links :: a as object != key
    }

    /** Every chain is a list from its hash-table entry, and no buffer is on two. */
    ghost predicate ChainsOk()
      requires Shape()
      reads this, next, prev, hash_table
    {
      Chains(chain, next[..], prev[..], hash_table[..])
    }

    /** Buffer b is on the chain of its block if it has a device, and on no other. */
    ghost predicate Placed(b: nat)
      requires Shape() && b < dev.Length
      reads this, dev, block, next, prev
    {
      && OnOwnChain(chain, b, dev[b], block[b])
      && (dev[b] == 0 ==> next[b] == NULL && prev[b] == NULL)
    }

    /** The whole state of the links: one ring through all buffers, and each buffer with a device
        on exactly its own chain. */
    ghost predicate Valid()
      reads this, dev, block, next, prev, next_free, prev_free, hash_table
    {
      && Shape() && ChainsOk() && Ring(ring, next_free[..], prev_free[..], free_list)
      && |ring| == dev.Length > 1 && (forall b | 0 <= b < dev.Length :: b in ring && Placed(b))
    }

    /** The neighbours on a ring of the numbers below n. */
    static lemma CountRing(n: nat, nx: seq<int>, pv: seq<int>)
      requires n > 1 && |nx| == |pv| == n && forall i | 0 <= i < n :: nx[i] == Succ(i, n) && pv[i] == Pred(i, n)
      ensures Ring(seq(n, i => i), nx, pv, 0)
    {
      var r: seq<nat> := seq(n, i => i);
      forall i {:trigger nx[r[i]]} | 0 <= i < n ensures nx[r[i]] == r[Succ(i, n)] {}
      forall i {:trigger pv[r[i]]} | 0 <= i < n ensures pv[r[i]] == r[Pred(i, n)] {}
    }

    static lemma NoChains(n: nat, nx: seq<int>, pv: seq<int>, heads: seq<int>)
      requires |nx| == |pv| == n && |heads| == NR_HASH && forall h | 0 <= h < NR_HASH :: heads[h] == NULL
      ensures Chains(seq(NR_HASH, _ => []), nx, pv, heads)
    {
    }

    /** buffer_init for n buffers: no keys, one ring in memory order, empty chains. */
    constructor (n: nat)
      requires n > 1
      ensures Valid() && dev.Length == n && ring == seq(n, i => i)
      ensures forall b | 0 <= b < n :: dev[b] == 0 && block[b] == 0
    {
      dev := new nat[n](_ => 0);
      block := new nat[n](_ => 0);
      next := new int[n](_ => NULL);
      prev := new int[n](_ => NULL);
      next_free := new int[n](i requires 0 <= i < n => Succ(i, n));
      prev_free := new int[n](i requires 0 <= i < n => Pred(i, n));
      hash_table := new int[NR_HASH](_ => NULL);
      free_list := 0;
      ring := seq(n, i => i);
      chain := seq(NR_HASH, _ => []);
      new;
      CountRing(n, next_free[..], prev_free[..]);
      NoChains(n, next[..], prev[..], hash_table[..]);
      hide Ring, Chains, HashFn;
      forall b | 0 <= b < n ensures b in ring { assert ring[b] == b; }
      forall b | 0 <= b < n ensures Placed(b) { assert forall h | 0 <= h < NR_HASH :: b !in chain[h]; }
    }

    /** find_buffer: the walk along one chain finds the buffer for the block, if there is any. */
    method FindBuffer(d: nat, k: nat) returns (b: int)
      requires Valid() && d != 0
      ensures b != NULL ==> 0 <= b < dev.Length && dev[b] == d && block[b] == k
      ensures b == NULL ==> forall c | 0 <= c < dev.Length :: dev[c] != d || block[c] != k
    {
      var h := HashFn(d, k);
      ghost var c := chain[h];
      ghost var i := 0;
      assert Chain(c, next[..], prev[..], hash_table[h]);
      b := hash_table[h];
      while b != NULL
        invariant 0 <= i <= |c| && b == Elem(c, i)
        invariant forall j | 0 <= j < i :: dev[c[j]] != d || block[c[j]] != k
        decreases |c| - i
      {
        if dev[b] == d && block[b] == k {
          return;
        }
        assert next[..][c[i]] == Elem(c, i + 1);
        b := next[b];
        i := i + 1;
      }
      forall x | 0 <= x < dev.Length ensures dev[x] != d || block[x] != k {
        assert Placed(x);
        assert dev[x] == d && block[x] == k ==> x in c;
      }
    }

    /** The hash half of remove_from_queues. */
    method Unhash(bh: nat)
      requires Shape() && ChainsOk() && bh < dev.Length && Placed(bh)
      modifies this`chain, next, prev, hash_table
      ensures Shape() && ChainsOk()
      ensures var h := HashFn(dev[bh], block[bh]); chain == old(chain)[h := Without(old(chain)[h], bh)]
      ensures forall x | 0 <= x < dev.Length && (forall g | 0 <= g < NR_HASH :: x !in old(chain)[g]) :: next[x] == old(next[x]) && prev[x] == old(prev[x])
    {
      var h := HashFn(dev[bh], block[bh]);
      ghost var nx, pv, heads := next[..], prev[..], hash_table[..];
      assert Chain(chain[h], nx, pv, heads[h]);
      if bh in chain[h] {
        ChainsRemove(chain, nx, pv, heads, h, bh);
      } else {
        WithoutAbsent(chain[h], bh);
      }
      NeighboursInChain(bh, h);
      var b_next, b_prev := next[bh], prev[bh];
      if b_next != NULL {
        prev[b_next] := b_prev;
      }
      if b_prev != NULL {
        next[b_prev] := b_next;
      }
      if hash_table[h] == bh {
        hash_table[h] := b_next;
      }
      assert next[..] == SetIf(nx, b_prev, b_next) && prev[..] == SetIf(pv, b_next, b_prev);
      assert hash_table[..] == heads[h := if heads[h] == bh then b_next else heads[h]];
      chain := chain[h := Without(chain[h], bh)];
    }

    /** The neighbours of a buffer are on its chain; one without a device has none, and heads none. */
    lemma NeighboursInChain(bh: nat, h: nat)
      requires Shape() && ChainsOk() && bh < dev.Length && Placed(bh) && h == HashFn(dev[bh], block[bh])
      ensures next[bh] == NULL || (0 <= next[bh] < next.Length && next[bh] in chain[h])
      ensures prev[bh] == NULL || (0 <= prev[bh] < next.Length && prev[bh] in chain[h])
      ensures bh !in chain[h] ==> next[bh] == NULL && prev[bh] == NULL && hash_table[h] != bh
    {
      var c := chain[h];
      assert Chain(c, next[..], prev[..], hash_table[..][h]);
      if bh in c {
        var i :| 0 <= i < |c| && c[i] == bh;
        assert next[..][c[i]] == Elem(c, i + 1) && prev[..][c[i]] == Elem(c, i - 1);
        if i + 1 < |c| { assert next[..][c[i + 1]] == Elem(c, i + 2) && c[i + 1] in c; }
        if i > 0 { assert next[..][c[i - 1]] == Elem(c, i) && c[i - 1] in c; }
      }
      if hash_table[h] == bh { assert c[0] in c; }
    }

    /** The free-list half of remove_from_queues. */
    method Unfree(bh: nat)
      requires Shape() && Ring(ring, next_free[..], prev_free[..], free_list) && |ring| > 1 && bh in ring
      modifies this`ring, this`free_list, next_free, prev_free
      ensures Ring(ring, next_free[..], prev_free[..], free_list) && ring == Without(old(ring), bh) && |ring| == |old(ring)| - 1
    {
      ghost var nx, pv := next_free[..], prev_free[..];
      RingWithout(ring, nx, pv, free_list, bh);
      hide Ring, Without;
      next_free[prev_free[bh]] := next_free[bh];
      prev_free[next_free[bh]] := prev_free[bh];
      assert next_free[..] == SetIf(nx, pv[bh], nx[bh]) && prev_free[..] == SetIf(pv, nx[bh], pv[bh]);
      if free_list == bh {
        free_list := next_free[bh];
      }
      ring := Without(ring, bh);
    }

    static lemma RingWithout(r: seq<nat>, nx: seq<int>, pv: seq<int>, head: int, b: nat)
      requires Ring(r, nx, pv, head) && |r| > 1 && b in r
      ensures b < |nx| && b < |pv| && 0 <= nx[b] < |pv| && 0 <= pv[b] < |nx| && pv[b] != b && nx[b] != b
      ensures Ring(Without(r, b), SetIf(nx, pv[b], nx[b]), SetIf(pv, nx[b], pv[b]), if head == b then nx[b] else head)
      ensures |Without(r, b)| == |r| - 1
    {
      var i :| 0 <= i < |r| && r[i] == b;
      assert nx[r[i]] == r[Succ(i, |r|)] && pv[r[i]] == r[Pred(i, |r|)];
      Apart(r, i, Pred(i, |r|));
      Apart(r, i, Succ(i, |r|));
      WithoutAt(r, i);
      hide SetIf, Without;
      RingRemove(r, nx, pv, head, i);
    }

    /** remove_from_queues */
    method RemoveFromQueues(bh: nat)
      requires Valid() && bh < dev.Length
      modifies this`ring, this`chain, this`free_list, next, prev, next_free, prev_free, hash_table
      ensures Shape() && ChainsOk() && Ring(ring, next_free[..], prev_free[..], free_list)
      ensures ring == Without(old(ring), bh) && |ring| == |old(ring)| - 1
      ensures var h := HashFn(dev[bh], block[bh]); chain == old(chain)[h := Without(old(chain)[h], bh)]
      ensures forall x | 0 <= x < dev.Length && dev[x] == 0 :: next[x] == old(next[x]) && prev[x] == old(prev[x])
    {
      assert Placed(bh);
      forall x | 0 <= x < dev.Length && dev[x] == 0 ensures forall g | 0 <= g < NR_HASH :: x !in chain[g] { assert Placed(x); }
      Unhash(bh);
      Unfree(bh);
    }

    /** insert_into_queues, with the check for the end of the chain that b_next->b_prev needs. */
    method InsertIntoQueues(bh: nat)
      requires Shape() && ChainsOk() && Ring(ring, next_free[..], prev_free[..], free_list) && bh < dev.Length
      requires bh !in ring && forall g | 0 <= g < NR_HASH :: bh !in chain[g]
      modifies this`ring, this`chain, next, prev, next_free, prev_free, hash_table
      ensures Shape() && ChainsOk() && Ring(ring, next_free[..], prev_free[..], free_list)
      ensures ring == old(ring) + [bh]
      ensures var h := HashFn(dev[bh], block[bh]); chain == if dev[bh] == 0 then old(chain) else old(chain)[h := [bh] + old(chain)[h]]
      ensures dev[bh] == 0 ==> next[bh] == NULL && prev[bh] == NULL
      ensures forall x | 0 <= x < dev.Length && x != bh && (forall g | 0 <= g < NR_HASH :: x !in old(chain)[g]) :: next[x] == old(next[x]) && prev[x] == old(prev[x])
    {
      AppendFree(bh);
      ghost var nx, pv, heads := next[..], prev[..], hash_table[..];
      prev[bh] := NULL;
      next[bh] := NULL;
      ChainsReset(chain, nx, pv, heads, bh);
      assert next[..] == nx[bh := NULL] && prev[..] == pv[bh := NULL];
      if dev[bh] == 0 {
        return;
      }
      var h := HashFn(dev[bh], block[bh]);
      assert Chain(chain[h], nx, pv, heads[h]);
      ChainsPush(chain, nx, pv, heads, h, bh);
      next[bh] := hash_table[h];
      hash_table[h] := bh;
      if next[bh] != NULL {
        assert chain[h][0] in chain[h];
        prev[next[bh]] := bh;
      }
      assert next[..] == nx[bh := heads[h]] && prev[..] == SetIf(pv[bh := NULL], heads[h], bh) && hash_table[..] == heads[h := bh];
      chain := chain[h := [bh] + chain[h]];
    }

    method AppendFree(bh: nat)
      requires Shape() && Ring(ring, next_free[..], prev_free[..], free_list) && bh < dev.Length && bh !in ring
      modifies this`ring, next_free, prev_free
      ensures Ring(ring, next_free[..], prev_free[..], free_list) && ring == old(ring) + [bh]
    {
      ghost var nx, pv := next_free[..], prev_free[..];
      RingAppend(ring, nx, pv, free_list, bh);
      assert pv[ring[0]] == ring[Pred(0, |ring|)];
      assert ring[0] in ring && ring[Pred(0, |ring|)] in ring;
      next_free[bh] := free_list;
      prev_free[bh] := prev_free[free_list];
      next_free[prev_free[free_list]] := bh;
      prev_free[free_list] := bh;
      assert next_free[..] == SetIf(nx[bh := free_list], pv[free_list], bh);
      assert prev_free[..] == SetIf(pv[bh := pv[free_list]], free_list, bh);
      ring := ring + [bh];
    }

    /** Between remove_from_queues and insert_into_queues: all is well but for buffer bh. */
    ghost predicate Detached(bh: nat)
      requires bh < dev.Length
      reads this, dev, block, next, prev, next_free, prev_free, hash_table
    {
      && Shape() && ChainsOk() && Ring(ring, next_free[..], prev_free[..], free_list)
      && |ring| == dev.Length - 1 && bh !in ring && (forall g | 0 <= g < NR_HASH :: bh !in chain[g])
      && forall b | 0 <= b < dev.Length && b != bh :: b in ring && Placed(b)
    }

    method Detach(bh: nat)
      requires Valid() && bh < dev.Length
      modifies this`ring, this`chain, this`free_list, next, prev, next_free, prev_free, hash_table
      ensures Detached(bh) && ring == Without(old(ring), bh)
    {
      ghost var was := chain;
      assert Placed(bh);
      RemoveFromQueues(bh);
      OffChain(was, chain, bh, dev[bh], block[bh]);
      forall x | 0 <= x < dev.Length && x != bh ensures x in ring && Placed(x) {
        assert old(Placed(x)) && x in old(ring);
        OtherChain(was, chain, bh, HashFn(dev[bh], block[bh]), 0, false, x, dev[x], block[x]);
      }
    }

    method Attach(bh: nat)
      requires bh < dev.Length && Detached(bh)
      modifies this`ring, this`chain, next, prev, next_free, prev_free, hash_table
      ensures Valid() && ring == old(ring) + [bh]
    {
      ghost var mid := chain;
      InsertIntoQueues(bh);
      OntoChain(mid, chain, bh, dev[bh], block[bh]);
      assert Placed(bh);
      forall x | 0 <= x < dev.Length && x != bh ensures x in ring && Placed(x) {
        assert old(Placed(x)) && x in old(ring);
        assert mid[0 := Without(mid[0], bh)] == mid by { WithoutAbsent(mid[0], bh); }
        OtherChain(mid, chain, bh, 0, HashFn(dev[bh], block[bh]), dev[bh] != 0, x, dev[x], block[x]);
        if dev[x] == 0 { assert forall g | 0 <= g < NR_HASH :: x !in mid[g]; }
      }
    }

    /** What getblk does to give a buffer a new block: afterwards the free list is again one ring
        through all buffers, with this one at its end, and every buffer is on exactly the chain of
        its own block. */
    method Reassign(bh: nat, d: nat, k: nat)
      requires Valid() && bh < dev.Length
      modifies this, dev, block, next, prev, next_free, prev_free, hash_table
      ensures Valid() && ring == Without(old(ring), bh) + [bh]
      ensures dev[bh] == d && block[bh] == k
      ensures forall x | 0 <= x < dev.Length && x != bh :: dev[x] == old(dev[x]) && block[x] == old(block[x])
    {
      Detach(bh);
      label Detached:
      dev[bh] := d;
      block[bh] := k;
      forall x | 0 <= x < dev.Length && x != bh ensures Placed(x) { assert old@Detached(Placed(x)); }
      Attach(bh);
    }
  }
}
