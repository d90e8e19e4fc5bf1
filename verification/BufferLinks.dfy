// The links of the buffer heads behind the protocol's buffers: whatever the tasks and the devices do, the
// free list is one ring through all buffers in the protocol's order, and each buffer is on the hash chain
// of its block and on no other.

module BufferLinks {
  import opened NumberLists
  import opened BufferProtocol
  import opened BufferProofs
  import opened BufferTheorems
  import opened BufferQueues

  /** The buffer heads hold the keys of the protocol's buffers, and link them well. */
  ghost predicate Represents(q: Queues, s: State)
    reads q, q.dev, q.block, q.next, q.prev, q.next_free, q.prev_free, q.hash_table
  {
    && q.Valid() && |s.bufs| == q.dev.Length && q.ring == s.ring
    && forall b | 0 <= b < |s.bufs| :: q.dev[b] == s.bufs[b].dev && q.block[b] == s.bufs[b].block
  }

  /** buffer_init. */
  method Build(ghost s: State, n: nat) returns (q: Queues)
    requires n == |s.bufs| > 1 && s.ring == seq(n, i => i) && forall b | 0 <= b < n :: s.bufs[b].K() == Key(0, 0)
    ensures Represents(q, s)
  {
    q := new Queues(n);
  }

  /** Only a claim changes keys or the ring. */
  lemma OthersKeepKeys(s: State, a: Act)
    requires Inv(s) && Guard(s, a) && !a.Claim?
    ensures var r := Apply(s, a); r.ring == s.ring && |r.bufs| == |s.bufs| && forall b | 0 <= b < |s.bufs| :: r.bufs[b].K() == s.bufs[b].K()
  {
  }

  /** What a claim does to keys and ring. */
  lemma ClaimKeys(s: State, a: Act)
    requires Guard(s, a) && a.Claim?
    ensures var r := Apply(s, a);
      r.ring == Without(s.ring, a.b) + [a.b] && |r.bufs| == |s.bufs| && r.bufs[a.b].K() == a.k &&
      forall b | 0 <= b < |s.bufs| && b != a.b :: r.bufs[b] == s.bufs[b]
  {
  }

  /** remove_from_queues, the new key and insert_into_queues are the protocol's claim. */
  method ClaimBuffer(q: Queues, ghost s: State, ghost t: nat, b: nat, k: Key)
    requires Represents(q, s) && Inv(s) && Guard(s, Claim(t, b, k))
    modifies q, q.dev, q.block, q.next, q.prev, q.next_free, q.prev_free, q.hash_table
    ensures Represents(q, Apply(s, Claim(t, b, k)))
  {
    q.Reassign(b, k.dev, k.block);
    ClaimKeys(s, Claim(t, b, k));
  }

  /** The walk along one hash chain decides whether the cache has the block. */
  method FindCached(q: Queues, ghost s: State, k: Key) returns (b: int)
    requires Represents(q, s) && k.dev != 0
    ensures b == NULL <==> !Cached(s, k)
    ensures b != NULL ==> 0 <= b < |s.bufs| && s.bufs[b].K() == k
  {
    b := q.FindBuffer(k.dev, k.block);
    if b == NULL {
      forall c | 0 <= c < |s.bufs| ensures s.bufs[c].K() != k {}
    } else {
      assert s.bufs[b].K() == k;
    }
  }

  /** Every run of the protocol, carried out on the links. */
  method CarryOut(q: Queues, s: State, acts: seq<Act>)
    requires Represents(q, s) && Inv(s)
    modifies q, q.dev, q.block, q.next, q.prev, q.next_free, q.prev_free, q.hash_table
    ensures Represents(q, Run(s, acts))
    decreases |acts|
  {
    if acts == [] { return; }
    var a := acts[0];
    if !Guard(s, a) {
      CarryOut(q, s, acts[1..]);
      return;
    }
    ActKeepsInv(s, a);
    if a.Claim? {
      ClaimBuffer(q, s, a.t, a.b, a.k);
    } else {
      OthersKeepKeys(s, a);
    }
    CarryOut(q, Apply(s, a), acts[1..]);
  }

  /** In every interleaving each buffer with a device is on exactly its own chain. */
  lemma OnItsChain(q: Queues, s: State, b: nat, h: nat)
    requires Represents(q, s) && b < |s.bufs| && h < NR_HASH
    ensures b in q.chain[h] <==> s.bufs[b].dev != 0 && h == HashFn(s.bufs[b].dev, s.bufs[b].block)
  {
    assert q.Placed(b);
  }
}
