// fs/buffer.c and ll_rw_blk.c as a task executes them.  Wherever the kernel sleeps, the next part
// of the schedule runs: any actions of other tasks and of the device, in any order.  A call whose
// task is still asleep when the schedule ends has not returned.

module BufferCache {
  import opened Elevator
  import opened BufferProtocol
  import opened BufferProofs
  import opened BufferTheorems

  datatype Found = Asleep | Nothing | At(b: nat)

  class Cache {
    var bufs: seq<Buf>
    var ring: seq<nat>
    var queue: seq<seq<Req>>
    var disk: map<Key, Bytes>
    var stored: map<Key, Bytes>
    var schedule: seq<seq<Act>>

    ghost function Abs(): State
      reads this
    {
      State(bufs, ring, queue, disk, stored)
    }

    /** buffer_init for n buffers. */
    constructor (n: nat, contents: map<Key, Bytes>, schedule: seq<seq<Act>>)
      ensures Inv(Abs()) && |bufs| == n && disk == contents && this.schedule == schedule
    {
      bufs := seq(n, _ => Buf(0, 0, false, false, multiset{}, Free, []));
      ring := seq(n, i => i);
      queue := seq(NR_BLK_DEV, _ => []);
      disk := contents;
      stored := contents;
      this.schedule := schedule;
      new;
      InitialInv(Abs());
    }

    /** One uninterrupted action. */
    method Do(a: Act)
      requires Inv(Abs()) && Guard(Abs(), a)
      modifies this
      ensures Inv(Abs()) && Abs() == Apply(old(Abs()), a) && schedule == old(schedule)
    {
      var s := Apply(State(bufs, ring, queue, disk, stored), a);
      ActKeepsInv(Abs(), a);
      bufs, ring, queue, disk, stored := s.bufs, s.ring, s.queue, s.disk, s.stored;
    }

    /** schedule(): others run until this task is woken; false if it never is. */
    method Sleep(t: nat) returns (awake: bool)
      requires Inv(Abs())
      modifies this
      ensures Inv(Abs()) && Rely(old(Abs()), Abs(), t)
      ensures awake ==> |schedule| < |old(schedule)|
      ensures |schedule| <= |old(schedule)|
      ensures !awake ==> schedule == []
    {
      if schedule == [] {
        return false;
      }
      var acts := schedule[0];
      schedule := schedule[1..];
      var i := 0;
      while i < |acts|
        invariant i <= |acts| && Inv(Abs()) && Rely(old(Abs()), Abs(), t) && schedule == old(schedule)[1..]
      {
        if Guard(State(bufs, ring, queue, disk, stored), acts[i]) && !ActsFor(acts[i], t) {
          ghost var m := Abs();
          OthersAreReliable(m, acts[i], t);
          Do(acts[i]);
          RelyTransitive(old(Abs()), m, Abs(), t);
        }
        i := i + 1;
      }
      awake := true;
    }

    method WaitOnBuffer(t: nat, b: nat) returns (awake: bool)
      requires Inv(Abs()) && b < |bufs|
      modifies this
      ensures Inv(Abs()) && Rely(old(Abs()), Abs(), t)
      ensures awake ==> bufs[b].lock == Free
      ensures |schedule| <= |old(schedule)|
      ensures old(bufs[b].lock) == Free ==> awake && Abs() == old(Abs()) && schedule == old(schedule)
      ensures awake && old(bufs[b].lock) != Free ==> |schedule| < |old(schedule)|
      ensures !awake ==> schedule == []
    {
      while bufs[b].lock != Free
        invariant Inv(Abs()) && Rely(old(Abs()), Abs(), t)
        invariant |schedule| <= |old(schedule)|
        invariant |schedule| == |old(schedule)| ==> Abs() == old(Abs())
        invariant old(bufs[b].lock) == Free ==> Abs() == old(Abs()) && schedule == old(schedule)
        decreases |schedule|
      {
        ghost var m := Abs();
        awake := Sleep(t);
        RelyTransitive(old(Abs()), m, Abs(), t);
        if !awake {
          return;
        }
      }
      awake := true;
    }

    /** The block is in the cache, and unlocked. */
    static predicate Ready(bufs: seq<Buf>, k: Key) { exists b :: 0 <= b < |bufs| && bufs[b].K() == k && bufs[b].lock == Free }

    /** A buffer that can be given to another block at once. */
    static predicate Reusable(x: Buf) { x.holders == multiset{} && x.lock == Free && !x.dirty }

    /** The block is not in the cache, and a buffer can be given to it at once. */
    static predicate Spare(s: State, k: Key) { !Cached(s, k) && exists b :: 0 <= b < |s.bufs| && Reusable(s.bufs[b]) }

    static predicate SameButHeld(was: seq<Buf>, now: seq<Buf>, b: nat) {
      |now| == |was| && forall c | 0 <= c < |now| :: now[c] == if c == b then was[c].(holders := now[c].holders) else was[c]
    }

    /** find_buffer; BufferQueues shows the walk along the hash chain. */
    method FindBuffer(k: Key) returns (r: Found)
      ensures !r.Asleep?
      ensures r.At? ==> r.b < |bufs| && bufs[r.b].K() == k
      ensures r.Nothing? ==> !Cached(Abs(), k)
    {
      var i := 0;
      while i < |bufs|
        invariant i <= |bufs|
        invariant forall b | 0 <= b < i :: bufs[b].K() != k
      {
        if bufs[i].K() == k {
          return At(i);
        }
        i := i + 1;
      }
      r := Nothing;
    }

    /** get_hash_table: the buffer for the block, unlocked and held once more, if there is one.
        The recheck after the wait always succeeds, because a held buffer keeps its identity. */
    method GetHashTable(t: nat, k: Key) returns (r: Found)
      requires Inv(Abs()) && k.dev != 0
      modifies this
      ensures Inv(Abs()) && |schedule| <= |old(schedule)| && |bufs| == |old(bufs)|
      ensures r.At? ==> Got(old(bufs), bufs, t, r.b, k)
      ensures r.Nothing? ==> Abs() == old(Abs()) && schedule == old(schedule) && !Cached(Abs(), k)
      ensures r.Asleep? ==> schedule == []
      ensures old(Ready(bufs, k)) ==> r.At? && schedule == old(schedule) && SameButHeld(old(bufs), bufs, r.b)
      ensures r.Nothing? <==> !old(Cached(Abs(), k))
    {
      r := FindBuffer(k);
      if r.Nothing? {
        return;
      }
      var b := r.b;
      Do(Ref(t, b));
      ghost var held := Abs();
      var awake := WaitOnBuffer(t, b);
      if !awake {
        return Asleep;
      }
      assert RelyOn(held.bufs[b], bufs[b], t);
      assert bufs[b].K() == k;
    }

    /** x is written back and waited for more cheaply than y: dirty counts before locked. */
    static predicate Cheaper(x: Buf, y: Buf) {
      (!x.dirty && y.dirty) || (x.dirty == y.dirty && x.lock == Free && y.lock != Free)
    }

    /** getblk's scan of the free list: of the buffers nobody holds none is cheaper, and of equally cheap ones it
        is the first, the least recently used. */
    method PickVictim() returns (r: Found)
      requires Inv(Abs())
      ensures !r.Asleep?
      ensures r.At? ==> r.b < |bufs| && bufs[r.b].holders == multiset{}
      ensures r.At? ==> forall i | 0 <= i < |ring| && bufs[ring[i]].holders == multiset{} :: !Cheaper(bufs[ring[i]], bufs[r.b])
      ensures r.At? ==> exists i :: 0 <= i < |ring| && ring[i] == r.b && forall j | 0 <= j < i && bufs[ring[j]].holders == multiset{} :: Cheaper(bufs[r.b], bufs[ring[j]])
      ensures r.Nothing? ==> forall b | 0 <= b < |bufs| :: bufs[b].holders != multiset{}
    {
      r := Nothing;
      var i := 0;
      ghost var at: nat := 0;
      while i < |ring|
        invariant i <= |ring| && !r.Asleep?
        invariant r.At? ==> r.b < |bufs| && bufs[r.b].holders == multiset{}
        invariant r.At? ==> at < i && ring[at] == r.b && forall j | 0 <= j < at && bufs[ring[j]].holders == multiset{} :: Badness(bufs[r.b]) < Badness(bufs[ring[j]])
        invariant r.At? ==> forall j | 0 <= j < i && bufs[ring[j]].holders == multiset{} :: Badness(bufs[r.b]) <= Badness(bufs[ring[j]])
        invariant r.Nothing? ==> forall j | 0 <= j < i :: bufs[ring[j]].holders != multiset{}
      {
        var tmp := ring[i];
        if bufs[tmp].holders == multiset{} && (r.Nothing? || Badness(bufs[tmp]) < Badness(bufs[r.b])) {
          r := At(tmp);
          at := i;
          if Badness(bufs[tmp]) == 0 {
            return;
          }
        }
        i := i + 1;
      }
      if r.Nothing? {
        forall b | 0 <= b < |bufs| ensures bufs[b].holders != multiset{} { assert b in ring; }
      }
    }

    /** The cheapest idle buffer can be reused at once if any can. */
    lemma SparePicked(v: Found)
      requires Inv(Abs()) && exists b :: 0 <= b < |bufs| && Reusable(bufs[b])
      requires v.At? ==> v.b < |bufs| && bufs[v.b].holders == multiset{}
      requires v.At? ==> forall i | 0 <= i < |ring| && bufs[ring[i]].holders == multiset{} :: !Cheaper(bufs[ring[i]], bufs[v.b])
      requires v.Nothing? ==> forall b | 0 <= b < |bufs| :: bufs[b].holders != multiset{}
      ensures v.At? ==> Reusable(bufs[v.b])
      ensures !v.Nothing?
    {
      var b :| 0 <= b < |bufs| && Reusable(bufs[b]);
      assert b in ring;
      var i :| 0 <= i < |ring| && ring[i] == b;
      if v.At? { assert !Cheaper(bufs[ring[i]], bufs[v.b]); }
    }

    /** An element of request[] that is free, of those the command may use. */
    method FindSlot(limit: nat) returns (slot: nat)
      requires Valid(Abs())
      ensures slot <= limit
      ensures slot < limit ==> Slot(Abs(), slot)
      ensures slot == limit ==> forall i: nat | i < limit :: !Slot(Abs(), i)
    {
      slot := limit;
      while slot > 0
        invariant slot <= limit && forall i | slot <= i < limit :: !Slot(Abs(), i)
      {
        if Slot(State(bufs, ring, queue, disk, stored), slot - 1) {
          return slot - 1;
        }
        slot := slot - 1;
      }
      slot := limit;
    }

    /** The search for a slot in request[], a third of which is for reads only, and add_request. */
    method TryEnqueue(t: nat, cmd: nat, b: nat) returns (queued: bool)
      requires Inv(Abs()) && b < |bufs| && bufs[b].dev != 0 && Major(bufs[b].dev) < NR_BLK_DEV && bufs[b].lock == ByTask(t)
      requires (cmd == WRITE && bufs[b].dirty) || (cmd == READ && !bufs[b].uptodate)
      modifies this
      ensures Inv(Abs()) && schedule == old(schedule) && (!queued ==> Abs() == old(Abs()))
      ensures bufs == if queued then old(bufs)[b := old(bufs[b]).(dirty := false, lock := InQueue)] else old(bufs)
      ensures !queued ==> forall slot: nat | slot < 32 && (cmd == WRITE ==> slot < 21) :: !Slot(Abs(), slot)
    {
      assert BufOk(Abs(), b);
      var limit := if cmd == READ then NR_REQUEST else NR_REQUEST * 2 / 3;
      var slot := FindSlot(limit);
      queued := slot < limit;
      if queued { Do(Enqueue(t, b, cmd, slot)); }
    }

    /** make_request from `repeat:` on, the buffer being locked and in need of the transfer. */
    method QueueRequest(t: nat, cmd: nat, b: nat) returns (awake: bool)
      requires Inv(Abs()) && b < |bufs| && bufs[b].dev != 0 && Major(bufs[b].dev) < NR_BLK_DEV && bufs[b].lock == ByTask(t)
      requires (cmd == WRITE && bufs[b].dirty) || (cmd == READ && !bufs[b].uptodate)
      modifies this
      ensures Inv(Abs()) && |schedule| <= |old(schedule)| && |bufs| == |old(bufs)|
      ensures awake ==> bufs[b].lock == InQueue && !bufs[b].dirty && bufs[b].K() == old(bufs[b].K())
      ensures awake ==> bufs[b].uptodate == old(bufs[b].uptodate) && bufs[b].holders[t] == old(bufs[b].holders[t])
      ensures awake && |schedule| == |old(schedule)| ==> bufs[b].holders == old(bufs[b].holders)
      ensures awake ==> forall c | 0 <= c < |bufs| && c != b :: RelyOn(old(bufs)[c], bufs[c], t)
      ensures awake && |schedule| == |old(schedule)| ==> forall c | 0 <= c < |bufs| && c != b :: bufs[c] == old(bufs)[c]
      ensures !awake ==> schedule == []
    {
      while true
        invariant Inv(Abs()) && Rely(old(Abs()), Abs(), t) && |schedule| <= |old(schedule)|
        invariant |schedule| == |old(schedule)| ==> Abs() == old(Abs())
        decreases |schedule|
      {
        assert RelyOn(old(bufs)[b], bufs[b], t);
        ghost var before := Abs();
        hide Inv, Slot;
        awake := TryEnqueue(t, cmd, b);
        if awake {
          RelyBut(old(Abs()), before, Abs(), t, b);
          return;
        }
        awake := Sleep(t);
        RelyTransitive(old(Abs()), before, Abs(), t);
        if !awake { return; }
      }
    }

    /** ll_rw_block and make_request.  A read leaves the buffer queued or up to date; and when it
        did not have to sleep, a write leaves it clean. */
    method LlRwBlock(t: nat, cmd: nat, b: nat) returns (awake: bool)
      requires Inv(Abs()) && b < |bufs| && bufs[b].dev != 0 && cmd <= WRITE
      requires bufs[b].holders[t] > 0 || bufs[b].lock == Free
      modifies this
      ensures Inv(Abs()) && |schedule| <= |old(schedule)| && |bufs| == |old(bufs)|
      ensures awake ==> Rely(old(Abs()), Abs(), t)
      ensures awake && cmd == READ && Major(old(bufs[b].dev)) < NR_BLK_DEV ==> bufs[b].lock == InQueue || bufs[b].uptodate
      ensures awake && cmd == WRITE && Major(old(bufs[b].dev)) < NR_BLK_DEV && |schedule| == |old(schedule)| ==> !bufs[b].dirty
      ensures awake && |schedule| == |old(schedule)| ==>
        forall c | 0 <= c < |bufs| && c != b :: bufs[c] == old(bufs)[c]
      ensures awake && |schedule| == |old(schedule)| ==> SameUse(old(bufs)[b], bufs[b])
      ensures !awake ==> schedule == []
    {
      if Major(bufs[b].dev) >= NR_BLK_DEV {
        return true;
      }
      awake := WaitOnBuffer(t, b);
      if !awake { return; }
      ghost var m := Abs();
      assert RelyOn(old(bufs)[b], bufs[b], t);
      awake := MakeRequest(t, cmd, b);
      hide Inv;
      if awake { RelyTransitive(old(Abs()), m, Abs(), t); }
    }

    /** make_request, once the buffer is unlocked. */
    method MakeRequest(t: nat, cmd: nat, b: nat) returns (awake: bool)
      requires Inv(Abs()) && b < |bufs| && bufs[b].dev != 0 && Major(bufs[b].dev) < NR_BLK_DEV && bufs[b].lock == Free && cmd <= WRITE
      modifies this
      ensures Inv(Abs()) && |schedule| <= |old(schedule)| && |bufs| == |old(bufs)|
      ensures awake ==> Rely(old(Abs()), Abs(), t) && bufs[b].K() == old(bufs[b].K())
      ensures awake && cmd == READ ==> bufs[b].lock == InQueue || bufs[b].uptodate
      ensures awake && |schedule| == |old(schedule)| ==>
        (cmd == WRITE ==> !bufs[b].dirty) && SameUse(old(bufs)[b], bufs[b]) && forall c | 0 <= c < |bufs| && c != b :: bufs[c] == old(bufs)[c]
      ensures !awake ==> schedule == []
    {
      hide Inv;
      InvValid(Abs());
      ghost var m := Abs();
      Do(LockBuf(t, b));
      if (cmd == WRITE && !bufs[b].dirty) || (cmd == READ && bufs[b].uptodate) {
        Do(UnlockBuf(t, b));
        assert bufs == m.bufs;
        return true;
      }
      ghost var locked := Abs();
      awake := QueueRequest(t, cmd, b);
      if awake { EnqueuedRely(m, m, locked, Abs(), t, b); }
    }

    /** One pass of sync_dev: write every dirty buffer of the device. */
    method SyncPass(t: nat, dev: nat) returns (awake: bool)
      requires Inv(Abs())
      modifies this
      ensures Inv(Abs()) && |schedule| <= |old(schedule)| && |bufs| == |old(bufs)|
      ensures awake ==> Rely(old(Abs()), Abs(), t)
      ensures awake && |schedule| == |old(schedule)| ==>
        forall c | 0 <= c < |bufs| :: SameUse(old(bufs)[c], bufs[c]) && (old(bufs)[c].dev == dev ==> !bufs[c].dirty)
      ensures !awake ==> schedule == []
    {
      var i := 0;
      while i < |bufs|
        invariant i <= |bufs| && Inv(Abs()) && |schedule| <= |old(schedule)| && Rely(old(Abs()), Abs(), t)
        invariant |schedule| == |old(schedule)| ==>
          forall c | 0 <= c < |bufs| :: SameUse(old(bufs)[c], bufs[c]) && (old(bufs)[c].dev == dev && c < i ==> !bufs[c].dirty)
        invariant |schedule| == |old(schedule)| ==> forall c | i <= c < |bufs| :: bufs[c] == old(bufs)[c]
      {
        if bufs[i].dev == dev {
          ghost var m := Abs();
          awake := WaitOnBuffer(t, i);
          RelyTransitive(old(Abs()), m, Abs(), t);
          if !awake { return; }
          assert BufOk(Abs(), i);
          if bufs[i].dev == dev && bufs[i].dirty {
            m := Abs();
            awake := LlRwBlock(t, WRITE, i);
            if !awake { return; }
            RelyTransitive(old(Abs()), m, Abs(), t);
          }
        }
        i := i + 1;
      }
      awake := true;
    }

    /** sync_dev, without the inodes. */
    method SyncDev(t: nat, dev: nat) returns (awake: bool)
      requires Inv(Abs())
      modifies this
      ensures Inv(Abs()) && |schedule| <= |old(schedule)| && |bufs| == |old(bufs)|
      ensures awake ==> Rely(old(Abs()), Abs(), t)
      ensures awake && |schedule| == |old(schedule)| ==>
        forall c | 0 <= c < |bufs| :: SameUse(old(bufs)[c], bufs[c]) && (old(bufs)[c].dev == dev ==> !bufs[c].dirty)
      ensures !awake ==> schedule == []
    {
      awake := SyncPass(t, dev);
      if !awake { return; }
      ghost var m := Abs();
      awake := SyncPass(t, dev);
      if awake { RelyTransitive(old(Abs()), m, Abs(), t); }
    }

    /** One round of getblk's loop over sync_dev, for a dirty victim. */
    method CleanVictim(t: nat, bh: nat) returns (awake: bool)
      requires Inv(Abs()) && bh < |bufs| && bufs[bh].dirty && bufs[bh].lock == Free
      modifies this
      ensures Inv(Abs()) && |schedule| <= |old(schedule)| && |bufs| == |old(bufs)|
      ensures awake ==> Rely(old(Abs()), Abs(), t) && bufs[bh].lock == Free
      ensures awake && |schedule| == |old(schedule)| ==> !bufs[bh].dirty && forall c | 0 <= c < |bufs| :: SameUse(old(bufs)[c], bufs[c])
      ensures !awake ==> schedule == []
    {
      awake := SyncDev(t, bufs[bh].dev);
      if !awake { return; }
      ghost var m := Abs();
      awake := WaitOnBuffer(t, bh);
      if !awake { return; }
      hide Inv;
      RelyTransitive(old(Abs()), m, Abs(), t);
    }

    /** getblk once it has picked a victim: wait for it, clean it, and take it if it is still
        nobody's and the block is still not in the cache; Nothing is `goto repeat`. */
    method TakeVictim(t: nat, k: Key, bh: nat) returns (r: Found)
      requires Inv(Abs()) && KeyOk(k) && bh < |bufs| && bufs[bh].holders == multiset{} && !Cached(Abs(), k)
      modifies this
      ensures Inv(Abs()) && |schedule| <= |old(schedule)| && |bufs| == |old(bufs)|
      ensures r.At? ==> Got(old(bufs), bufs, t, r.b, k)
      ensures r.Nothing? ==> Rely(old(Abs()), Abs(), t) && |schedule| < |old(schedule)|
      ensures r.Asleep? ==> schedule == []
      ensures old(bufs[bh].lock == Free && !bufs[bh].dirty) ==> r.At? && schedule == old(schedule)
    {
      hide Inv, RelyOn;
      var awake := WaitOnBuffer(t, bh);
      if !awake { return Asleep; }
      if bufs[bh].holders != multiset{} { return Nothing; }
      while bufs[bh].dirty
        invariant Inv(Abs()) && Rely(old(Abs()), Abs(), t) && |schedule| <= |old(schedule)|
        invariant bufs[bh].holders == multiset{} && bufs[bh].lock == Free
        invariant |schedule| == |old(schedule)| ==> !Cached(Abs(), k)
        invariant old(bufs[bh].lock == Free && !bufs[bh].dirty) ==> Abs() == old(Abs()) && schedule == old(schedule)
        decreases |schedule|, if bufs[bh].dirty then 1 else 0
      {
        ghost var m := Abs();
        awake := CleanVictim(t, bh);
        if !awake { return Asleep; }
        RelyTransitive(old(Abs()), m, Abs(), t);
        if bufs[bh].holders != multiset{} { return Nothing; }
      }
      r := FindBuffer(k);
      if r.At? { return Nothing; }
      ghost var m := Abs();
      InvValid(m);
      Do(Claim(t, bh, k));
      r := At(bh);
      ClaimGot(old(Abs()), m, t, bh, k);
    }

    /** getblk: an unlocked buffer for the block, held by t.  Nothing that t holds is disturbed. */
    method Getblk(t: nat, k: Key) returns (r: Found)
      requires Inv(Abs()) && KeyOk(k)
      modifies this
      ensures Inv(Abs()) && |schedule| <= |old(schedule)| && |bufs| == |old(bufs)|
      ensures r.Asleep? || (r.At? && Got(old(bufs), bufs, t, r.b, k))
      ensures r.Asleep? ==> schedule == []
      ensures old(Ready(bufs, k)) ==> r.At? && schedule == old(schedule) && SameButHeld(old(bufs), bufs, r.b)
      ensures old(Spare(Abs(), k)) ==> r.At? && schedule == old(schedule)
    {
      while true
        invariant Inv(Abs()) && Rely(old(Abs()), Abs(), t) && |schedule| <= |old(schedule)|
        invariant |schedule| == |old(schedule)| ==> Abs() == old(Abs()) && schedule == old(schedule)
        invariant |schedule| < |old(schedule)| ==> !old(Ready(bufs, k)) && !old(Spare(Abs(), k))
        decreases |schedule|
      {
        ghost var start := Abs();
        r := GetHashTable(t, k);
        if r.Asleep? { return; }
        if r.At? {
          GotAfter(old(Abs()), start, bufs, t, r.b, k);
          return;
        }
        var v := PickVictim();
        if Spare(Abs(), k) { SparePicked(v); }
        if v.Nothing? {
          var awake := Sleep(t);
          RelyTransitive(old(Abs()), start, Abs(), t);
          if !awake { return Asleep; }
        } else {
          r := TakeVictim(t, k, v.b);
          if r.Asleep? { return; }
          if r.At? {
            GotAfter(old(Abs()), start, bufs, t, r.b, k);
            return;
          }
          RelyTransitive(old(Abs()), start, Abs(), t);
        }
      }
    }

    method Brelse(t: nat, b: nat) returns (awake: bool)
      requires Inv(Abs()) && b < |bufs| && bufs[b].holders[t] > 0
      modifies this
      ensures Inv(Abs()) && |schedule| <= |old(schedule)| && |bufs| == |old(bufs)|
      ensures awake ==> bufs[b].holders[t] == old(bufs[b].holders[t]) - 1 && bufs[b].K() == old(bufs[b].K())
      ensures awake ==> forall c | 0 <= c < |bufs| && c != b :: RelyOn(old(bufs)[c], bufs[c], t)
      ensures !awake ==> schedule == []
    {
      awake := WaitOnBuffer(t, b);
      if !awake { return; }
      assert RelyOn(old(bufs)[b], bufs[b], t);
      ghost var m := Abs();
      Do(Unref(t, b));
      forall c | 0 <= c < |bufs| && c != b ensures RelyOn(old(bufs)[c], bufs[c], t) {
        assert RelyOn(old(bufs)[c], m.bufs[c], t);
      }
    }

    /** bread: in every interleaving, the buffer it returns is the block's, held by the caller,
        and shows the last bytes stored for the block. */
    method Bread(t: nat, k: Key) returns (r: Found)
      requires Inv(Abs()) && KeyOk(k)
      modifies this
      ensures Inv(Abs()) && |schedule| <= |old(schedule)| && |bufs| == |old(bufs)|
      ensures r.At? ==> Got(old(bufs), bufs, t, r.b, k) && bufs[r.b].uptodate && bufs[r.b].data == Look(stored, k)
      ensures r.Nothing? ==> k.dev / 256 >= 7
      ensures r.Asleep? ==> schedule == []
      ensures old(Ready(bufs, k) && forall b | 0 <= b < |bufs| && bufs[b].K() == k :: bufs[b].uptodate) ==> r.At? && schedule == old(schedule)
    {
      r := Getblk(t, k);
      if r.Asleep? { return; }
      var b := r.b;
      ghost var got := Abs();
      assert BufOk(Abs(), b);
      if bufs[b].uptodate { return; }
      var awake := LlRwBlock(t, READ, b);
      if !awake { return Asleep; }
      ghost var asked := Abs();
      awake := WaitOnBuffer(t, b);
      if !awake { return Asleep; }
      RelyTransitive(got, asked, Abs(), t);
      assert RelyOn(asked.bufs[b], bufs[b], t) && RelyOn(got.bufs[b], bufs[b], t);
      GotBefore(old(bufs), got, Abs(), t, b, k);
      assert BufOk(Abs(), b);
      if !bufs[b].uptodate {
        awake := Brelse(t, b);
        return if awake then Nothing else Asleep;
      }
    }
  }

  lemma InvValid(s: State)
    requires Inv(s)
    ensures Valid(s)
  {
  }

  lemma ClaimGot(s: State, m: State, t: nat, b: nat, k: Key)
    requires Rely(s, m, t) && b < |s.bufs| && Guard(m, Claim(t, b, k))
    ensures Got(s.bufs, Apply(m, Claim(t, b, k)).bufs, t, b, k)
  {
    assert RelyOn(s.bufs[b], m.bufs[b], t);
    var r := Apply(m, Claim(t, b, k));
    forall c | 0 <= c < |s.bufs| && c != b ensures RelyOn(s.bufs[c], r.bufs[c], t) {
      assert RelyOn(s.bufs[c], m.bufs[c], t) && r.bufs[c] == m.bufs[c];
    }
  }

  lemma RelyBut(s: State, m: State, r: State, t: nat, b: nat)
    requires Rely(s, m, t) && b < |s.bufs| && |r.bufs| == |m.bufs|
    requires forall c | 0 <= c < |s.bufs| && c != b :: r.bufs[c] == m.bufs[c]
    ensures forall c | 0 <= c < |s.bufs| && c != b :: RelyOn(s.bufs[c], r.bufs[c], t)
    ensures r.bufs[b] == m.bufs[b] ==> Rely(s, r, t)
  {
  }

  lemma EnqueuedRely(s: State, m: State, locked: State, r: State, t: nat, b: nat)
    requires Rely(s, m, t) && |locked.bufs| == |m.bufs| && |r.bufs| == |m.bufs| && b < |s.bufs|
    requires forall c | 0 <= c < |s.bufs| && c != b :: locked.bufs[c] == m.bufs[c]
    requires forall c | 0 <= c < |s.bufs| && c != b :: RelyOn(locked.bufs[c], r.bufs[c], t)
    requires RelyOn(s.bufs[b], r.bufs[b], t)
    ensures Rely(s, r, t)
  {
    forall c | 0 <= c < |s.bufs| ensures RelyOn(s.bufs[c], r.bufs[c], t) {
      if c != b { assert RelyOn(s.bufs[c], m.bufs[c], t) && RelyOn(locked.bufs[c], r.bufs[c], t); }
    }
  }

  lemma GotAfter(s: State, m: State, after: seq<Buf>, t: nat, b: nat, k: Key)
    requires Rely(s, m, t) && Got(m.bufs, after, t, b, k)
    ensures Got(s.bufs, after, t, b, k)
  {
    assert RelyOn(s.bufs[b], m.bufs[b], t);
    forall c | 0 <= c < |s.bufs| && c != b ensures RelyOn(s.bufs[c], after[c], t) {
      assert RelyOn(s.bufs[c], m.bufs[c], t) && RelyOn(m.bufs[c], after[c], t);
    }
  }

  lemma GotBefore(before: seq<Buf>, m: State, r: State, t: nat, b: nat, k: Key)
    requires Got(before, m.bufs, t, b, k) && Rely(m, r, t) && r.bufs[b].lock == Free
    ensures Got(before, r.bufs, t, b, k)
  {
    assert RelyOn(m.bufs[b], r.bufs[b], t);
    forall c | 0 <= c < |before| && c != b ensures RelyOn(before[c], r.bufs[c], t) {
      assert RelyOn(before[c], m.bufs[c], t) && RelyOn(m.bufs[c], r.bufs[c], t);
    }
  }

  predicate SameUse(x: Buf, y: Buf) { y.K() == x.K() && y.holders == x.holders }

  function Badness(x: Buf): nat { (if x.dirty then 2 else 0) + (if x.lock != Free then 1 else 0) }

  /** The task holds b once more; b is the block's buffer and unlocked; and nothing else that the
      task relies on has changed. */
  ghost predicate Got(before: seq<Buf>, after: seq<Buf>, t: nat, b: nat, k: Key) {
    && |after| == |before| && b < |after|
    && after[b].K() == k && after[b].lock == Free && after[b].holders[t] == before[b].holders[t] + 1
    && (forall c | 0 <= c < |before| && c != b :: RelyOn(before[c], after[c], t))
  }
}
