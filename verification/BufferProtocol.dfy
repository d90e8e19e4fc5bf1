// The buffer cache, the request queues and the disk as one protocol.  Each action is a stretch of
// kernel code without a sleep; its guard is what the code has checked since it last slept.  The
// device completes requests at any point, as interrupts do.

module BufferProtocol {
  import opened Elevator
  import opened NumberLists

  const NR_BLK_DEV: nat := 7
  const NR_REQUEST: nat := 32

  type Bytes = seq<nat>

  datatype Key = Key(dev: nat, block: nat)

  /** b_lock, and who set it: a task between lock_buffer and add_request, or a queued request. */
  datatype Lock = Free | ByTask(t: nat) | InQueue

  /** A buffer head; b_count is the number of holders (tasks, as often as they hold it). */
  datatype Buf = Buf(dev: nat, block: nat, uptodate: bool, dirty: bool, holders: multiset<nat>, lock: Lock, data: Bytes) {
    function K(): Key { Key(dev, block) }
  }

  /** `ring` is the free list from free_list on.  `stored` is what a plain map from blocks to
      their last stored bytes would hold. */
  datatype State = State(bufs: seq<Buf>, ring: seq<nat>, queue: seq<seq<Req>>, disk: map<Key, Bytes>, stored: map<Key, Bytes>)

  function Look(m: map<Key, Bytes>, k: Key): Bytes { if k in m then m[k] else [] }

  function Major(dev: nat): nat { dev / 256 }

  // ----- the invariant -------------------------------------------------------------------

  predicate Valid(s: State) { |s.queue| == NR_BLK_DEV }

  /** No two buffers with a device are for one block. */
  ghost predicate Unique(s: State) {
    forall a, b | 0 <= a < b < |s.bufs| && s.bufs[a].dev != 0 && s.bufs[b].dev != 0 :: s.bufs[a].K() != s.bufs[b].K()
  }

  /** The free list is one ring through all buffers. */
  ghost predicate OneRing(s: State) {
    |s.ring| == |s.bufs| && (forall b | 0 <= b < |s.bufs| :: b in s.ring) &&
    (forall i | 0 <= i < |s.ring| :: s.ring[i] < |s.bufs|) &&
    (forall i, j | 0 <= i < j < |s.ring| :: s.ring[i] != s.ring[j])
  }

  predicate ReqOk(s: State, m: nat, r: Req) {
    && r.buffer < |s.bufs| && r.slot < NR_REQUEST && (r.cmd == WRITE ==> r.slot < NR_REQUEST * 2 / 3)
    && var b := s.bufs[r.buffer];
       b.lock == InQueue && b.dev == r.dev && b.block == r.block && Major(r.dev) == m && r.dev != 0 &&
       (r.cmd == WRITE <==> b.uptodate)
  }

  /** The request of a buffer that is locked for one. */
  predicate HasRequest(s: State, b: nat)
    requires Valid(s) && b < |s.bufs|
  {
    Major(s.bufs[b].dev) < NR_BLK_DEV && exists r :: r in s.queue[Major(s.bufs[b].dev)] && r.buffer == b
  }

  ghost predicate QueuesOk(s: State)
    requires Valid(s)
  {
    && (forall m | 0 <= m < NR_BLK_DEV :: Shaped(s.queue[m]))
    && (forall m, r | 0 <= m < NR_BLK_DEV && r in s.queue[m] :: ReqOk(s, m, r))
    && (forall b | 0 <= b < |s.bufs| && s.bufs[b].lock == InQueue :: HasRequest(s, b))
  }

  /** An up-to-date buffer shows the stored bytes, and only such a buffer is dirty. */
  predicate BufOk(s: State, b: nat)
    requires b < |s.bufs|
  {
    var x := s.bufs[b];
    && (x.dev == 0 ==> x.lock == Free && x.holders == multiset{} && !x.dirty)
    && (x.dev != 0 ==> KeyOk(x.K()))
    && (x.dirty ==> x.uptodate)
    && (x.uptodate && x.dev != 0 ==> Major(x.dev) < NR_BLK_DEV)
    && (x.uptodate && x.dev != 0 ==> x.data == Look(s.stored, x.K()))
  }

  /** The buffer's bytes are on their way to the disk, or will be. */
  predicate Pending(s: State, b: nat)
    requires Valid(s) && b < |s.bufs|
  {
    s.bufs[b].uptodate && (s.bufs[b].dirty || s.bufs[b].lock == InQueue)
  }

  /** The disk holds the stored bytes, unless a buffer for the block is pending. */
  ghost predicate Settled(s: State, k: Key)
    requires Valid(s)
  {
    Look(s.disk, k) == Look(s.stored, k) || exists b :: 0 <= b < |s.bufs| && s.bufs[b].K() == k && Pending(s, b)
  }

  ghost predicate Inv(s: State) {
    && Valid(s) && Unique(s) && OneRing(s) && QueuesOk(s)
    && (forall b | 0 <= b < |s.bufs| :: BufOk(s, b))
    && (forall k: Key | k.dev != 0 :: Settled(s, k))
  }

  // ----- the actions ---------------------------------------------------------------------

  datatype Act =
    | Ref(t: nat, b: nat)                      // get_hash_table found b: b_count++
    | Unref(t: nat, b: nat)                    // b_count--
    | Claim(t: nat, b: nat, k: Key)            // getblk gives the unused buffer a new identity
    | LockBuf(t: nat, b: nat)                  // lock_buffer
    | UnlockBuf(t: nat, b: nat)                // make_request gives up
    | Enqueue(t: nat, b: nat, cmd: nat, slot: nat)   // make_request fills a slot; add_request
    | Modify(t: nat, b: nat, d: Bytes)         // a holder changes up-to-date bytes and sets b_dirt
    | Overwrite(t: nat, b: nat, d: Bytes)      // new_block: clear a buffer just got, without reading it
    | Discard(t: nat, b: nat)                  // free_block: the only holder throws the bytes away
    | Complete(m: nat)                         // the device serves the head and calls end_request(1)
    | Advance(m: nat)                          // the device goes on to the head's second sector

  predicate Slot(s: State, slot: nat)
    requires Valid(s)
  {
    forall m, r | 0 <= m < NR_BLK_DEV && r in s.queue[m] :: r.slot != slot
  }

  predicate KeyOk(k: Key) { 0 < k.dev < DEVICES && 2 * k.block + 2 < SECTORS }

  predicate Cached(s: State, k: Key) {
    exists b :: 0 <= b < |s.bufs| && s.bufs[b].K() == k
  }

  predicate Guard(s: State, a: Act) {
    Valid(s) &&
    match a
    case Ref(t, b) => b < |s.bufs| && s.bufs[b].dev != 0
    case Unref(t, b) => b < |s.bufs| && t in s.bufs[b].holders
    case Claim(t, b, k) =>
      b < |s.bufs| && s.bufs[b].holders == multiset{} && s.bufs[b].lock == Free && !s.bufs[b].dirty && KeyOk(k) && !Cached(s, k)
    case LockBuf(t, b) => b < |s.bufs| && s.bufs[b].lock == Free && s.bufs[b].dev != 0
    case UnlockBuf(t, b) => b < |s.bufs| && s.bufs[b].lock == ByTask(t)
    case Enqueue(t, b, cmd, slot) =>
      b < |s.bufs| && s.bufs[b].lock == ByTask(t) && KeyOk(s.bufs[b].K()) && Major(s.bufs[b].dev) < NR_BLK_DEV && Slot(s, slot) &&
      ((cmd == WRITE && s.bufs[b].dirty && slot < NR_REQUEST * 2 / 3) || (cmd == READ && !s.bufs[b].uptodate && slot < NR_REQUEST))
    case Modify(t, b, d) => b < |s.bufs| && t in s.bufs[b].holders && s.bufs[b].uptodate && s.bufs[b].dev != 0
    case Overwrite(t, b, d) =>
      b < |s.bufs| && t in s.bufs[b].holders && s.bufs[b].lock == Free && s.bufs[b].dev != 0 && Major(s.bufs[b].dev) < NR_BLK_DEV
    case Discard(t, b) => b < |s.bufs| && s.bufs[b].holders == multiset{t} && s.bufs[b].lock == Free && s.bufs[b].dev != 0
    case Complete(m) => m < NR_BLK_DEV && s.queue[m] != [] && s.queue[m][0].buffer < |s.bufs|
    case Advance(m) => m < NR_BLK_DEV && s.queue[m] != [] && s.queue[m][0].done == 0
  }

  function SetBuf(s: State, b: nat, x: Buf): State
    requires b < |s.bufs|
  {
    s.(bufs := s.bufs[b := x])
  }

  /** remove_from_queues and insert_into_queues: to the end of the free list. */
  function ToEnd(ring: seq<nat>, b: nat): seq<nat> {
    Without(ring, b) + [b]
  }

  function RequestFor(s: State, b: nat, cmd: nat, slot: nat): Req
    requires b < |s.bufs|
  {
    Req(cmd, s.bufs[b].dev, s.bufs[b].block, 0, b, slot)
  }

  function Apply(s: State, a: Act): (r: State)
    requires Guard(s, a)
    ensures Valid(r) && |r.bufs| == |s.bufs|
  {
    match a
    case Ref(t, b) => SetBuf(s, b, s.bufs[b].(holders := s.bufs[b].holders + multiset{t}))
    case Unref(t, b) => SetBuf(s, b, s.bufs[b].(holders := s.bufs[b].holders - multiset{t}))
    case Claim(t, b, k) =>
      SetBuf(s, b, Buf(k.dev, k.block, false, false, multiset{t}, Free, s.bufs[b].data)).(ring := ToEnd(s.ring, b))
    case LockBuf(t, b) => SetBuf(s, b, s.bufs[b].(lock := ByTask(t)))
    case UnlockBuf(t, b) => SetBuf(s, b, s.bufs[b].(lock := Free))
    case Enqueue(t, b, cmd, slot) =>
      var m := Major(s.bufs[b].dev);
      SetBuf(s, b, s.bufs[b].(dirty := false, lock := InQueue)).(queue := s.queue[m := Insert(s.queue[m], RequestFor(s, b, cmd, slot))])
    case Modify(t, b, d) => SetBuf(s, b, s.bufs[b].(data := d, dirty := true)).(stored := s.stored[s.bufs[b].K() := d])
    case Overwrite(t, b, d) =>
      SetBuf(s, b, s.bufs[b].(data := d, dirty := true, uptodate := true)).(stored := s.stored[s.bufs[b].K() := d])
    case Discard(t, b) =>
      SetBuf(s, b, s.bufs[b].(dirty := false, uptodate := false)).(stored := s.stored[s.bufs[b].K() := Look(s.disk, s.bufs[b].K())])
    case Complete(m) => Serve(s, m)
    case Advance(m) => s.(queue := s.queue[m := Step(s.queue[m], Move)])
  }

  /** The head request as do_rd_request serves it, and end_request(1). */
  function Serve(s: State, m: nat): (r: State)
    requires Valid(s) && m < NR_BLK_DEV && s.queue[m] != [] && s.queue[m][0].buffer < |s.bufs|
    ensures Valid(r) && |r.bufs| == |s.bufs|
    ensures r.queue == s.queue[m := s.queue[m][1..]]
    ensures forall c | 0 <= c < |s.bufs| && c != s.queue[m][0].buffer :: r.bufs[c] == s.bufs[c]
  {
    var q := s.queue[m][0];
    var x := s.bufs[q.buffer];
    var s1 := s.(queue := s.queue[m := s.queue[m][1..]]);
    if q.cmd == WRITE then
      SetBuf(s1, q.buffer, x.(uptodate := true, lock := Free)).(disk := s.disk[Key(q.dev, q.block) := x.data])
    else SetBuf(s1, q.buffer, x.(uptodate := true, lock := Free, data := Look(s.disk, Key(q.dev, q.block))))
  }
}
