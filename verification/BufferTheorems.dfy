// What the cache protocol guarantees over every run, and to each task while it sleeps.

module BufferTheorems {
  import opened Elevator
  import opened BufferProtocol
  import opened BufferProofs

  /** A run; actions whose guard fails are skipped. */
  function Run(s: State, acts: seq<Act>): (r: State)
    requires Valid(s)
    ensures Valid(r) && |r.bufs| == |s.bufs|
    decreases |acts|
  {
    if acts == [] then s
    else Run(if Guard(s, acts[0]) then Apply(s, acts[0]) else s, acts[1..])
  }

  /** Identity, one ring, request bookkeeping and coherence hold in every reachable state. */
  lemma {:induction false} RunKeepsInv(s: State, acts: seq<Act>)
    requires Inv(s)
    ensures Inv(Run(s, acts))
    decreases |acts|
  {
    if acts != [] {
      if Guard(s, acts[0]) {
        ActKeepsInv(s, acts[0]);
        RunKeepsInv(Apply(s, acts[0]), acts[1..]);
      } else {
        RunKeepsInv(s, acts[1..]);
      }
    }
  }

  /** buffer_init: buffers without a device in one ring, no request, and whatever is on the disk. */
  ghost predicate Initial(s: State) {
    && Valid(s) && (forall m | 0 <= m < NR_BLK_DEV :: s.queue[m] == [])
    && (forall b | 0 <= b < |s.bufs| :: s.bufs[b].dev == 0 && s.bufs[b].lock == Free && s.bufs[b].holders == multiset{} && !s.bufs[b].dirty)
    && |s.ring| == |s.bufs| && (forall i | 0 <= i < |s.ring| :: s.ring[i] == i)
    && s.stored == s.disk
  }

  lemma InitialInv(s: State)
    requires Initial(s)
    ensures Inv(s)
  {
    forall b | 0 <= b < |s.bufs| ensures b in s.ring { assert s.ring[b] == b; }
    forall m | 0 <= m < NR_BLK_DEV ensures Shaped(s.queue[m]) { assert Runs(Ranks(s.queue[m]), 0); }
  }

  // ----- coherence -----------------------------------------------------------------------

  /** In every reachable state every up-to-date buffer shows the last bytes stored for its block,
      no two buffers are for one block, and every queue is at most two ascending runs. */
  lemma CacheCoherent(s: State, acts: seq<Act>)
    requires Initial(s)
    ensures var r := Run(s, acts);
      (forall b | 0 <= b < |r.bufs| && r.bufs[b].dev != 0 && r.bufs[b].uptodate :: r.bufs[b].data == Look(r.stored, r.bufs[b].K())) &&
      (forall a, b | 0 <= a < b < |r.bufs| && r.bufs[a].dev != 0 && r.bufs[b].dev != 0 :: r.bufs[a].K() != r.bufs[b].K()) &&
      (forall m | 0 <= m < NR_BLK_DEV :: Shaped(r.queue[m]))
  {
    InitialInv(s);
    RunKeepsInv(s, acts);
    var r := Run(s, acts);
    forall b | 0 <= b < |r.bufs| && r.bufs[b].dev != 0 && r.bufs[b].uptodate ensures r.bufs[b].data == Look(r.stored, r.bufs[b].K()) {
      assert BufOk(r, b);
    }
  }

  /** Clearing b_dirt when a write is queued, writing while a holder modifies, and giving buffers
      away never lose an update: when nothing is dirty or queued, the disk is the plain map. */
  lemma NothingLost(s: State, acts: seq<Act>, k: Key)
    requires Initial(s) && k.dev != 0
    requires forall b | 0 <= b < |s.bufs| :: !Run(s, acts).bufs[b].dirty
    requires forall m | 0 <= m < NR_BLK_DEV :: Run(s, acts).queue[m] == []
    ensures Look(Run(s, acts).disk, k) == Look(Run(s, acts).stored, k)
  {
    InitialInv(s);
    RunKeepsInv(s, acts);
    var r := Run(s, acts);
    assert Settled(r, k);
    forall b | 0 <= b < |r.bufs| ensures r.bufs[b].lock != InQueue { assert r.bufs[b].lock == InQueue ==> HasRequest(r, b); }
  }

  // ----- identity ------------------------------------------------------------------------

  /** A buffer that somebody holds or that is locked keeps its identity in every step. */
  lemma IdentityStable(s: State, a: Act, b: nat)
    requires Inv(s) && Guard(s, a) && b < |s.bufs| && (s.bufs[b].holders != multiset{} || s.bufs[b].lock != Free)
    ensures Apply(s, a).bufs[b].K() == s.bufs[b].K()
  {
  }

  // ----- what a sleeping task can rely on ---------------------------------------------------

  predicate ActsFor(a: Act, t: nat) {
    match a
    case Complete(_) => false
    case Advance(_) => false
    case _ => a.t == t
  }

  /** What a task finds of a buffer after others have run. */
  predicate RelyOn(x: Buf, y: Buf, t: nat) {
    && y.holders[t] == x.holders[t]
    && (x.holders[t] > 0 ==> y.K() == x.K() && (x.uptodate ==> y.uptodate) && (x.lock == InQueue ==> y.lock == InQueue || y.uptodate))
    && (x.lock == ByTask(t) ==> y.K() == x.K() && y.uptodate == x.uptodate && (x.dirty ==> y.dirty))
    && (x.lock == ByTask(t) <==> y.lock == ByTask(t))
    && (x.dev != 0 ==> y.dev != 0)
  }

  ghost predicate Rely(s: State, r: State, t: nat) {
    |r.bufs| == |s.bufs| && forall b | 0 <= b < |s.bufs| :: RelyOn(s.bufs[b], r.bufs[b], t)
  }

  lemma ServeRely(s: State, m: nat, t: nat)
    requires Inv(s) && Guard(s, Complete(m))
    ensures Rely(s, Serve(s, m), t)
  {
    ServeQueues(s, m);
  }

  lemma ClaimRely(s: State, u: nat, b: nat, k: Key, t: nat)
    requires Inv(s) && Guard(s, Claim(u, b, k)) && u != t
    ensures Rely(s, Apply(s, Claim(u, b, k)), t)
  {
    var r := Apply(s, Claim(u, b, k));
    assert r.bufs[b].holders == multiset{u};
    assert RelyOn(s.bufs[b], r.bufs[b], t);
  }

  lemma EnqueueRely(s: State, u: nat, b: nat, cmd: nat, slot: nat, t: nat)
    requires Inv(s) && Guard(s, Enqueue(u, b, cmd, slot)) && u != t
    ensures Rely(s, Apply(s, Enqueue(u, b, cmd, slot)), t)
  {
    var r := Apply(s, Enqueue(u, b, cmd, slot));
    assert RelyOn(s.bufs[b], r.bufs[b], t);
    assert forall c | 0 <= c < |s.bufs| && c != b :: r.bufs[c] == s.bufs[c];
  }

  /** Nothing another task or the device does disturbs what t holds or has locked. */
  lemma HoldersAreReliable(s: State, a: Act, t: nat)
    requires Inv(s) && Guard(s, a) && !ActsFor(a, t) && (a.Ref? || a.Unref? || a.LockBuf? || a.UnlockBuf?)
    ensures Rely(s, Apply(s, a), t)
  {
    hide Inv;
    assert RelyOn(s.bufs[a.b], Apply(s, a).bufs[a.b], t);
  }

  lemma WritersAreReliable(s: State, a: Act, t: nat)
    requires Inv(s) && Guard(s, a) && !ActsFor(a, t) && (a.Modify? || a.Overwrite? || a.Discard?)
    ensures Rely(s, Apply(s, a), t)
  {
    assert a.Discard? ==> t !in s.bufs[a.b].holders;
    assert RelyOn(s.bufs[a.b], Apply(s, a).bufs[a.b], t);
  }

  lemma OthersAreReliable(s: State, a: Act, t: nat)
    requires Inv(s) && Guard(s, a) && !ActsFor(a, t)
    ensures Rely(s, Apply(s, a), t)
  {
    match a
    case Complete(m) => ServeRely(s, m, t);
    case Advance(m) =>
    case Claim(u, b, k) => ClaimRely(s, u, b, k, t);
    case Enqueue(u, b, cmd, slot) => EnqueueRely(s, u, b, cmd, slot, t);
    case Ref(u, b) => HoldersAreReliable(s, a, t);
    case Unref(u, b) => HoldersAreReliable(s, a, t);
    case LockBuf(u, b) => HoldersAreReliable(s, a, t);
    case UnlockBuf(u, b) => HoldersAreReliable(s, a, t);
    case _ => WritersAreReliable(s, a, t);
  }

  lemma RelyTransitive(s: State, m: State, r: State, t: nat)
    requires Rely(s, m, t) && Rely(m, r, t)
    ensures Rely(s, r, t)
  {
    forall b | 0 <= b < |s.bufs| ensures RelyOn(s.bufs[b], r.bufs[b], t) {
      assert RelyOn(s.bufs[b], m.bufs[b], t) && RelyOn(m.bufs[b], r.bufs[b], t);
    }
  }

  // ----- no starvation -------------------------------------------------------------------

  /** What an action does to the queue of device m, as the elevator sees it. */
  function OpsOf(s: State, a: Act, m: nat): seq<Op>
    requires Valid(s) && Guard(s, a)
  {
    match a
    case Enqueue(t, b, cmd, slot) => if Major(s.bufs[b].dev) == m then [Arrive(RequestFor(s, b, cmd, slot))] else []
    case Complete(m') => if m' == m then [Finish] else []
    case Advance(m') => if m' == m then [Move] else []
    case _ => []
  }

  lemma QueueFollows(s: State, a: Act, m: nat)
    requires Inv(s) && Guard(s, a) && m < NR_BLK_DEV
    ensures Apply(s, a).queue[m] == if OpsOf(s, a, m) == [] then s.queue[m] else Step(s.queue[m], OpsOf(s, a, m)[0])
  {
    match a
    case Enqueue(t, b, cmd, slot) => RequestFresh(s, t, b, cmd, slot);
    case _ =>
  }

  /** The block's request is in the queue of device m before, between and after the actions. */
  predicate WaitsIn(s: State, acts: seq<Act>, m: nat, k: Key)
    requires Valid(s) && m < NR_BLK_DEV
    decreases |acts|
  {
    Queued(s.queue[m], k.dev, k.block) &&
    (acts != [] ==> WaitsIn(if Guard(s, acts[0]) then Apply(s, acts[0]) else s, acts[1..], m, k))
  }

  function Completions(s: State, acts: seq<Act>, m: nat): nat
    requires Valid(s)
    decreases |acts|
  {
    if acts == [] then 0
    else if !Guard(s, acts[0]) then Completions(s, acts[1..], m)
    else (if acts[0] == Complete(m) then 1 else 0) + Completions(Apply(s, acts[0]), acts[1..], m)
  }

  /** Whatever the tasks queue meanwhile, a request is passed by at most as many completions on
      its device as its measure said when it was queued. */
  lemma {:induction false} RequestsAreServed(s: State, acts: seq<Act>, m: nat, k: Key)
    requires Inv(s) && m < NR_BLK_DEV && WaitsIn(s, acts, m, k)
    ensures Completions(s, acts, m) <= WaitOf(s.queue[m], k.dev, k.block)
    decreases |acts|
  {
    if acts == [] {
      WaitNonNegative(s.queue[m], k.dev, k.block);
    } else if Guard(s, acts[0]) {
      var r := Apply(s, acts[0]);
      ActKeepsInv(s, acts[0]);
      QueueFollows(s, acts[0], m);
      RequestsAreServed(r, acts[1..], m, k);
      var ops := OpsOf(s, acts[0], m);
      if ops != [] { StepWait(s.queue[m], ops[0], k.dev, k.block); }
    } else {
      RequestsAreServed(s, acts[1..], m, k);
    }
  }

  // ----- the elements of request[] ----------------------------------------------------------------------

  predicate OwnSlots(q: seq<Req>) { forall i, j | 0 <= i < j < |q| :: q[i].slot != q[j].slot }

  predicate OtherSlots(p: seq<Req>, q: seq<Req>) { forall i, j | 0 <= i < |p| && 0 <= j < |q| :: p[i].slot != q[j].slot }

  /** No two queued requests are in one element of request[]. */
  ghost predicate SlotsApart(s: State) {
    && Valid(s) && (forall m | 0 <= m < NR_BLK_DEV :: OwnSlots(s.queue[m]))
    && (forall m, n | 0 <= m < NR_BLK_DEV && 0 <= n < NR_BLK_DEV && m != n :: OtherSlots(s.queue[m], s.queue[n]))
  }

  lemma InsertSlots(q: seq<Req>, r: Req, p: seq<Req>)
    requires OwnSlots(q) && OtherSlots(q, p) && (forall x | x in q :: x.slot != r.slot) && (forall x | x in p :: x.slot != r.slot)
    ensures OwnSlots(Insert(q, r)) && OtherSlots(Insert(q, r), p) && OtherSlots(p, Insert(q, r))
  {
    if q == [] { return; }
    var q', k := Insert(q, r), Position(q, r, 0);
    forall i | 0 <= i < |q'| ensures q'[i] == if i < k then q[i] else if i == k then r else q[i - 1] { InsertedReq(q, r, i); }
    hide Insert, Position;
    forall i, j | 0 <= i < j < |q'| ensures q'[i].slot != q'[j].slot {
      assert q'[i] == if i < k then q[i] else if i == k then r else q[i - 1];
      assert q'[j] == if j < k then q[j] else if j == k then r else q[j - 1];
    }
    forall i, j | 0 <= i < |q'| && 0 <= j < |p| ensures q'[i].slot != p[j].slot {
      assert q'[i] == if i < k then q[i] else if i == k then r else q[i - 1];
    }
  }

  /** One queue is changed so that its requests stay apart from each other and from all others. */
  lemma QueueSlots(s: State, m: nat, q: seq<Req>)
    requires SlotsApart(s) && m < NR_BLK_DEV && OwnSlots(q)
    requires forall n | 0 <= n < NR_BLK_DEV && n != m :: OtherSlots(q, s.queue[n]) && OtherSlots(s.queue[n], q)
    ensures SlotsApart(s.(queue := s.queue[m := q]))
  {
    hide OwnSlots, OtherSlots;
  }

  lemma ActKeepsSlots(s: State, a: Act)
    requires SlotsApart(s) && Guard(s, a)
    ensures SlotsApart(Apply(s, a))
  {
    match a
    case Enqueue(t, b, cmd, slot) =>
      var m, r := Major(s.bufs[b].dev), RequestFor(s, b, cmd, slot);
      var q := Insert(s.queue[m], r);
      InsertSlots(s.queue[m], r, []);
      forall n | 0 <= n < NR_BLK_DEV && n != m ensures OtherSlots(q, s.queue[n]) && OtherSlots(s.queue[n], q) {
        InsertSlots(s.queue[m], r, s.queue[n]);
      }
      QueueSlots(s, m, q);
    case Complete(m) => QueueSlots(s, m, s.queue[m][1..]);
    case Advance(m) => QueueSlots(s, m, Step(s.queue[m], Move));
    case _ =>
  }

  /** add_request overwrites nobody's request: in every reachable state queued requests are in different elements
      of request[], and there are at most 32 elements, the last 11 of them without writes. */
  lemma {:induction false} SlotsNeverShared(s: State, acts: seq<Act>)
    requires Inv(s) && SlotsApart(s)
    ensures SlotsApart(Run(s, acts))
    ensures forall m, r | 0 <= m < 7 && r in Run(s, acts).queue[m] :: r.slot < if r.cmd == WRITE then 21 else 32
    decreases |acts|
  {
    if acts == [] {
      forall m, r | 0 <= m < 7 && r in s.queue[m] ensures r.slot < if r.cmd == WRITE then 21 else 32 { assert ReqOk(s, m, r); }
    } else if Guard(s, acts[0]) {
      ActKeepsInv(s, acts[0]);
      ActKeepsSlots(s, acts[0]);
      hide Inv, SlotsApart, Guard, Apply;
      SlotsNeverShared(Apply(s, acts[0]), acts[1..]);
    } else {
      SlotsNeverShared(s, acts[1..]);
    }
  }
}
