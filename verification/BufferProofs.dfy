// Every action keeps the invariant, in every interleaving.

module BufferProofs {
  import opened Elevator
  import opened NumberLists
  import opened BufferProtocol

  // ----- pieces --------------------------------------------------------------------------

  /** Changing one buffer, but not whether it has a request nor what that request says of it. */
  lemma KeepQueues(s: State, r: State, b: nat)
    requires Valid(s) && QueuesOk(s) && b < |s.bufs| && r.queue == s.queue && |r.bufs| == |s.bufs|
    requires forall c | 0 <= c < |s.bufs| && c != b :: r.bufs[c] == s.bufs[c]
    requires r.bufs[b].lock == InQueue <==> s.bufs[b].lock == InQueue
    requires s.bufs[b].lock == InQueue ==> r.bufs[b].K() == s.bufs[b].K() && r.bufs[b].uptodate == s.bufs[b].uptodate
    ensures Valid(r) && QueuesOk(r)
  {
    forall m, q | 0 <= m < NR_BLK_DEV && q in r.queue[m] ensures ReqOk(r, m, q) { assert ReqOk(s, m, q); }
    forall c | 0 <= c < |r.bufs| && r.bufs[c].lock == InQueue ensures HasRequest(r, c) { assert HasRequest(s, c); }
  }

  lemma KeepUnique(s: State, r: State, b: nat)
    requires Unique(s) && b < |s.bufs| && |r.bufs| == |s.bufs|
    requires forall c | 0 <= c < |s.bufs| && c != b :: r.bufs[c] == s.bufs[c]
    requires forall c | 0 <= c < |s.bufs| && c != b && s.bufs[c].dev != 0 :: s.bufs[c].K() != r.bufs[b].K()
    ensures Unique(r)
  {
  }

  lemma OthersDiffer(s: State, b: nat)
    requires Unique(s) && b < |s.bufs| && s.bufs[b].dev != 0
    ensures forall c | 0 <= c < |s.bufs| && c != b && s.bufs[c].dev != 0 :: s.bufs[c].K() != s.bufs[b].K()
  {
    forall c | 0 <= c < |s.bufs| && c != b && s.bufs[c].dev != 0 ensures s.bufs[c].K() != s.bufs[b].K() {
      if c < b {} else {}
    }
  }

  /** Buffers other than b are fine as long as no stored bytes but those of b's block changed. */
  lemma KeepBufs(s: State, r: State, b: nat)
    requires b < |s.bufs| && |r.bufs| == |s.bufs| && forall c | 0 <= c < |s.bufs| :: BufOk(s, c)
    requires forall c | 0 <= c < |s.bufs| && c != b :: r.bufs[c] == s.bufs[c]
    requires forall c | 0 <= c < |s.bufs| && c != b && s.bufs[c].dev != 0 :: Look(r.stored, s.bufs[c].K()) == Look(s.stored, s.bufs[c].K())
    requires BufOk(r, b)
    ensures forall c | 0 <= c < |r.bufs| :: BufOk(r, c)
  {
    forall c | 0 <= c < |r.bufs| ensures BufOk(r, c) { if c != b { assert BufOk(s, c); } }
  }

  /** A settled block stays settled when its pending buffer stays pending. */
  lemma KeepSettled(s: State, r: State, b: nat, k: Key)
    requires Valid(s) && Valid(r) && b < |s.bufs| && |r.bufs| == |s.bufs| && Settled(s, k)
    requires forall c | 0 <= c < |s.bufs| && c != b :: r.bufs[c] == s.bufs[c]
    requires Look(r.disk, k) == Look(s.disk, k) && Look(r.stored, k) == Look(s.stored, k)
    requires s.bufs[b].K() == k && Pending(s, b) ==> r.bufs[b].K() == k && Pending(r, b)
    ensures Settled(r, k)
  {
    if Look(s.disk, k) != Look(s.stored, k) {
      var c :| 0 <= c < |s.bufs| && s.bufs[c].K() == k && Pending(s, c);
      assert r.bufs[c].K() == k && Pending(r, c);
    }
  }

  // ----- holders and locks ---------------------------------------------------------------

  lemma TouchStep(s: State, b: nat, x: Buf)
    requires Inv(s) && b < |s.bufs| && s.bufs[b].dev != 0
    requires var y := s.bufs[b]; x == y.(holders := x.holders, lock := x.lock) && (x.lock == InQueue <==> y.lock == InQueue)
    ensures Inv(SetBuf(s, b, x))
  {
    var r := SetBuf(s, b, x);
    KeepQueues(s, r, b);
    OthersDiffer(s, b);
    KeepUnique(s, r, b);
    assert BufOk(s, b);
    KeepBufs(s, r, b);
    forall k: Key | k.dev != 0 ensures Settled(r, k) { KeepSettled(s, r, b, k); }
  }

  // ----- stores --------------------------------------------------------------------------

  lemma StoreStep(s: State, b: nat, x: Buf, d: Bytes)
    requires Inv(s) && b < |s.bufs| && s.bufs[b].dev != 0
    requires x == s.bufs[b].(data := d, dirty := true, uptodate := true)
    requires s.bufs[b].lock == InQueue ==> s.bufs[b].uptodate
    requires Major(s.bufs[b].dev) < NR_BLK_DEV
    ensures Inv(SetBuf(s, b, x).(stored := s.stored[x.K() := d]))
  {
    var r := SetBuf(s, b, x).(stored := s.stored[x.K() := d]);
    assert BufOk(s, b);
    KeepQueues(s, r, b);
    OthersDiffer(s, b);
    KeepUnique(s, r, b);
    KeepBufs(s, r, b);
    forall k: Key | k.dev != 0 ensures Settled(r, k) {
      if k == x.K() {
        assert r.bufs[b].K() == k && Pending(r, b);
      } else {
        KeepSettled(s, r, b, k);
      }
    }
  }

  lemma DiscardStep(s: State, t: nat, b: nat)
    requires Inv(s) && Guard(s, Discard(t, b))
    ensures Inv(Apply(s, Discard(t, b)))
  {
    var r := Apply(s, Discard(t, b));
    assert BufOk(s, b);
    KeepQueues(s, r, b);
    OthersDiffer(s, b);
    KeepUnique(s, r, b);
    KeepBufs(s, r, b);
    forall k: Key | k.dev != 0 ensures Settled(r, k) {
      if k != s.bufs[b].K() { KeepSettled(s, r, b, k); }
    }
  }

  // ----- a new identity ------------------------------------------------------------------

  lemma ToEndRing(s: State, b: nat)
    requires OneRing(s) && b < |s.bufs|
    ensures OneRing(s.(ring := ToEnd(s.ring, b)))
  {
    WithoutDistinct(s.ring, b);
    var r := ToEnd(s.ring, b);
    forall i | 0 <= i < |r| ensures r[i] < |s.bufs| { if i < |r| - 1 { assert r[i] in Without(s.ring, b); } }
    forall c | 0 <= c < |s.bufs| ensures c in r { assert c == b || c in Without(s.ring, b); }
    forall i, j | 0 <= i < j < |r| ensures r[i] != r[j] {
      if j == |r| - 1 { assert r[i] in Without(s.ring, b); }
    }
  }

  lemma ClaimStep(s: State, t: nat, b: nat, k: Key)
    requires Inv(s) && Guard(s, Claim(t, b, k))
    ensures Inv(Apply(s, Claim(t, b, k)))
  {
    var r := Apply(s, Claim(t, b, k));
    KeepQueues(s, r, b);
    forall c | 0 <= c < |s.bufs| && c != b && s.bufs[c].dev != 0 ensures s.bufs[c].K() != r.bufs[b].K() {
      assert s.bufs[c].K() != k;
    }
    KeepUnique(s, r, b);
    KeepBufs(s, r, b);
    ToEndRing(s, b);
    forall k': Key | k'.dev != 0 ensures Settled(r, k') { KeepSettled(s, r, b, k'); }
  }

  // ----- the queues ----------------------------------------------------------------------

  /** A request for a buffer just locked is the only one for its block. */
  lemma RequestFresh(s: State, t: nat, b: nat, cmd: nat, slot: nat)
    requires Inv(s) && Guard(s, Enqueue(t, b, cmd, slot))
    ensures Fresh(s.queue[Major(s.bufs[b].dev)], RequestFor(s, b, cmd, slot))
  {
    var m := Major(s.bufs[b].dev);
    var q := s.queue[m];
    forall i | 0 <= i < |q| ensures (q[i].dev, q[i].block) != (s.bufs[b].dev, s.bufs[b].block) {
      assert q[i] in s.queue[m];
      assert ReqOk(s, m, q[i]);
      OthersDiffer(s, b);
    }
  }

  lemma InsertShaped(q: seq<Req>, r: Req)
    requires Shaped(q) && Fresh(q, r)
    ensures Shaped(Insert(q, r)) && forall x :: x in Insert(q, r) <==> x in q || x == r
  {
    StepShaped(q, Arrive(r));
    forall x ensures x in Insert(q, r) <==> x in q || x == r {
      assert x in Insert(q, r) <==> x in multiset(Insert(q, r));
    }
  }

  lemma EnqueueQueues(s: State, t: nat, b: nat, cmd: nat, slot: nat)
    requires Inv(s) && Guard(s, Enqueue(t, b, cmd, slot))
    ensures QueuesOk(Apply(s, Enqueue(t, b, cmd, slot)))
  {
    var r := Apply(s, Enqueue(t, b, cmd, slot));
    var m0 := Major(s.bufs[b].dev);
    var req := RequestFor(s, b, cmd, slot);
    RequestFresh(s, t, b, cmd, slot);
    InsertShaped(s.queue[m0], req);
    assert BufOk(s, b);
    forall m, q | 0 <= m < NR_BLK_DEV && q in r.queue[m] ensures ReqOk(r, m, q) {
      if m == m0 && q == req {
      } else {
        assert q in s.queue[m];
        assert ReqOk(s, m, q);
      }
    }
    forall c | 0 <= c < |r.bufs| && r.bufs[c].lock == InQueue ensures HasRequest(r, c) {
      if c == b {
        assert req in r.queue[m0];
      } else {
        assert HasRequest(s, c);
        var q :| q in s.queue[Major(s.bufs[c].dev)] && q.buffer == c;
        assert q in r.queue[Major(r.bufs[c].dev)];
      }
    }
  }

  lemma EnqueueStep(s: State, t: nat, b: nat, cmd: nat, slot: nat)
    requires Inv(s) && Guard(s, Enqueue(t, b, cmd, slot))
    ensures Inv(Apply(s, Enqueue(t, b, cmd, slot)))
  {
    var r := Apply(s, Enqueue(t, b, cmd, slot));
    EnqueueQueues(s, t, b, cmd, slot);
    OthersDiffer(s, b);
    KeepUnique(s, r, b);
    assert BufOk(s, b);
    KeepBufs(s, r, b);
    forall k: Key | k.dev != 0 ensures Settled(r, k) { KeepSettled(s, r, b, k); }
  }

  lemma AdvanceRequests(s: State, m: nat)
    requires Valid(s) && QueuesOk(s) && Guard(s, Advance(m))
    ensures var q := s.queue[m]; var q' := Step(q, Move); var h := q[0].(done := 1);
      Shaped(q') && (forall x | x in q' :: x == h || x in q) && h in q' && (forall x | x in q && x != q[0] :: x in q')
  {
    hide Shaped;
    var q := s.queue[m];
    var q' := Step(q, Move);
    StepShaped(q, Move);
    assert q' == [q[0].(done := 1)] + q[1..];
  }

  lemma AdvanceQueues(s: State, m: nat)
    requires Valid(s) && QueuesOk(s) && Guard(s, Advance(m))
    ensures QueuesOk(Apply(s, Advance(m)))
  {
    var r := Apply(s, Advance(m));
    var h := s.queue[m][0];
    AdvanceRequests(s, m);
    assert ReqOk(s, m, h);
    hide Shaped;
    forall m', x | 0 <= m' < NR_BLK_DEV && x in r.queue[m'] ensures ReqOk(r, m', x) {
      if m' != m || x != h.(done := 1) {
        assert x in s.queue[m'];
        assert ReqOk(s, m', x);
      }
    }
    forall c | 0 <= c < |r.bufs| && r.bufs[c].lock == InQueue ensures HasRequest(r, c) { AdvanceHasRequest(s, m, c); }
    hide HasRequest, ReqOk;
  }

  lemma AdvanceHasRequest(s: State, m: nat, c: nat)
    requires Valid(s) && QueuesOk(s) && Guard(s, Advance(m)) && c < |s.bufs| && s.bufs[c].lock == InQueue
    ensures HasRequest(Apply(s, Advance(m)), c)
  {
    var r, h := Apply(s, Advance(m)), s.queue[m][0];
    AdvanceRequests(s, m);
    assert HasRequest(s, c);
    var x :| x in s.queue[Major(s.bufs[c].dev)] && x.buffer == c;
    assert ReqOk(s, Major(s.bufs[c].dev), x) && ReqOk(s, m, h);
    hide QueuesOk, Shaped, HasRequest;
    var y := if x == h then h.(done := 1) else x;
    assert x == h ==> Major(s.bufs[c].dev) == m;
    assert y in r.queue[Major(s.bufs[c].dev)] && y.buffer == c;
    RequestShows(r, c, y);
  }

  lemma RequestShows(s: State, c: nat, x: Req)
    requires Valid(s) && c < |s.bufs| && Major(s.bufs[c].dev) < NR_BLK_DEV && x in s.queue[Major(s.bufs[c].dev)] && x.buffer == c
    ensures HasRequest(s, c)
  {
  }

  lemma AdvanceStep(s: State, m: nat)
    requires Inv(s) && Guard(s, Advance(m))
    ensures Inv(Apply(s, Advance(m)))
  {
    var r := Apply(s, Advance(m));
    AdvanceQueues(s, m);
    forall b | 0 <= b < |r.bufs| ensures BufOk(r, b) { assert BufOk(s, b); }
    forall k: Key | k.dev != 0 ensures Settled(r, k) {
      if Look(s.disk, k) != Look(s.stored, k) {
        var c :| 0 <= c < |s.bufs| && s.bufs[c].K() == k && Pending(s, c);
        assert r.bufs[c].K() == k && Pending(r, c);
      }
    }
  }

  lemma ServeRequests(s: State, m: nat)
    requires Valid(s) && QueuesOk(s) && m < NR_BLK_DEV && s.queue[m] != []
    ensures var q := s.queue[m];
      Shaped(q[1..]) && (forall x | x in q[1..] :: x in q && (x.dev, x.block) != (q[0].dev, q[0].block)) &&
      (forall x | x in q && x != q[0] :: x in q[1..])
  {
    var q := s.queue[m];
    StepShaped(q, Finish);
    forall x | x in q[1..] ensures x in q && (x.dev, x.block) != (q[0].dev, q[0].block) {
      var i :| 0 <= i < |q[1..]| && q[1..][i] == x;
      assert q[i + 1] == x;
    }
  }

  /** The other requests are for other buffers. */
  lemma OtherRequests(s: State, m: nat, m': nat, x: Req)
    requires Valid(s) && QueuesOk(s) && m < NR_BLK_DEV && s.queue[m] != [] && m' < NR_BLK_DEV
    requires x in (if m' == m then s.queue[m][1..] else s.queue[m'])
    ensures ReqOk(s, m', x) && x.buffer != s.queue[m][0].buffer
  {
    assert ReqOk(s, m, s.queue[m][0]);
    ServeRequests(s, m);
    assert x in s.queue[m'];
  }

  lemma ServeQueues(s: State, m: nat)
    requires Inv(s) && m < NR_BLK_DEV && s.queue[m] != []
    ensures ReqOk(s, m, s.queue[m][0]) && QueuesOk(Serve(s, m))
  {
    var h := s.queue[m][0];
    assert ReqOk(s, m, h);
    var r := Serve(s, m);
    ServeRequests(s, m);
    assert forall c | 0 <= c < |s.bufs| && c != h.buffer :: r.bufs[c] == s.bufs[c];
    forall m', x | 0 <= m' < NR_BLK_DEV && x in r.queue[m'] ensures ReqOk(r, m', x) { OtherRequests(s, m, m', x); }
    forall c | 0 <= c < |r.bufs| && r.bufs[c].lock == InQueue ensures HasRequest(r, c) {
      ServeHasRequest(s, m, c);
    }
  }

  lemma ServeHasRequest(s: State, m: nat, c: nat)
    requires Valid(s) && QueuesOk(s) && m < NR_BLK_DEV && s.queue[m] != [] && s.queue[m][0].buffer < |s.bufs|
    requires c < |s.bufs| && c != s.queue[m][0].buffer && s.bufs[c].lock == InQueue
    ensures HasRequest(Serve(s, m), c)
  {
    var r := Serve(s, m);
    var d := Major(s.bufs[c].dev);
    assert HasRequest(s, c);
    var x :| x in s.queue[d] && x.buffer == c;
    if d == m {
      assert x != s.queue[m][0];
      InTail(s.queue[m], x);
    }
    assert x in r.queue[d] && r.bufs[c] == s.bufs[c];
  }

  lemma InTail(q: seq<Req>, x: Req)
    requires q != [] && x in q && x != q[0]
    ensures x in q[1..]
  {
  }

  /** When a block's only buffer is not pending, the disk holds the stored bytes. */
  lemma QuietIsSettled(s: State, b: nat)
    requires Inv(s) && b < |s.bufs| && s.bufs[b].dev != 0 && !Pending(s, b)
    ensures Look(s.disk, s.bufs[b].K()) == Look(s.stored, s.bufs[b].K())
  {
    OthersDiffer(s, b);
    assert Settled(s, s.bufs[b].K());
  }

  lemma ServeStep(s: State, m: nat)
    requires Inv(s) && Guard(s, Complete(m))
    ensures Inv(Serve(s, m))
  {
    var h := s.queue[m][0];
    var b := h.buffer;
    ServeQueues(s, m);
    var r := Serve(s, m);
    OthersDiffer(s, b);
    KeepUnique(s, r, b);
    assert BufOk(s, b);
    var k0 := s.bufs[b].K();
    if h.cmd != WRITE { QuietIsSettled(s, b); }
    assert Look(r.disk, k0) == Look(r.stored, k0);
    KeepBufs(s, r, b);
    forall k: Key | k.dev != 0 ensures Settled(r, k) {
      if k != k0 { KeepSettled(s, r, b, k); }
    }
  }

  // ----- every action, every run ----------------------------------------------------------

  lemma ActKeepsInv(s: State, a: Act)
    requires Inv(s) && Guard(s, a)
    ensures Inv(Apply(s, a))
  {
    match a
    case Ref(t, b) => TouchStep(s, b, s.bufs[b].(holders := s.bufs[b].holders + multiset{t}));
    case Unref(t, b) =>
      assert BufOk(s, b);
      TouchStep(s, b, s.bufs[b].(holders := s.bufs[b].holders - multiset{t}));
    case Claim(t, b, k) => ClaimStep(s, t, b, k);
    case LockBuf(t, b) => TouchStep(s, b, s.bufs[b].(lock := ByTask(t)));
    case UnlockBuf(t, b) =>
      assert BufOk(s, b);
      TouchStep(s, b, s.bufs[b].(lock := Free));
    case Enqueue(t, b, cmd, slot) => EnqueueStep(s, t, b, cmd, slot);
    case Modify(t, b, d) =>
      assert BufOk(s, b);
      StoreStep(s, b, s.bufs[b].(data := d, dirty := true), d);
    case Overwrite(t, b, d) => StoreStep(s, b, s.bufs[b].(data := d, dirty := true, uptodate := true), d);
    case Discard(t, b) => DiscardStep(s, t, b);
    case Complete(m) => ServeStep(s, m);
    case Advance(m) => AdvanceStep(s, m);
  }
}
