// The RAM disk: do_rd_request copies between the disk's bytes and the buffers' bytes until its queue is
// empty.  For requests that lie on the disk it is the device step of the buffer protocol.

module RamDisk {
  import opened Elevator
  import opened RequestList
  import opened BufferProtocol
  import opened BufferProofs
  import opened BufferTheorems

  const BLOCK: nat := 1024
  const MAJOR_NR: nat := 1
  const RAMDISK: nat := 0x101

  /** The bytes of the disk, the data of all buffers one after the other, and b_uptodate and b_lock. */
  datatype Rd = Rd(disk: seq<nat>, mem: seq<nat>, uptodate: seq<bool>, locked: seq<bool>)

  predicate Sized(s: Rd) { |s.uptodate| == |s.locked| && |s.mem| == BLOCK * |s.locked| }

  /** What make_request fills in; a request's byte offset fits a signed 32-bit word. */
  predicate Fit(r: Req, buffers: nat) { r.done == 0 && r.buffer < buffers && r.cmd <= WRITE && r.block < 0x20_0000 }

  /** The test of the minor number and of the end of the disk. */
  predicate OnDisk(r: Req, length: nat) { r.dev % 256 == 1 && (r.block + 1) * BLOCK <= length }

  /** memcpy(to + d, from + f, n) */
  function Copied(to: seq<nat>, d: nat, from: seq<nat>, f: nat, n: nat): (r: seq<nat>)
    requires d + n <= |to| && f + n <= |from|
    ensures |r| == |to|
    ensures forall i | 0 <= i < |r| :: r[i] == if d <= i < d + n then from[f + i - d] else to[i]
  {
    to[..d] + from[f..f + n] + to[d + n..]
  }

  /** One round of do_rd_request, with its end_request. */
  function Handle(s: Rd, r: Req): (t: Rd)
    requires Sized(s) && Fit(r, |s.locked|)
    ensures Sized(t) && |t.locked| == |s.locked| && |t.disk| == |s.disk|
  {
    var ok := OnDisk(r, |s.disk|);
    var t := s.(uptodate := s.uptodate[r.buffer := ok], locked := s.locked[r.buffer := false]);
    if !ok then t
    else if r.cmd == WRITE then t.(disk := Copied(s.disk, r.block * BLOCK, s.mem, r.buffer * BLOCK, BLOCK))
    else t.(mem := Copied(s.mem, r.buffer * BLOCK, s.disk, r.block * BLOCK, BLOCK))
  }

  function HandleAll(s: Rd, q: seq<Req>): (t: Rd)
    requires Sized(s) && forall r | r in q :: Fit(r, |s.locked|)
    ensures Sized(t) && |t.locked| == |s.locked| && |t.disk| == |s.disk|
    decreases |q|
  {
    if q == [] then s else HandleAll(Handle(s, q[0]), q[1..])
  }

  // ----- the device step of the protocol ------------------------------------------------------------------

  function Slice(bytes: seq<nat>, i: nat): (r: seq<nat>)
    requires (i + 1) * BLOCK <= |bytes|
    ensures |r| == BLOCK && forall k | 0 <= k < BLOCK :: r[k] == bytes[i * BLOCK + k]
  {
    bytes[i * BLOCK..(i + 1) * BLOCK]
  }

  /** Copying block f over block d changes that block only. */
  lemma CopiedSlice(to: seq<nat>, d: nat, from: seq<nat>, f: nat, i: nat)
    requires (d + 1) * BLOCK <= |to| && (f + 1) * BLOCK <= |from| && (i + 1) * BLOCK <= |to|
    ensures Slice(Copied(to, d * BLOCK, from, f * BLOCK, BLOCK), i) == if i == d then Slice(from, f) else Slice(to, i)
  {
    assert i < d ==> (i + 1) * BLOCK <= d * BLOCK;
    assert d < i ==> (d + 1) * BLOCK <= i * BLOCK;
  }

  predicate MatchesBuffer(d: Rd, s: State, b: nat)
    requires Sized(d) && |s.bufs| == |d.locked| && b < |s.bufs|
  {
    s.bufs[b].data == Slice(d.mem, b) && s.bufs[b].uptodate == d.uptodate[b] && (s.bufs[b].lock != Free <==> d.locked[b])
  }

  predicate MatchesBlock(d: Rd, s: State, k: nat) {
    (k + 1) * BLOCK <= |d.disk| ==> Look(s.disk, Key(RAMDISK, k)) == Slice(d.disk, k)
  }

  /** The bytes in memory are the data of the protocol's buffers and of the disk's blocks. */
  ghost predicate Matches(d: Rd, s: State) {
    && Sized(d) && |s.bufs| == |d.locked|
    && (forall b | 0 <= b < |s.bufs| :: MatchesBuffer(d, s, b))
    && forall k: nat :: MatchesBlock(d, s, k)
  }

  /** The buffers after a round, where the head request and its buffer are given. */
  lemma BuffersServed(d: Rd, s: State, r: Req)
    requires Valid(s) && Matches(d, s) && s.queue[MAJOR_NR] != [] && r == s.queue[MAJOR_NR][0]
    requires r.dev == RAMDISK && Fit(r, |d.locked|) && OnDisk(r, |d.disk|)
    ensures forall b | 0 <= b < |s.bufs| :: MatchesBuffer(Handle(d, r), Serve(s, MAJOR_NR), b)
  {
    var e, t := Handle(d, r), Serve(s, MAJOR_NR);
    assert MatchesBuffer(d, s, r.buffer) && MatchesBlock(d, s, r.block);
    hide Copied, Slice;
    forall b | 0 <= b < |s.bufs| ensures MatchesBuffer(e, t, b) {
      assert MatchesBuffer(d, s, b);
      if r.cmd != WRITE { CopiedSlice(d.mem, r.buffer, d.disk, r.block, b); }
    }
  }

  lemma BlocksServed(d: Rd, s: State, r: Req, k: nat)
    requires Valid(s) && Matches(d, s) && s.queue[MAJOR_NR] != [] && r == s.queue[MAJOR_NR][0]
    requires r.dev == RAMDISK && Fit(r, |d.locked|) && OnDisk(r, |d.disk|)
    ensures MatchesBlock(Handle(d, r), Serve(s, MAJOR_NR), k)
  {
    assert MatchesBlock(d, s, k) && MatchesBuffer(d, s, r.buffer);
    hide Copied, Slice;
    if r.cmd == WRITE && (k + 1) * BLOCK <= |d.disk| { CopiedSlice(d.disk, r.block, d.mem, r.buffer, k); }
  }

  /** A round for a request on the disk is the protocol's Complete. */
  lemma HandleServes(d: Rd, s: State)
    requires Inv(s) && Matches(d, s) && s.queue[MAJOR_NR] != []
    requires var r := s.queue[MAJOR_NR][0]; Fit(r, |d.locked|) && OnDisk(r, |d.disk|)
    ensures var r := s.queue[MAJOR_NR][0]; Guard(s, Complete(MAJOR_NR)) && Matches(Handle(d, r), Serve(s, MAJOR_NR))
  {
    var r := s.queue[MAJOR_NR][0];
    assert ReqOk(s, MAJOR_NR, r);
    hide Inv, MatchesBuffer, MatchesBlock;
    assert r.dev == RAMDISK;
    BuffersServed(d, s, r);
    var e, t := Handle(d, r), Serve(s, MAJOR_NR);
    forall k: nat ensures MatchesBlock(e, t, k) { BlocksServed(d, s, r, k); }
    hide Handle, Serve;
  }

  function Completes(n: nat): (a: seq<Act>)
    ensures |a| == n
  {
    seq(n, _ => Complete(MAJOR_NR))
  }

  /** The whole of do_rd_request serves the queue as so many protocol steps would. */
  lemma {:induction false} DeviceRefinesProtocol(d: Rd, s: State)
    requires Inv(s) && Matches(d, s)
    requires forall r | r in s.queue[MAJOR_NR] :: Fit(r, |d.locked|) && OnDisk(r, |d.disk|)
    ensures var q := s.queue[MAJOR_NR]; var t := Run(s, Completes(|q|));
      Inv(t) && t.queue[MAJOR_NR] == [] && Matches(HandleAll(d, q), t)
    decreases |s.queue[MAJOR_NR]|
  {
    var q := s.queue[MAJOR_NR];
    var acts := Completes(|q|);
    if q == [] {
      assert acts == [];
    } else {
      HandleServes(d, s);
      ActKeepsInv(s, Complete(MAJOR_NR));
      var t := Serve(s, MAJOR_NR);
      assert t.queue[MAJOR_NR] == q[1..] && acts[0] == Complete(MAJOR_NR) && acts[1..] == Completes(|q| - 1);
      hide Inv, Matches, Handle, Guard, Serve, Completes;
      DeviceRefinesProtocol(Handle(d, q[0]), t);
    }
  }

  // ----- requests beyond the disk ------------------------------------------------------------------------

  /** Another minor device than 1, or a block that is not wholly on the disk. */
  predicate Beyond(r: Req, length: nat) { r.dev % 256 != 1 || r.block * 1024 + 1024 > length }

  /** No other request is for the buffer of request k. */
  predicate Alone(q: seq<Req>, k: nat) { k < |q| && forall j | 0 <= j < |q| && j != k :: q[j].buffer != q[k].buffer }

  function Without(q: seq<Req>, k: nat): (rest: seq<Req>)
    requires k < |q|
    ensures forall r | r in rest :: r in q && (Alone(q, k) ==> r.buffer != q[k].buffer)
  {
    var rest := q[..k] + q[k + 1..];
    assert forall j | 0 <= j < |rest| :: rest[j] == if j < k then q[j] else q[j + 1];
    rest
  }

  /** The buffer is not up to date and not locked. */
  function Marked(s: Rd, b: nat): (t: Rd)
    requires Sized(s) && b < |s.locked|
    ensures Sized(t) && |t.locked| == |s.locked| && |t.disk| == |s.disk|
  {
    s.(uptodate := s.uptodate[b := false], locked := s.locked[b := false])
  }

  lemma MarkCommutes(s: Rd, r: Req, b: nat)
    requires Sized(s) && Fit(r, |s.locked|) && b < |s.locked| && r.buffer != b
    ensures Handle(Marked(s, b), r) == Marked(Handle(s, r), b)
  {
    hide Copied;
  }

  lemma {:induction false} MarkLater(s: Rd, q: seq<Req>, b: nat)
    requires Sized(s) && b < |s.locked| && forall r | r in q :: Fit(r, |s.locked|) && r.buffer != b
    ensures HandleAll(Marked(s, b), q) == Marked(HandleAll(s, q), b)
    decreases |q|
  {
    if q != [] {
      MarkCommutes(s, q[0], b);
      hide Handle, Marked;
      MarkLater(Handle(s, q[0]), q[1..], b);
    }
  }

  /** A request beyond the disk does nothing but mark its buffer: nothing is copied. */
  lemma {:induction false} BeyondIsRefused(s: Rd, q: seq<Req>, k: nat)
    requires Sized(s) && (forall r | r in q :: Fit(r, |s.locked|)) && Alone(q, k) && Beyond(q[k], |s.disk|)
    ensures q[k] in q && HandleAll(s, q) == Marked(HandleAll(s, Without(q, k)), q[k].buffer)
    decreases k
  {
    var b, rest := q[k].buffer, Without(q, k);
    if k == 0 {
      assert rest == q[1..] && Handle(s, q[0]) == Marked(s, b);
      hide Handle, Marked;
      MarkLater(s, rest, b);
    } else {
      hide Handle, Marked;
      assert rest[0] == q[0] && rest[1..] == Without(q[1..], k - 1);
      assert Alone(q[1..], k - 1) && q[1..][k - 1] == q[k];
      BeyondIsRefused(Handle(s, q[0]), q[1..], k - 1);
    }
  }

  /** Requests for other buffers leave the bytes of a buffer alone. */
  lemma {:induction false} BytesKept(s: Rd, q: seq<Req>, b: nat)
    requires Sized(s) && b < |s.locked| && forall r | r in q :: Fit(r, |s.locked|) && r.buffer != b
    ensures forall i | b * 1024 <= i < b * 1024 + 1024 :: HandleAll(s, q).mem[i] == s.mem[i]
    decreases |q|
  {
    if q != [] {
      var c := q[0].buffer;
      assert c < b ==> c * 1024 + 1024 <= b * 1024;
      assert b < c ==> b * 1024 + 1024 <= c * 1024;
      assert forall i | b * 1024 <= i < b * 1024 + 1024 :: Handle(s, q[0]).mem[i] == s.mem[i];
      hide Handle;
      BytesKept(Handle(s, q[0]), q[1..], b);
    }
  }

  predicate Refused(s: Rd, t: Rd, b: nat) {
    && Sized(s) && Sized(t) && |s.locked| == |t.locked| && b < |s.locked|
    && !t.uptodate[b] && !t.locked[b]
    && forall i | b * 1024 <= i < b * 1024 + 1024 :: t.mem[i] == s.mem[i]
  }

  lemma RefusedAtTheEnd(s: Rd, q: seq<Req>, k: nat)
    requires Sized(s) && (forall r | r in q :: Fit(r, |s.locked|)) && Alone(q, k) && Beyond(q[k], |s.disk|)
    ensures Refused(s, HandleAll(s, q), q[k].buffer)
  {
    var b, rest := q[k].buffer, Without(q, k);
    BeyondIsRefused(s, q, k);
    assert Fit(q[k], |s.locked|);
    BytesKept(s, rest, b);
    hide Handle, HandleAll;
  }

  // ----- the code ------------------------------------------------------------------------------------

  class Disk {
    const rd: array<nat>
    const mem: array<nat>
    const uptodate: array<bool>
    const locked: array<bool>
    const queue: RequestQueue

    ghost function Abs(): Rd
      reads rd, mem, uptodate, locked
    {
      Rd(rd[..], mem[..], uptodate[..], locked[..])
    }

    ghost predicate Apart() {
      && rd != mem && uptodate != locked && queue.request as object !in {rd as object, mem as object, uptodate as object, locked as object}
      && queue.next as object !in {rd as object, mem as object, uptodate as object, locked as object}
      && {rd as object, mem as object} !! {uptodate as object, locked as object}
    }

    ghost predicate Valid()
      reads this, rd, mem, uptodate, locked, queue, queue.next, queue.request
    {
      && Apart() && queue.Valid() && uptodate.Length == locked.Length && mem.Length == BLOCK * locked.Length
      && forall r | r in queue.Contents() :: Fit(r, locked.Length)
    }

    /** rd_init: a disk of zeros. */
    constructor (length: nat, buffers: nat)
      ensures Valid() && queue.Contents() == [] && |Abs().disk| == length && (forall i | 0 <= i < length :: Abs().disk[i] == 0)
    {
      rd := new nat[length](_ => 0);
      mem := new nat[BLOCK * buffers](_ => 0);
      uptodate := new bool[buffers](_ => false);
      locked := new bool[buffers](_ => false);
      queue := new RequestQueue(NR_REQUEST);
    }

    static method MemCpy(to: array<nat>, d: nat, from: array<nat>, f: nat, n: nat)
      requires to != from && d + n <= to.Length && f + n <= from.Length
      modifies to
      ensures to[..] == Copied(old(to[..]), d, from[..], f, n)
    {
      var i := 0;
      while i < n
        invariant i <= n && from[..] == old(from[..])
        invariant to[..] == Copied(old(to[..]), d, from[..], f, i)
      {
        ghost var was := to[..];
        to[d + i] := from[f + i];
        assert to[..] == was[d + i := from[f + i]];
        i := i + 1;
      }
    }

    /** The round of do_rd_request for the request r at the head. */
    method Serve(r: Req)
      requires Apart() && uptodate.Length == locked.Length && mem.Length == BLOCK * locked.Length && Fit(r, locked.Length)
      modifies rd, mem, uptodate, locked
      ensures Abs() == Handle(old(Abs()), r)
    {
      var ok := OnDisk(r, rd.Length);
      if ok {
        if r.cmd == WRITE {
          MemCpy(rd, r.block * BLOCK, mem, r.buffer * BLOCK, BLOCK);
        } else {
          MemCpy(mem, r.buffer * BLOCK, rd, r.block * BLOCK, BLOCK);
        }
      }
      uptodate[r.buffer] := ok;
      locked[r.buffer] := false;
    }

    /** do_rd_request */
    method DoRequest()
      requires Valid()
      modifies rd, mem, uptodate, locked, queue
      ensures Valid() && queue.Contents() == [] && Abs() == HandleAll(old(Abs()), old(queue.Contents()))
      ensures forall k | 0 <= k < |old(queue.Contents())| && Alone(old(queue.Contents()), k) && Beyond(old(queue.Contents()[k]), rd.Length) ::
        Refused(old(Abs()), Abs(), old(queue.Contents()[k].buffer))
    {
      ghost var s, q := Abs(), queue.Contents();
      forall k | 0 <= k < |q| && Alone(q, k) && Beyond(q[k], rd.Length) ensures Refused(s, HandleAll(s, q), q[k].buffer) {
        RefusedAtTheEnd(s, q, k);
      }
      hide Refused;
      while queue.current != NONE
        invariant Valid() && Sized(Abs()) && |Abs().locked| == locked.Length
        invariant HandleAll(s, q) == HandleAll(Abs(), queue.Contents())
        decreases |queue.list|
      {
        ghost var c, was := queue.Contents(), Abs();
        assert queue.list != [] && queue.current == queue.list[0];
        var r := queue.request[queue.current];
        assert c[0] == r && r in c;
        Serve(r);
        assert queue.Contents() == c;
        var served := queue.EndRequest();
        assert HandleAll(was, c) == HandleAll(Abs(), c[1..]);
      }
      assert queue.list == [];
    }
  }
}
