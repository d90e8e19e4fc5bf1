// The request queue of one block device: add_request's insertion, its shape, and the bound on
// how long a request can wait.

module Elevator {

  const READ: nat := 0
  const WRITE: nat := 1

  const DEVICES: nat := 0x1_0000          // b_dev is an unsigned short
  const SECTORS: nat := 0x1_0000_0000     // a sector number is an unsigned long

  /** A queued request for one 1024-byte block, `done` of whose two sectors have been moved.
      `buffer` and `slot` say which buffer and which element of request[] it is. */
  datatype Req = Req(cmd: nat, dev: nat, block: nat, done: nat, buffer: nat, slot: nat) {
    function Sector(): nat { 2 * block + done }

    predicate Bounded() { cmd <= WRITE && dev < DEVICES && 2 * block + 2 < SECTORS && done <= 1 }
  }

  predicate InOrder(a: Req, b: Req) {
    a.cmd < b.cmd || (a.cmd == b.cmd && (a.dev < b.dev || (a.dev == b.dev && a.Sector() < b.Sector())))
  }

  /** The position of a request in the finite order that IN_ORDER is. */
  function Rank(a: Req): nat { (a.cmd * DEVICES + a.dev) * SECTORS + a.Sector() }

  lemma RankOrders(a: Req, b: Req)
    requires a.Bounded() && b.Bounded()
    ensures InOrder(a, b) <==> Rank(a) < Rank(b)
  {
  }

  /** Where add_request's walk from element i on puts r. */
  function Position(q: seq<Req>, r: Req, i: nat): (p: nat)
    requires i < |q|
    ensures i < p <= |q|
    decreases |q| - i
  {
    if i + 1 == |q| then i + 1
    else if (InOrder(q[i], r) || !InOrder(q[i], q[i + 1])) && InOrder(r, q[i + 1]) then i + 1
    else Position(q, r, i + 1)
  }

  function Insert(q: seq<Req>, r: Req): (q': seq<Req>)
    ensures |q'| == |q| + 1
    ensures multiset(q') == multiset(q) + multiset{r}
    ensures q != [] ==> q'[0] == q[0]
  {
    if q == [] then [r]
    else
      var p := Position(q, r, 0);
      assert q == q[..p] + q[p..];
      q[..p] + [r] + q[p..]
  }

  /** Only the request being served has moved a sector, and no two requests are for one block. */
  predicate Proper(q: seq<Req>) {
    && (forall i | 0 <= i < |q| :: q[i].Bounded() && (i > 0 ==> q[i].done == 0))
    && (forall i, j | 0 <= i < j < |q| :: (q[i].dev, q[i].block) != (q[j].dev, q[j].block))
  }

  predicate Fresh(q: seq<Req>, r: Req) {
    r.Bounded() && r.done == 0 && forall i | 0 <= i < |q| :: (q[i].dev, q[i].block) != (r.dev, r.block)
  }

  lemma InsertedReq(q: seq<Req>, r: Req, i: nat)
    requires q != [] && i <= |q|
    ensures Insert(q, r)[i] == var p := Position(q, r, 0); if i < p then q[i] else if i == p then r else q[i - 1]
  {
  }

  lemma InsertProper(q: seq<Req>, r: Req)
    requires Proper(q) && Fresh(q, r)
    ensures Proper(Insert(q, r))
  {
    if q != [] {
      hide Position;
      var p := Position(q, r, 0);
      var q' := Insert(q, r);
      forall i | 0 <= i < |q'| ensures q'[i] == if i < p then q[i] else if i == p then r else q[i - 1] { InsertedReq(q, r, i); }
      assert 0 < p && |q'| == |q| + 1;
      hide Insert;
      forall i | 0 <= i < |q'| ensures q'[i].Bounded() && (i > 0 ==> q'[i].done == 0) {
        assert q'[i] == if i < p then q[i] else if i == p then r else q[i - 1];
      }
      forall i, j | 0 <= i < j < |q'| ensures (q'[i].dev, q'[i].block) != (q'[j].dev, q'[j].block) {
        assert q'[i] == if i < p then q[i] else if i == p then r else q[i - 1];
        assert q'[j] == if j < p then q[j] else if j == p then r else q[j - 1];
      }
    }
  }

  // ----- the same on ranks ---------------------------------------------------------------

  function Ranks(q: seq<Req>): (ks: seq<int>)
    ensures |ks| == |q| && forall i | 0 <= i < |q| :: ks[i] == Rank(q[i])
  {
    seq(|q|, i requires 0 <= i < |q| => Rank(q[i]))
  }

  function Stop(ks: seq<int>, r: int, i: nat): (p: nat)
    requires i < |ks|
    ensures i < p <= |ks|
    decreases |ks| - i
  {
    if i + 1 == |ks| then i + 1
    else if (ks[i] < r || !(ks[i] < ks[i + 1])) && r < ks[i + 1] then i + 1
    else Stop(ks, r, i + 1)
  }

  function Put(ks: seq<int>, r: int): seq<int> {
    if ks == [] then [r] else var p := Stop(ks, r, 0); ks[..p] + [r] + ks[p..]
  }

  predicate AllDistinct(ks: seq<int>) {
    forall i, j | 0 <= i < j < |ks| :: ks[i] != ks[j]
  }

  lemma {:induction false} StopIsPosition(q: seq<Req>, r: Req, i: nat)
    requires Proper(q) && r.Bounded() && i < |q|
    ensures Stop(Ranks(q), Rank(r), i) == Position(q, r, i)
    decreases |q| - i
  {
    if i + 1 < |q| {
      RankOrders(q[i], r); RankOrders(q[i], q[i + 1]); RankOrders(r, q[i + 1]);
      StopIsPosition(q, r, i + 1);
    }
  }

  lemma RankInjective(a: Req, b: Req)
    requires a.Bounded() && b.Bounded() && (a.dev, a.block) != (b.dev, b.block)
    ensures Rank(a) != Rank(b)
  {
    RankOrders(a, b); RankOrders(b, a);
  }

  lemma ProperRanks(q: seq<Req>)
    requires Proper(q)
    ensures AllDistinct(Ranks(q))
  {
    forall i, j | 0 <= i < j < |q| ensures Ranks(q)[i] != Ranks(q)[j] { RankInjective(q[i], q[j]); }
  }

  lemma FreshRank(q: seq<Req>, r: Req)
    requires Proper(q) && Fresh(q, r)
    ensures Rank(r) !in Ranks(q)
    ensures Put(Ranks(q), Rank(r)) == Ranks(Insert(q, r))
  {
    hide Rank, Stop, Position;
    forall i | 0 <= i < |q| ensures Ranks(q)[i] != Rank(r) { RankInjective(q[i], r); }
    if q != [] {
      StopIsPosition(q, r, 0);
      RanksPut(q, r, Position(q, r, 0));
    }
  }

  lemma RanksPut(q: seq<Req>, r: Req, p: nat)
    requires p <= |q|
    ensures Ranks(q)[..p] + [Rank(r)] + Ranks(q)[p..] == Ranks(q[..p] + [r] + q[p..])
  {
    hide Rank;
  }

  // ----- shape ---------------------------------------------------------------------------

  predicate Up(ks: seq<int>, lo: nat, hi: nat)
    requires lo <= hi <= |ks|
  {
    forall i, j | lo <= i < j < hi :: ks[i] < ks[j]
  }

  /** ks is the ascending run of its first d elements and then at most one more. */
  predicate Runs(ks: seq<int>, d: nat) {
    && d <= |ks| && (ks != [] ==> d > 0) && Up(ks, 0, d) && Up(ks, d, |ks|)
    && (0 < d < |ks| ==> ks[d] < ks[d - 1])
  }

  /** Where the walk stops, given the two runs: the whole behaviour of the elevator. */
  lemma {:induction false} StopInRuns(ks: seq<int>, r: int, d: nat, i: nat)
    requires AllDistinct(ks) && r !in ks && Runs(ks, d) && i < |ks|
    requires i < d ==> (ks[i] < r <==> ks[0] < r)
    requires d <= i ==> ks[i] < r
    ensures var p := Stop(ks, r, i);
      (p < d ==> ks[p - 1] < r < ks[p]) &&
      (p == d < |ks| ==> r < ks[d] < ks[d - 1]) &&
      (p == d == |ks| ==> (ks[d - 1] < r <==> ks[0] < r)) &&
      (d < p ==> ks[p - 1] < r && (p < |ks| ==> r < ks[p]))
    decreases |ks| - i
  {
    if i + 1 < |ks| && !((ks[i] < r || !(ks[i] < ks[i + 1])) && r < ks[i + 1]) {
      assert r != ks[i + 1] && r != ks[i];
      StopInRuns(ks, r, d, i + 1);
    }
  }

  function InsertAt(ks: seq<int>, r: int, p: nat): (q: seq<int>)
    requires p <= |ks|
    ensures |q| == |ks| + 1
    ensures forall i | 0 <= i < |q| :: q[i] == if i < p then ks[i] else if i == p then r else ks[i - 1]
  {
    ks[..p] + [r] + ks[p..]
  }

  lemma InsertUp(ks: seq<int>, r: int, p: nat, lo: nat, hi: nat)
    requires lo <= p <= hi <= |ks| && Up(ks, lo, hi)
    requires p > lo ==> ks[p - 1] < r
    requires p < hi ==> r < ks[p]
    ensures Up(InsertAt(ks, r, p), lo, hi + 1)
  {
    var q := InsertAt(ks, r, p);
    forall i, j | lo <= i < j < hi + 1 ensures q[i] < q[j] {
      if i < p - 1 { assert ks[i] < ks[p - 1]; }
      if p < j - 1 { assert ks[p] < ks[j - 1]; }
      if i < p < j && p < hi { assert ks[p - 1] < ks[p]; }
      if i < p && p < j && i < j - 1 { assert ks[i] < ks[j - 1]; }
    }
  }

  lemma ShiftUp(ks: seq<int>, r: int, p: nat, lo: nat, hi: nat)
    requires p <= |ks| && lo <= hi <= |ks| && Up(ks, lo, hi)
    ensures p <= lo ==> Up(InsertAt(ks, r, p), lo + 1, hi + 1)
    ensures hi <= p ==> Up(InsertAt(ks, r, p), lo, hi)
  {
  }

  lemma FirstGrows(ks: seq<int>, r: int, d: nat, p: nat)
    requires Runs(ks, d) && 0 < p <= d && ks[p - 1] < r && (if p < d then r < ks[p] else d == |ks|)
    ensures Runs(InsertAt(ks, r, p), d + 1)
  {
    hide Up;
    InsertUp(ks, r, p, 0, d);
    ShiftUp(ks, r, p, d, |ks|);
  }

  lemma SecondGrows(ks: seq<int>, r: int, d: nat, p: nat)
    requires Runs(ks, d) && 0 < d <= p <= |ks| && (p < |ks| ==> r < ks[p]) && (if d < p then ks[p - 1] < r else r < ks[d - 1])
    ensures Runs(InsertAt(ks, r, p), d)
  {
    hide Up;
    ShiftUp(ks, r, p, 0, d);
    InsertUp(ks, r, p, d, |ks|);
  }

  /** add_request keeps the two runs; the first one grows or stays. */
  lemma PutRuns(ks: seq<int>, r: int, d: nat) returns (d': nat)
    requires AllDistinct(ks) && r !in ks && Runs(ks, d)
    ensures Runs(Put(ks, r), d')
    ensures ks != [] ==> var p := Stop(ks, r, 0);
      d' == if p < d || (p == d == |ks| && ks[0] < r) then d + 1 else d
  {
    if ks == [] { return 1; }
    var p := Stop(ks, r, 0);
    StopInRuns(ks, r, d, 0);
    d' := if p < d || (p == d == |ks| && ks[0] < r) then d + 1 else d;
    assert Put(ks, r) == InsertAt(ks, r, p);
    assert d > 0 && r != ks[d - 1];
    hide Stop, Put, Up, Runs, AllDistinct;
    if d' == d + 1 { FirstGrows(ks, r, d, p); } else { SecondGrows(ks, r, d, p); }
  }

  /** end_request keeps them too. */
  lemma PopRuns(ks: seq<int>, d: nat)
    requires ks != [] && AllDistinct(ks) && Runs(ks, d)
    ensures Runs(ks[1..], if d == 1 then |ks| - 1 else d - 1) && AllDistinct(ks[1..])
  {
  }

  /** The head may advance as long as it passes no other element. */
  lemma AdvanceRuns(ks: seq<int>, d: nat, h: int)
    requires ks != [] && Runs(ks, d) && ks[0] <= h
    requires forall i | 0 < i < |ks| :: ks[0] < ks[i] <==> h < ks[i]
    requires forall i | 0 < i < |ks| :: h != ks[i]
    ensures Runs(ks[0 := h], d)
  {
  }

  // ----- waiting -------------------------------------------------------------------------

  /** The length of the first ascending run. */
  function FirstRun(ks: seq<int>): (d: nat)
    ensures d <= |ks| && (ks != [] ==> d > 0)
    ensures forall i | 0 <= i < d - 1 :: ks[i] < ks[i + 1]
    ensures d < |ks| ==> ks[d - 1] >= ks[d]
  {
    if |ks| <= 1 then |ks| else if ks[0] < ks[1] then
      var e := FirstRun(ks[1..]);
      assert forall i | 0 < i < e :: ks[i] == ks[1..][i - 1] && ks[i + 1] == ks[1..][i];
      1 + e
    else 1
  }

  lemma FirstRunIs(ks: seq<int>, d: nat)
    requires Runs(ks, d)
    ensures FirstRun(ks) == d
  {
    var e := FirstRun(ks);
    if e < |ks| { assert ks[e - 1] >= ks[e]; }
    if 0 < d < |ks| { assert ks[d - 1 + 1] < ks[d - 1]; }
  }

  /** How many keys can still be served before element i: those after the head up to it, or, if
      it is in the second run, those up to the end of the first run and then those up to it. */
  function Wait(ks: seq<int>, i: nat): int
    requires i < |ks|
  {
    var d := FirstRun(ks);
    if i < d then ks[i] - ks[0] else ks[d - 1] - ks[0] + ks[i] + 1
  }

  function WaitFrom(ks: seq<int>, d: nat, i: nat): int
    requires i < |ks| && 0 < d <= |ks|
  {
    if i < d then ks[i] - ks[0] else ks[d - 1] - ks[0] + ks[i] + 1
  }

  lemma WaitIs(ks: seq<int>, d: nat, i: nat)
    requires Runs(ks, d) && i < |ks|
    ensures Wait(ks, i) == WaitFrom(ks, d, i)
  {
    FirstRunIs(ks, d);
  }

  lemma InsertWait(ks: seq<int>, r: int, p: nat, d: nat, d': nat, i: nat)
    requires 0 < p <= |ks| && 0 < d <= |ks| && i < |ks|
    requires (d' == d + 1 && p <= d && (p == d ==> d == |ks|)) || (d' == d && d <= p)
    ensures var q := InsertAt(ks, r, p); var j := if i < p then i else i + 1;
      q[j] == ks[i] && WaitFrom(q, d', j) == WaitFrom(ks, d, i)
  {
  }

  /** Arrivals never make a waiting request wait longer. */
  lemma PutWait(ks: seq<int>, r: int, d: nat, i: nat)
    requires AllDistinct(ks) && r !in ks && Runs(ks, d) && i < |ks|
    ensures var p := Stop(ks, r, 0); var q := Put(ks, r); var j := if i < p then i else i + 1;
      |q| == |ks| + 1 && q[j] == ks[i] && Wait(q, j) == Wait(ks, i)
  {
    var p := Stop(ks, r, 0);
    var d' := PutRuns(ks, r, d);
    WaitIs(ks, d, i);
    WaitIs(InsertAt(ks, r, p), d', if i < p then i else i + 1);
    InsertWait(ks, r, p, d, d', i);
  }

  /** Each completion brings every other request strictly closer. */
  lemma PopWait(ks: seq<int>, d: nat, i: nat)
    requires AllDistinct(ks) && Runs(ks, d) && 0 < i < |ks| && forall k | k in ks :: k >= 0
    ensures 0 <= Wait(ks[1..], i - 1) < Wait(ks, i)
  {
    PopRuns(ks, d);
    var e := if d == 1 then |ks| - 1 else d - 1;
    WaitIs(ks, d, i);
    WaitIs(ks[1..], e, i - 1);
    assert ks[i] in ks && ks[0] in ks && ks[1] in ks;
    hide Wait;
    if d == 1 {
      assert ks[1] <= ks[i] by { if i > 1 { assert Up(ks, 1, |ks|); } }
    } else {
      assert ks[0] < ks[1] <= ks[d - 1];
      if i < d { assert ks[1] <= ks[i]; }
    }
  }

  lemma AdvanceWait(ks: seq<int>, d: nat, h: int, i: nat)
    requires ks != [] && Runs(ks, d) && ks[0] <= h && i < |ks|
    requires forall j | 0 < j < |ks| :: ks[0] < ks[j] <==> h < ks[j]
    requires forall j | 0 < j < |ks| :: h != ks[j]
    ensures i > 0 ==> Wait(ks[0 := h], i) <= Wait(ks, i)
    ensures i == 0 ==> Wait(ks[0 := h], i) == 0 == Wait(ks, i)
  {
    AdvanceRuns(ks, d, h);
    FirstRunIs(ks, d);
    FirstRunIs(ks[0 := h], d);
  }

  // ----- the queue over time -------------------------------------------------------------

  datatype Op = Arrive(r: Req) | Finish | Move

  /** add_request; end_request; the interrupt handler moving the head on to its second sector.
      A request for a block that is queued already cannot arrive. */
  function Step(q: seq<Req>, op: Op): seq<Req> {
    match op
    case Arrive(r) => if Fresh(q, r) then Insert(q, r) else q
    case Finish => if q == [] then q else q[1..]
    case Move => if q != [] && q[0].done == 0 then q[0 := q[0].(done := 1)] else q
  }

  function Steps(q: seq<Req>, ops: seq<Op>): seq<Req>
    decreases |ops|
  {
    if ops == [] then q else Steps(Step(q, ops[0]), ops[1..])
  }

  /** The queue is at most two ascending runs in IN_ORDER. */
  ghost predicate Shaped(q: seq<Req>) {
    Proper(q) && exists d :: Runs(Ranks(q), d)
  }

  lemma MoveRanks(q: seq<Req>)
    requires Proper(q) && q != [] && q[0].done == 0
    ensures var q' := Step(q, Move); var ks := Ranks(q);
      Proper(q') && Ranks(q') == ks[0 := ks[0] + 1] &&
      (forall i | 0 < i < |q| :: (ks[0] < ks[i] <==> ks[0] + 1 < ks[i]) && ks[0] + 1 != ks[i])
  {
    var q' := Step(q, Move);
    forall i | 0 < i < |q| ensures (Ranks(q)[0] < Ranks(q)[i] <==> Ranks(q)[0] + 1 < Ranks(q)[i]) && Ranks(q)[0] + 1 != Ranks(q)[i] {
      assert (q[0].dev, q[0].block) != (q[i].dev, q[i].block);
      RankInjective(q[0], q[i]);
      RankInjective(q'[0], q[i]);
    }
    assert Rank(q'[0]) == Rank(q[0]) + 1;
  }

  lemma ArriveShaped(q: seq<Req>, r: Req, d: nat) returns (d': nat)
    requires Proper(q) && Runs(Ranks(q), d) && Fresh(q, r)
    ensures Proper(Insert(q, r)) && Runs(Ranks(Insert(q, r)), d')
  {
    ProperRanks(q);
    InsertProper(q, r);
    FreshRank(q, r);
    d' := PutRuns(Ranks(q), Rank(r), d);
  }

  lemma FinishShaped(q: seq<Req>, d: nat) returns (d': nat)
    requires Proper(q) && q != [] && Runs(Ranks(q), d)
    ensures Proper(q[1..]) && Ranks(q[1..]) == Ranks(q)[1..] && Runs(Ranks(q[1..]), d')
  {
    ProperRanks(q);
    PopRuns(Ranks(q), d);
    assert Ranks(q[1..]) == Ranks(q)[1..];
    d' := if d == 1 then |q| - 1 else d - 1;
  }

  lemma MoveShaped(q: seq<Req>, d: nat)
    requires Proper(q) && q != [] && q[0].done == 0 && Runs(Ranks(q), d)
    ensures Proper(Step(q, Move)) && Runs(Ranks(Step(q, Move)), d)
  {
    MoveRanks(q);
    AdvanceRuns(Ranks(q), d, Ranks(q)[0] + 1);
  }

  /** add_request, end_request and the advancing head keep the shape. */
  lemma StepShaped(q: seq<Req>, op: Op)
    requires Shaped(q)
    ensures Shaped(Step(q, op))
  {
    var d :| Runs(Ranks(q), d);
    match op
    case Arrive(r) => if Fresh(q, r) { var e := ArriveShaped(q, r, d); }
    case Finish => if q != [] { var e := FinishShaped(q, d); }
    case Move => if q != [] && q[0].done == 0 { MoveShaped(q, d); }
  }

  /** Reads come before writes, then the lower device, then the lower block. */
  predicate Ascending(q: seq<Req>, lo: nat, hi: nat) {
    lo <= hi <= |q| &&
    forall i, j | lo <= i < j < hi ::
      q[i].cmd < q[j].cmd || (q[i].cmd == q[j].cmd && (q[i].dev < q[j].dev || (q[i].dev == q[j].dev && q[i].block < q[j].block)))
  }

  lemma UpAscends(q: seq<Req>, lo: nat, hi: nat)
    requires Proper(q) && lo <= hi <= |q| && Up(Ranks(q), lo, hi)
    ensures Ascending(q, lo, hi)
  {
    hide Rank;
    forall i, j | lo <= i < j < hi
      ensures q[i].cmd < q[j].cmd || (q[i].cmd == q[j].cmd && (q[i].dev < q[j].dev || (q[i].dev == q[j].dev && q[i].block < q[j].block)))
    {
      assert Ranks(q)[i] < Ranks(q)[j];
      RankOrders(q[i], q[j]);
      assert (q[i].dev, q[i].block) != (q[j].dev, q[j].block);
    }
  }

  /** What the shape means for the requests themselves. */
  lemma ShapeMeaning(q: seq<Req>)
    requires Shaped(q)
    ensures exists d :: Ascending(q, 0, d) && Ascending(q, d, |q|)
  {
    var d :| Runs(Ranks(q), d);
    UpAscends(q, 0, d);
    UpAscends(q, d, |q|);
  }

  /** At all times the queue is at most two ascending runs. */
  lemma {:induction false} AlwaysShaped(q: seq<Req>, ops: seq<Op>)
    requires Shaped(q)
    ensures Shaped(Steps(q, ops))
    decreases |ops|
  {
    if ops != [] {
      StepShaped(q, ops[0]);
      AlwaysShaped(Step(q, ops[0]), ops[1..]);
    }
  }

  // ----- no starvation -------------------------------------------------------------------

  predicate Queued(q: seq<Req>, dev: nat, block: nat) {
    exists i :: 0 <= i < |q| && q[i].dev == dev && q[i].block == block
  }

  /** The place of the request for the block. */
  function Place(q: seq<Req>, dev: nat, block: nat): (i: nat)
    requires Queued(q, dev, block)
    ensures i < |q| && q[i].dev == dev && q[i].block == block
  {
    if q[0].dev == dev && q[0].block == block then 0
    else
      assert Queued(q[1..], dev, block) by {
        var i :| 0 <= i < |q| && q[i].dev == dev && q[i].block == block;
        assert q[1..][i - 1] == q[i];
      }
      1 + Place(q[1..], dev, block)
  }

  function WaitOf(q: seq<Req>, dev: nat, block: nat): int
    requires Queued(q, dev, block)
  {
    Wait(Ranks(q), Place(q, dev, block))
  }

  lemma PlaceIs(q: seq<Req>, dev: nat, block: nat, i: nat)
    requires Proper(q) && i < |q| && q[i].dev == dev && q[i].block == block
    ensures Queued(q, dev, block) && Place(q, dev, block) == i
  {
    var j := Place(q, dev, block);
    assert (q[i].dev, q[i].block) == (q[j].dev, q[j].block);
  }

  lemma WaitNonNegative(q: seq<Req>, dev: nat, block: nat)
    requires Shaped(q) && Queued(q, dev, block)
    ensures WaitOf(q, dev, block) >= 0
  {
    var d :| Runs(Ranks(q), d);
    WaitIs(Ranks(q), d, Place(q, dev, block));
  }

  /** The request for the block is in the queue before, between and after the steps. */
  predicate Waits(q: seq<Req>, ops: seq<Op>, dev: nat, block: nat)
    decreases |ops|
  {
    Queued(q, dev, block) && (ops != [] ==> Waits(Step(q, ops[0]), ops[1..], dev, block))
  }

  function Finishes(ops: seq<Op>): nat {
    if ops == [] then 0 else (if ops[0].Finish? then 1 else 0) + Finishes(ops[1..])
  }

  lemma ArriveWait(q: seq<Req>, r: Req, d: nat, dev: nat, block: nat)
    requires Proper(q) && Runs(Ranks(q), d) && Fresh(q, r) && Queued(q, dev, block)
    ensures Queued(Insert(q, r), dev, block) && WaitOf(Insert(q, r), dev, block) == WaitOf(q, dev, block)
  {
    var ks := Ranks(q);
    var i := Place(q, dev, block);
    ProperRanks(q);
    InsertProper(q, r);
    FreshRank(q, r);
    PutWait(ks, Rank(r), d, i);
    StopIsPosition(q, r, 0);
    PlaceIs(Insert(q, r), dev, block, if i < Stop(ks, Rank(r), 0) then i else i + 1);
  }

  lemma FinishWait(q: seq<Req>, d: nat, dev: nat, block: nat)
    requires Proper(q) && q != [] && Runs(Ranks(q), d) && Queued(q, dev, block) && Queued(q[1..], dev, block)
    ensures WaitOf(q[1..], dev, block) < WaitOf(q, dev, block)
  {
    ProperRanks(q);
    var i := Place(q[1..], dev, block);
    assert q[i + 1] == q[1..][i];
    PlaceIs(q, dev, block, i + 1);
    assert Ranks(q[1..]) == Ranks(q)[1..];
    assert forall k | k in Ranks(q) :: k >= 0;
    hide Proper, Rank, Wait, Place, Runs, Queued;
    PopWait(Ranks(q), d, i + 1);
  }

  lemma MoveWait(q: seq<Req>, d: nat, dev: nat, block: nat)
    requires Proper(q) && q != [] && q[0].done == 0 && Runs(Ranks(q), d) && Queued(q, dev, block)
    ensures Queued(Step(q, Move), dev, block) && WaitOf(Step(q, Move), dev, block) <= WaitOf(q, dev, block)
  {
    var i := Place(q, dev, block);
    MoveRanks(q);
    AdvanceWait(Ranks(q), d, Ranks(q)[0] + 1, i);
    PlaceIs(Step(q, Move), dev, block, i);
  }

  lemma StepWait(q: seq<Req>, op: Op, dev: nat, block: nat)
    requires Shaped(q) && Queued(q, dev, block) && Queued(Step(q, op), dev, block)
    ensures WaitOf(Step(q, op), dev, block) + (if op.Finish? then 1 else 0) <= WaitOf(q, dev, block)
  {
    var d :| Runs(Ranks(q), d);
    match op
    case Arrive(r) => if Fresh(q, r) { ArriveWait(q, r, d, dev, block); }
    case Finish => FinishWait(q, d, dev, block);
    case Move => if q[0].done == 0 { MoveWait(q, d, dev, block); }
  }

  /** No starvation: while a request waits, at most as many others are completed as its measure
      says when it is queued, whatever arrives meanwhile. */
  lemma {:induction false} NoStarvation(q: seq<Req>, ops: seq<Op>, dev: nat, block: nat)
    requires Shaped(q) && Waits(q, ops, dev, block)
    ensures Finishes(ops) <= WaitOf(q, dev, block)
    decreases |ops|
  {
    if ops == [] {
      WaitNonNegative(q, dev, block);
    } else {
      StepShaped(q, ops[0]);
      StepWait(q, ops[0], dev, block);
      NoStarvation(Step(q, ops[0]), ops[1..], dev, block);
    }
  }

  /** The measure is bounded by twice the number of keys, whatever is queued. */
  lemma WaitBounded(q: seq<Req>, dev: nat, block: nat)
    requires Shaped(q) && Queued(q, dev, block)
    ensures 0 <= WaitOf(q, dev, block) < 4 * DEVICES * SECTORS
  {
    var ks := Ranks(q);
    var d :| Runs(ks, d);
    var i := Place(q, dev, block);
    WaitNonNegative(q, dev, block);
    WaitIs(ks, d, i);
    RankBounded(q[i]); RankBounded(q[d - 1]); RankBounded(q[0]);
  }

  lemma RankBounded(r: Req)
    requires r.Bounded()
    ensures 0 <= Rank(r) < 2 * DEVICES * SECTORS
  {
  }
}
