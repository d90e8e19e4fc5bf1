// The timer list of sched.c: each entry counts the ticks after the one before it.

module Timers {

  const TIME_REQUESTS: nat := 64

  datatype Timer = Timer(delta: int, fn: nat)

  /** A call of add_timer. */
  datatype Request = Request(jiffies: int, fn: nat)

  predicate Positive(l: seq<Timer>) { forall i | 0 <= i < |l| :: l[i].delta > 0 }

  /** The ticks until entry i is due to fire. */
  function Until(l: seq<Timer>, i: nat): int
    requires i < |l|
    decreases i
  {
    if i == 0 then l[0].delta else l[0].delta + Until(l[1..], i - 1)
  }

  /** Where a new timer goes: before the first entry not yet due when it is. */
  function Position(l: seq<Timer>, j: int): (p: nat)
    ensures p <= |l|
    decreases |l|
  {
    if l == [] || l[0].delta >= j then 0 else 1 + Position(l[1..], j - l[0].delta)
  }

  /** The swaps of add_timer, as what they leave: the new entry's delta is cut down on the way, the delta of
      the entry after it is not. */
  function Insert(l: seq<Timer>, j: int, fn: nat): (r: seq<Timer>)
    ensures |r| == |l| + 1
    decreases |l|
  {
    if l == [] || l[0].delta >= j then [Timer(j, fn)] + l else [l[0]] + Insert(l[1..], j - l[0].delta, fn)
  }

  lemma {:induction false} UntilSplit(a: Timer, l: seq<Timer>, i: nat)
    requires i < |l|
    ensures Until([a] + l, i + 1) == a.delta + Until(l, i)
  {
    assert ([a] + l)[1..] == l;
  }

  lemma {:induction false} InsertNew(l: seq<Timer>, j: int, fn: nat)
    requires Positive(l) && j > 0
    ensures var r := Insert(l, j, fn); var p := Position(l, j);
      Positive(r) && r[p].fn == fn && Until(r, p) == j && (forall i | 0 <= i < p :: r[i] == l[i]) && forall i | p <= i < |l| :: r[i + 1] == l[i]
    decreases |l|
  {
    if l != [] && l[0].delta < j {
      var m, k, p := l[1..], j - l[0].delta, Position(l, j);
      InsertNew(m, k, fn);
      var r, q := Insert(l, j, fn), Insert(m, k, fn);
      UntilSplit(l[0], q, p - 1);
      forall i | 0 <= i < p ensures r[i] == l[i] { assert i > 0 ==> q[i - 1] == m[i - 1]; }
      forall i | p <= i < |l| ensures r[i + 1] == l[i] { assert q[i - 1 + 1] == m[i - 1]; }
    }
  }

  lemma {:induction false} InsertUntil(l: seq<Timer>, j: int, fn: nat, i: nat)
    requires Positive(l) && j > 0 && i < |l|
    ensures var r := Insert(l, j, fn); var p := Position(l, j);
      if i < p then Until(r, i) == Until(l, i) else Until(r, i + 1) == Until(l, i) + r[p].delta
    decreases |l|
  {
    if l[0].delta >= j {
      UntilSplit(Timer(j, fn), l, i);
    } else {
      var m, k := l[1..], j - l[0].delta;
      var q := Insert(m, k, fn);
      assert l == [l[0]] + m;
      if i > 0 {
        InsertUntil(m, k, fn, i - 1);
        UntilSplit(l[0], q, i);
        UntilSplit(l[0], q, i - 1);
        UntilSplit(l[0], m, i - 1);
      }
    }
  }

  /** The new timer is due when asked; the order of the others is kept; those before it stay due when they
      were, and those after it become due later, by the new entry's own delta. */
  lemma InsertMeaning(l: seq<Timer>, j: int, fn: nat)
    requires Positive(l) && j > 0
    ensures var r := Insert(l, j, fn); var p := Position(l, j);
      Positive(r) && r[p].fn == fn && Until(r, p) == j &&
      (forall i | 0 <= i < p :: r[i] == l[i] && Until(r, i) == Until(l, i)) &&
      (forall i | p <= i < |l| :: r[i + 1] == l[i] && Until(r, i + 1) == Until(l, i) + r[p].delta)
  {
    InsertNew(l, j, fn);
    hide Insert, Position, Until;
    var r, p := Insert(l, j, fn), Position(l, j);
    forall i | 0 <= i < p ensures Until(r, i) == Until(l, i) { InsertUntil(l, j, fn, i); }
    forall i | p <= i < |l| ensures Until(r, i + 1) == Until(l, i) + r[p].delta { InsertUntil(l, j, fn, i); }
  }

  // ----- runs: when timers fire ------------------------------------------------------------------

  /** `due` is the earliest time each entry may fire, `log` the timers fired so far as (due, time). */
  datatype Clock = Clock(list: seq<Timer>, due: seq<nat>, now: nat, log: seq<(nat, nat)>)

  datatype Event = Add(r: Request) | Tick

  /** What the functions do: the timers each sets, in order.  A function called at once may set a timer that is
      called at once, and so on; calls nest up to `depth`, which stands for the kernel stack. */
  datatype Functions = Functions(calls: nat -> seq<Request>, depth: nat)

  /** add_timer: without a function nothing, without a delay a call, else an entry of the list. */
  function AddTo(c: Clock, r: Request, fs: Functions): (d: Clock)
    requires |c.due| == |c.list|
    ensures |d.due| == |d.list|
    decreases fs.depth, 0
  {
    if r.fn == 0 then c
    else if r.jiffies <= 0 then
      if fs.depth == 0 then c else AddAll(c, fs.calls(r.fn), fs.(depth := fs.depth - 1))
    else
      var p := Position(c.list, r.jiffies);
      c.(list := Insert(c.list, r.jiffies, r.fn), due := c.due[..p] + [c.now + r.jiffies] + c.due[p..])
  }

  function AddAll(c: Clock, rs: seq<Request>, fs: Functions): (d: Clock)
    requires |c.due| == |c.list|
    ensures |d.due| == |d.list|
    decreases fs.depth, |rs| + 1
  {
    if rs == [] then c else AddAll(AddTo(c, rs[0], fs), rs[1..], fs)
  }

  /** do_timer's loop: while the head is due, take it off and call it. */
  function FireAll(c: Clock, fs: Functions, fuel: nat): (d: Clock)
    requires |c.due| == |c.list|
    ensures |d.due| == |d.list|
    decreases fuel
  {
    if fuel == 0 || c.list == [] || c.list[0].delta > 0 then c
    else
      var d := c.(list := c.list[1..], due := c.due[1..], log := c.log + [(c.due[0], c.now)]);
      FireAll(AddAll(d, fs.calls(c.list[0].fn), fs), fs, fuel - 1)
  }

  function Decrement(l: seq<Timer>): seq<Timer> {
    if l == [] then l else [l[0].(delta := l[0].delta - 1)] + l[1..]
  }

  function Next(c: Clock, e: Event, fs: Functions): (d: Clock)
    requires |c.due| == |c.list|
    ensures |d.due| == |d.list|
  {
    match e
    case Add(r) => AddTo(c, r, fs)
    case Tick =>
      var d := c.(list := Decrement(c.list), now := c.now + 1);
      FireAll(d, fs, |d.list| + 1)
  }

  /** No entry is due before its time. */
  predicate NotEarly(c: Clock)
    requires |c.due| == |c.list|
  {
    forall i | 0 <= i < |c.list| :: c.due[i] <= c.now + Until(c.list, i)
  }

  predicate LogOk(log: seq<(nat, nat)>) { forall k | 0 <= k < |log| :: log[k].0 <= log[k].1 }

  predicate Good(c: Clock) {
    |c.due| == |c.list| && Positive(c.list) && NotEarly(c) && LogOk(c.log)
  }

  lemma {:induction false} AddGood(c: Clock, r: Request, fs: Functions)
    requires Good(c)
    ensures Good(AddTo(c, r, fs))
    decreases fs.depth, 0
  {
    if r.fn != 0 && r.jiffies <= 0 && fs.depth > 0 {
      AddAllGood(c, fs.calls(r.fn), fs.(depth := fs.depth - 1));
    }
    if r.fn != 0 && r.jiffies > 0 {
      InsertMeaning(c.list, r.jiffies, r.fn);
      var d, p := AddTo(c, r, fs), Position(c.list, r.jiffies);
      forall i | 0 <= i < |d.list| ensures d.due[i] <= d.now + Until(d.list, i) {
        if i < p {
          assert c.due[i] <= c.now + Until(c.list, i);
        } else if i > p {
          assert c.due[i - 1] <= c.now + Until(c.list, i - 1);
          assert Until(d.list, i - 1 + 1) == Until(c.list, i - 1) + d.list[p].delta;
        }
      }
    }
  }

  lemma {:induction false} AddAllGood(c: Clock, rs: seq<Request>, fs: Functions)
    requires Good(c)
    ensures Good(AddAll(c, rs, fs))
    decreases fs.depth, |rs| + 1
  {
    if rs != [] {
      AddGood(c, rs[0], fs);
      AddAllGood(AddTo(c, rs[0], fs), rs[1..], fs);
    }
  }

  /** The head taken off and logged, one tick later. */
  function Popped(c: Clock): Clock
    requires c.list != [] && c.due != []
  {
    Clock(c.list[1..], c.due[1..], c.now + 1, c.log + [(c.due[0], c.now + 1)])
  }

  lemma TickIs(c: Clock, fs: Functions)
    requires Good(c) && c.list != []
    ensures c.list[0].delta > 1 ==> Next(c, Tick, fs) == c.(list := Decrement(c.list), now := c.now + 1)
    ensures c.list[0].delta == 1 ==> Good(Popped(c)) && Next(c, Tick, fs) == AddAll(Popped(c), fs.calls(c.list[0].fn), fs)
  {
    var l := Decrement(c.list);
    var d := c.(list := l, now := c.now + 1);
    assert l[1..] == c.list[1..];
    if l[0].delta <= 0 {
      var e := Popped(c);
      PoppedGood(c);
      AddAllGood(e, fs.calls(l[0].fn), fs);
      var f := AddAll(e, fs.calls(l[0].fn), fs);
      assert FireAll(f, fs, |l|) == f;
    }
  }

  lemma PoppedGood(c: Clock)
    requires Good(c) && c.list != [] && c.list[0].delta == 1
    ensures Good(Popped(c))
  {
    var e := Popped(c);
    forall i | 0 <= i < |e.list| ensures e.due[i] <= e.now + Until(e.list, i) {
      assert c.due[i + 1] <= c.now + Until(c.list, i + 1);
    }
    assert c.due[0] <= c.now + Until(c.list, 0);
  }

  lemma DecrementGood(c: Clock)
    requires Good(c) && c.list != [] && c.list[0].delta > 1
    ensures Good(c.(list := Decrement(c.list), now := c.now + 1))
  {
    var l := Decrement(c.list);
    assert l[1..] == c.list[1..];
    forall i | 0 <= i < |l| ensures c.due[i] <= c.now + 1 + Until(l, i) {
      assert c.due[i] <= c.now + Until(c.list, i);
      assert Until(l, i) == Until(c.list, i) - 1;
    }
  }

  /** A tick fires at most the head, and never early; its callback's new timers wait at least a tick. */
  lemma TickGood(c: Clock, fs: Functions)
    requires Good(c)
    ensures Good(Next(c, Tick, fs))
    ensures Next(c, Tick, fs).list == [] || Next(c, Tick, fs).list[0].delta > 0
    ensures |Next(c, Tick, fs).log| == |c.log| + if c.list != [] && c.list[0].delta == 1 then 1 else 0
  {
    if c.list != [] {
      TickIs(c, fs);
      if c.list[0].delta == 1 {
        AddAllGood(Popped(c), fs.calls(c.list[0].fn), fs);
        AddAllLog(Popped(c), fs.calls(c.list[0].fn), fs);
      } else {
        DecrementGood(c);
      }
    } else {
      assert Next(c, Tick, fs) == c.(now := c.now + 1);
    }
  }

  lemma {:induction false} AddAllLog(c: Clock, rs: seq<Request>, fs: Functions)
    requires |c.due| == |c.list|
    ensures AddAll(c, rs, fs).log == c.log && AddAll(c, rs, fs).now == c.now
    decreases fs.depth, |rs| + 1
  {
    if rs != [] {
      AddLog(c, rs[0], fs);
      AddAllLog(AddTo(c, rs[0], fs), rs[1..], fs);
    }
  }

  lemma {:induction false} AddLog(c: Clock, r: Request, fs: Functions)
    requires |c.due| == |c.list|
    ensures AddTo(c, r, fs).log == c.log && AddTo(c, r, fs).now == c.now
    decreases fs.depth, 0
  {
    if r.fn != 0 && r.jiffies <= 0 && fs.depth > 0 { AddAllLog(c, fs.calls(r.fn), fs.(depth := fs.depth - 1)); }
  }

  function Run(c: Clock, es: seq<Event>, fs: Functions): (d: Clock)
    requires |c.due| == |c.list|
    ensures |d.due| == |d.list|
    decreases |es|
  {
    if es == [] then c else Run(Next(c, es[0], fs), es[1..], fs)
  }

  /** Over any run of new timers, ticks and callbacks that set further timers, at once or later, no timer fires
      early. */
  lemma {:induction false} NeverEarly(c: Clock, es: seq<Event>, fs: Functions)
    requires Good(c)
    ensures Good(Run(c, es, fs))
    decreases |es|
  {
    if es != [] {
      match es[0] {
        case Add(r) => AddGood(c, r, fs);
        case Tick => TickGood(c, fs);
      }
      NeverEarly(Next(c, es[0], fs), es[1..], fs);
    }
  }

  /** Left alone, the head of the list fires on exactly the tick it counts to. */
  lemma {:induction false} FiresOnTime(c: Clock, fs: Functions, n: nat)
    requires Good(c) && c.list != [] && n == c.list[0].delta
    ensures var d := Run(c, Ticks(n), fs); |d.log| == |c.log| + 1 && d.log[|c.log|] == (c.due[0], c.now + n)
    decreases n
  {
    TickGood(c, fs);
    TickIs(c, fs);
    var d := Next(c, Tick, fs);
    assert Ticks(n)[0] == Tick && Ticks(n)[1..] == Ticks(n - 1);
    assert Run(c, Ticks(n), fs) == Run(d, Ticks(n - 1), fs);
    if n > 1 {
      FiresOnTime(d, fs, n - 1);
    } else {
      AddAllLog(Popped(c), fs.calls(c.list[0].fn), fs);
    }
  }

  function Ticks(n: nat): (es: seq<Event>)
    ensures |es| == n
  {
    seq(n, _ => Tick)
  }

  // ----- the code ------------------------------------------------------------------------------------

  /** timer_list: slots with a function in use, 0 standing for NULL; next pointers are slot + 1. */
  class TimerList {
    const jiffies: array<int>
    const fn: array<nat>
    const next: array<nat>
    var nextTimer: nat
    ghost var nodes: seq<nat>

    static predicate Nodes(nodes: seq<nat>) {
      (forall i | 0 <= i < |nodes| :: nodes[i] < TIME_REQUESTS) && forall i, j | 0 <= i < j < |nodes| :: nodes[i] != nodes[j]
    }

    /** Exactly the slots on the list hold functions. */
    static ghost predicate Uses(fs: seq<nat>, nodes: seq<nat>) {
      && |fs| == TIME_REQUESTS && Nodes(nodes)
      && (forall s: nat | s < TIME_REQUESTS && fs[s] != 0 :: s in nodes)
      && forall i | 0 <= i < |nodes| :: fs[nodes[i]] != 0
    }

    static ghost predicate Chain(nodes: seq<nat>, nx: seq<nat>, first: nat) {
      && |nx| == TIME_REQUESTS && Nodes(nodes) && first == Link(nodes, 0)
      && (forall i {:trigger nx[nodes[i]]} | 0 <= i < |nodes| :: nx[nodes[i]] == Link(nodes, i + 1))
    }

    ghost predicate Linked()
      reads this, next
    {
      Chain(nodes, next[..], nextTimer)
    }

    static lemma ChainFront(nodes: seq<nat>, nx: seq<nat>, first: nat, p: nat)
      requires Chain(nodes, nx, first) && p < TIME_REQUESTS && p !in nodes && Nodes([p] + nodes)
      ensures Chain([p] + nodes, nx[p := first], p + 1)
    {
      var all, n := [p] + nodes, nx[p := first];
      forall i {:trigger n[all[i]]} | 0 <= i < |all| ensures n[all[i]] == Link(all, i + 1) {
        if i > 0 { assert nx[nodes[i - 1]] == Link(nodes, i) && all[i] != p; }
      }
    }

    static lemma ChainRest(nodes: seq<nat>, nx: seq<nat>, first: nat)
      requires Chain(nodes, nx, first) && nodes != []
      ensures Chain(nodes[1..], nx, nx[nodes[0]])
    {
      var rest := nodes[1..];
      assert nx[nodes[0]] == Link(nodes, 1);
      forall i {:trigger nx[rest[i]]} | 0 <= i < |rest| ensures nx[rest[i]] == Link(rest, i + 1) {
        assert nx[nodes[i + 1]] == Link(nodes, i + 2);
      }
    }

    ghost predicate Valid()
      reads this, jiffies, fn, next
    {
      && jiffies.Length == fn.Length == TIME_REQUESTS && Linked()
      && jiffies as object != fn && jiffies as object != next && fn != next
      && Uses(fn[..], nodes)
      && Positive(List())
    }

    ghost function List(): (l: seq<Timer>)
      reads this, jiffies, fn
      requires jiffies.Length == fn.Length == TIME_REQUESTS && Nodes(nodes)
      ensures |l| == |nodes| && forall i | 0 <= i < |l| :: l[i] == Timer(jiffies[nodes[i]], fn[nodes[i]])
    {
      ListOf(nodes, jiffies[..], fn[..])
    }

    static ghost function ListOf(nodes: seq<nat>, js: seq<int>, fs: seq<nat>): (l: seq<Timer>)
      requires |js| == |fs| == TIME_REQUESTS && Nodes(nodes)
      ensures |l| == |nodes| && forall i | 0 <= i < |l| :: l[i] == Timer(js[nodes[i]], fs[nodes[i]])
    {
      if nodes == [] then [] else [Timer(js[nodes[0]], fs[nodes[0]])] + ListOf(nodes[1..], js, fs)
    }

    static lemma FrontList(nodes: seq<nat>, js: seq<int>, fs: seq<nat>, p: nat, j: int, f: nat)
      requires |js| == |fs| == TIME_REQUESTS && p < TIME_REQUESTS && p !in nodes && Nodes(nodes)
      ensures Nodes([p] + nodes) && ListOf([p] + nodes, js[p := j], fs[p := f]) == Sunk(ListOf(nodes, js, fs), 0, j, f)
    {
      var a, b := ListOf([p] + nodes, js[p := j], fs[p := f]), Sunk(ListOf(nodes, js, fs), 0, j, f);
      forall i | 0 <= i < |a| ensures a[i] == b[i] {
        if i > 0 { assert nodes[i - 1] in nodes; }
      }
    }

    static function Link(nodes: seq<nat>, i: nat): nat { if i < |nodes| then nodes[i] + 1 else 0 }

    constructor ()
      ensures Valid() && List() == []
    {
      jiffies := new int[TIME_REQUESTS](_ => 0);
      fn := new nat[TIME_REQUESTS](_ => 0);
      next := new nat[TIME_REQUESTS](_ => 0);
      nextTimer := 0;
      nodes := [];
    }
  
    /** The search for a free slot; the original panics when there is none. */
    method FindSlot() returns (s: nat)
      requires Valid() && |nodes| < TIME_REQUESTS
      ensures s < TIME_REQUESTS && fn[s] == 0 && s !in nodes
    {
      s := 0;
      while s < TIME_REQUESTS && fn[s] != 0
        invariant s <= TIME_REQUESTS && forall k | 0 <= k < s :: fn[k] != 0
      {
        s := s + 1;
      }
      if s == TIME_REQUESTS {
        forall k | 0 <= k < TIME_REQUESTS ensures k in nodes { assert fn[..][k] != 0; }
        Full(nodes, TIME_REQUESTS);
      } else {
        assert fn[..][s] == 0;
      }
    }

    static lemma {:induction false} Full(l: seq<nat>, n: nat)
      requires forall k | 0 <= k < n :: k in l
      ensures |l| >= n
      decreases n
    {
      if n > 0 {
        assert n - 1 in l;
        var i :| 0 <= i < |l| && l[i] == n - 1;
        var m := l[..i] + l[i + 1..];
        forall k | 0 <= k < n - 1 ensures k in m {
          assert k in l;
          var j :| 0 <= j < |l| && l[j] == k;
          assert m[if j < i then j else j - 1] == k;
        }
        Full(m, n - 1);
      }
    }

    /** Entries k and k + 1 change places, and the one that moves down loses the delta of the other. */
    static function Swapped(l: seq<Timer>, k: nat): (r: seq<Timer>)
      requires k + 1 < |l|
      ensures |r| == |l| && forall i | 0 <= i < |l| ::
        r[i] == if i == k then l[k + 1] else if i == k + 1 then Timer(l[k].delta - l[k + 1].delta, l[k].fn) else l[i]
    {
      l[k := l[k + 1]][k + 1 := Timer(l[k].delta - l[k + 1].delta, l[k].fn)]
    }

    static lemma SwapList(nodes: seq<nat>, js: seq<int>, fs: seq<nat>, js': seq<int>, fs': seq<nat>, p: nat, q: nat, k: nat)
      requires |js| == |fs| == TIME_REQUESTS && k + 1 < |nodes| && Nodes(nodes) && p == nodes[k] && q == nodes[k + 1] && p != q
      requires js' == js[p := js[q]][q := js[p] - js[q]] && fs' == fs[p := fs[q]][q := fs[p]]
      ensures ListOf(nodes, js', fs') == Swapped(ListOf(nodes, js, fs), k)
    {
      var a, b := ListOf(nodes, js', fs'), Swapped(ListOf(nodes, js, fs), k);
      forall i | 0 <= i < |a| ensures a[i] == b[i] { SwapAt(nodes, js, fs, js', fs', p, q, k, i); }
    }

    static lemma SwapAt(nodes: seq<nat>, js: seq<int>, fs: seq<nat>, js': seq<int>, fs': seq<nat>, p: nat, q: nat, k: nat, i: nat)
      requires |js| == |fs| == TIME_REQUESTS && k + 1 < |nodes| && Nodes(nodes) && i < |nodes| && p == nodes[k] && q == nodes[k + 1] && p != q
      requires js' == js[p := js[q]][q := js[p] - js[q]] && fs' == fs[p := fs[q]][q := fs[p]]
      ensures var l := ListOf(nodes, js, fs);
        ListOf(nodes, js', fs')[i] == if i == k then l[k + 1] else if i == k + 1 then Timer(l[k].delta - l[k + 1].delta, l[k].fn) else l[i]
    {
      hide ListOf;
      var x := nodes[i];
      if i == k {
        assert js'[x] == js[q] && fs'[x] == fs[q];
      } else if i == k + 1 {
        assert js'[x] == js[p] - js[q] && fs'[x] == fs[p];
      } else {
        assert x != p && x != q;
        assert js'[x] == js[x] && fs'[x] == fs[x];
      }
    }

    /** The body of add_timer's loop, at node k. */
    method SwapDown(p: nat, ghost k: nat)
      requires jiffies.Length == fn.Length == TIME_REQUESTS && next.Length == TIME_REQUESTS && Nodes(nodes) && k + 1 < |nodes|
      requires p == nodes[k] && next[p] == nodes[k + 1] + 1
      requires jiffies as object != fn && jiffies as object != next && fn != next
      modifies jiffies, fn
      ensures List() == Swapped(old(List()), k)
      ensures forall s | 0 <= s < TIME_REQUESTS && s != p && s != nodes[k + 1] :: fn[s] == old(fn[s])
    {
      var q := next[p] - 1;
      assert q == nodes[k + 1] && q != p;
      ghost var js, fs := jiffies[..], fn[..];
      SwapList(nodes, js, fs, js[p := js[q]][q := js[p] - js[q]], fs[p := fs[q]][q := fs[p]], p, q, k);
      hide ListOf, Nodes, Swapped;
      jiffies[p] := jiffies[p] - jiffies[q];
      fn[p], fn[q] := fn[q], fn[p];
      jiffies[p], jiffies[q] := jiffies[q], jiffies[p];
      assert jiffies[..] == js[p := js[q]][q := js[p] - js[q]];
    }

    /** The list with the new entry sunk to place k, what is left of its delay being d. */
    static function Sunk(l: seq<Timer>, k: nat, d: int, f: nat): (r: seq<Timer>)
      requires k <= |l|
      ensures |r| == |l| + 1
    {
      l[..k] + [Timer(d, f)] + l[k..]
    }

    /** What the list will be once the entry at place k has sunk all the way. */
    static function Settled(l: seq<Timer>, k: nat, d: int, f: nat): seq<Timer>
      requires k <= |l|
    {
      l[..k] + Insert(l[k..], d, f)
    }

    static lemma SinkOne(l: seq<Timer>, k: nat, d: int, f: nat)
      requires k < |l|
      ensures var s := Sunk(l, k, d, f);
        s[k] == Timer(d, f) && s[k + 1] == l[k] &&
        Swapped(s, k) == Sunk(l, k + 1, d - l[k].delta, f)
      ensures l[k].delta < d ==> Settled(l, k + 1, d - l[k].delta, f) == Settled(l, k, d, f)
    {
      assert l[k..] == [l[k]] + l[k + 1..] && l[k..][1..] == l[k + 1..];
    }

    /** A free slot becomes the front of the list. */
    method Enlist(p: nat, j: int, f: nat)
      requires jiffies.Length == fn.Length == TIME_REQUESTS && Linked() && p < TIME_REQUESTS && p !in nodes && f != 0
      requires jiffies as object != fn && jiffies as object != next && fn != next
      modifies this, jiffies, fn, next
      ensures jiffies.Length == fn.Length == TIME_REQUESTS && Linked() && List() == Sunk(old(List()), 0, j, f)
      ensures nodes == [p] + old(nodes) && fn[..] == old(fn[..])[p := f]
    {
      FrontList(nodes, jiffies[..], fn[..], p, j, f);
      ChainFront(nodes, next[..], nextTimer, p);
      hide ListOf, Sunk, Nodes, Chain;
      fn[p] := f;
      jiffies[p] := j;
      next[p] := nextTimer;
      nextTimer := p + 1;
      nodes := [p] + nodes;
    }

    /** Slots that are not on the list keep their functions. */
    static ghost predicate Outside(fs: seq<nat>, fs': seq<nat>, nodes: seq<nat>) {
      |fs'| == |fs| && forall s: nat | s < |fs| && s !in nodes :: fs'[s] == fs[s]
    }

    static lemma OutsideSame(fs: seq<nat>, nodes: seq<nat>)
      ensures Outside(fs, fs, nodes)
    {
    }

    static lemma OutsideTwice(a: seq<nat>, b: seq<nat>, c: seq<nat>, nodes: seq<nat>)
      requires Outside(a, b, nodes) && Outside(b, c, nodes)
      ensures Outside(a, c, nodes)
    {
    }

    /** One round: the entry at place k sinks below a timer that is due before it. */
    method SinkRound(p: nat, f: nat, ghost l: seq<Timer>, ghost k: nat) returns (q: nat)
      requires jiffies.Length == fn.Length == TIME_REQUESTS && Linked() && k < |l| && |nodes| == |l| + 1 && p == nodes[k] && p < TIME_REQUESTS
      requires jiffies as object != fn && jiffies as object != next && fn != next
      requires List() == Sunk(l, k, jiffies[p], f) && l[k].delta < jiffies[p]
      modifies jiffies, fn
      ensures q == nodes[k + 1] < TIME_REQUESTS && List() == Sunk(l, k + 1, jiffies[q], f)
      ensures Settled(l, k + 1, jiffies[q], f) == Settled(l, k, old(jiffies[p]), f)
      ensures Outside(old(fn[..]), fn[..], nodes)
    {
      NodeAt(k);
      hide Sunk, ListOf, Swapped, Chain, Settled;
      ghost var d := jiffies[p];
      SinkOne(l, k, d, f);
      SinkLast(l, k + 1, d - l[k].delta, f);
      SwapDown(p, k);
      q := next[p] - 1;
      assert List()[k + 1] == Timer(jiffies[q], fn[q]);
    }

    /** The loop's condition: the next timer is due before the entry at place k. */
    method MustSink(p: nat, f: nat, ghost l: seq<Timer>, ghost k: nat) returns (b: bool)
      requires jiffies.Length == fn.Length == TIME_REQUESTS && Linked() && k <= |l| && |nodes| == |l| + 1 && p == nodes[k] && p < TIME_REQUESTS
      requires List() == Sunk(l, k, jiffies[p], f)
      ensures b <==> k < |l| && l[k].delta < jiffies[p]
    {
      NodeAt(k);
      SinkLast(l, k, jiffies[p], f);
      hide Sunk, ListOf, Chain;
      b := next[p] != 0 && jiffies[next[p] - 1] < jiffies[p];
      if k < |l| { assert List()[k + 1].delta == jiffies[nodes[k + 1]]; }
    }

    /** The loop of add_timer. */
    method Sink(p0: nat, j: int, f: nat, ghost l: seq<Timer>)
      requires jiffies.Length == fn.Length == TIME_REQUESTS && Linked() && |nodes| == |l| + 1 && p0 == nodes[0] && List() == Sunk(l, 0, j, f)
      requires jiffies as object != fn && jiffies as object != next && fn != next
      modifies jiffies, fn
      ensures Linked() && List() == Insert(l, j, f)
      ensures Outside(old(fn[..]), fn[..], nodes)
    {
      NodeAt(0);
      SinkLast(l, 0, j, f);
      OutsideSame(fn[..], nodes);
      assert Settled(l, 0, j, f) == Insert(l, j, f) by { assert l[0..] == l; }
      assert jiffies[p0] == List()[0].delta == j;
      hide Insert, Sunk, ListOf, Chain, Nodes, Settled, Outside;
      var p := p0;
      ghost var k := 0;
      ghost var fs := fn[..];
      var more := MustSink(p, f, l, k);
      while more
        invariant k <= |l| && p == nodes[k] < TIME_REQUESTS && Linked() && Nodes(nodes)
        invariant List() == Sunk(l, k, jiffies[p], f) && Settled(l, k, jiffies[p], f) == Insert(l, j, f)
        invariant Outside(fs, fn[..], nodes) && (more <==> k < |l| && l[k].delta < jiffies[p])
        decreases |l| - k
      {
        ghost var now := fn[..];
        p := SinkRound(p, f, l, k);
        OutsideTwice(fs, now, fn[..], nodes);
        k := k + 1;
        NodeAt(k);
        more := MustSink(p, f, l, k);
      }
      SinkLast(l, k, jiffies[p], f);
    }

    lemma NodeAt(k: nat)
      requires Linked() && k < |nodes|
      ensures next.Length == TIME_REQUESTS && Nodes(nodes) && nodes[k] < TIME_REQUESTS && next[nodes[k]] == Link(nodes, k + 1) <= TIME_REQUESTS
      ensures k + 1 < |nodes| ==> nodes[k + 1] < TIME_REQUESTS && nodes[k + 1] in nodes
      ensures nodes[k] in nodes
    {
    }

    static lemma SinkLast(l: seq<Timer>, k: nat, d: int, f: nat)
      requires k <= |l|
      ensures Sunk(l, k, d, f)[k] == Timer(d, f) && (k < |l| ==> Sunk(l, k, d, f)[k + 1] == l[k])
      ensures k == |l| || l[k].delta >= d ==> Settled(l, k, d, f) == Sunk(l, k, d, f)
    {
    }

    static lemma NonZero(l: seq<Timer>, j: int, f: nat, i: nat)
      requires Positive(l) && j > 0 && f != 0 && i <= |l| && forall k | 0 <= k < |l| :: l[k].fn != 0
      ensures Insert(l, j, f)[i].fn != 0
    {
      InsertNew(l, j, f);
      var p := Position(l, j);
      if i > p { assert Insert(l, j, f)[i - 1 + 1] == l[i - 1]; }
    }

    static lemma UsesAdded(nodes: seq<nat>, js: seq<int>, fs: seq<nat>, p: nat, j: int, f: nat, js': seq<int>, fs': seq<nat>)
      requires |js| == |js'| == TIME_REQUESTS && Uses(fs, nodes) && p < TIME_REQUESTS && p !in nodes && f != 0 && j > 0
      requires Nodes([p] + nodes) && Outside(fs[p := f], fs', [p] + nodes) && Positive(ListOf(nodes, js, fs))
      requires ListOf([p] + nodes, js', fs') == Insert(ListOf(nodes, js, fs), j, f)
      ensures Uses(fs', [p] + nodes)
    {
      hide Insert;
      var l, all := ListOf(nodes, js, fs), [p] + nodes;
      forall s: nat | s < TIME_REQUESTS && fs'[s] != 0 ensures s in all {
        assert s !in all ==> s !in nodes && s != p;
      }
      forall i | 0 <= i < |all| ensures fs'[all[i]] != 0 {
        NonZero(l, j, f, i);
        assert ListOf(all, js', fs')[i].fn == fs'[all[i]];
      }
    }

    /** add_timer; `call` says that it calls the function at once. */
    method AddTimer(j: int, f: nat) returns (call: bool)
      requires Valid() && (j > 0 && f != 0 ==> |List()| < 64)
      modifies this, jiffies, fn, next
      ensures Valid() && (call <==> f != 0 && j <= 0)
      ensures List() == if f != 0 && j > 0 then Insert(old(List()), j, f) else old(List())
    {
      if f == 0 { return false; }
      call := j <= 0;
      if !call { InsertTimer(j, f); }
    }

    /** add_timer with a positive delay: the new entry goes to the front, and values are swapped down the
        list until the next entry is not due before it. */
    method InsertTimer(j: int, f: nat)
      requires Valid() && j > 0 && f != 0 && |nodes| < TIME_REQUESTS
      modifies this, jiffies, fn, next
      ensures Valid() && List() == Insert(old(List()), j, f)
    {
      ghost var l, was, js, fs := List(), nodes, jiffies[..], fn[..];
      var p := FindSlot();
      hide Insert, Position, Uses, Outside, Positive, Sunk, ListOf;
      Enlist(p, j, f);
      NodeAt(0);
      hide Chain, Nodes;
      Sink(p, j, f, l);
      NodeAt(0);
      InsertNew(l, j, f);
      UsesAdded(was, js, fs, p, j, f, jiffies[..], fn[..]);
    }

    static lemma DropUses(nodes: seq<nat>, fs: seq<nat>)
      requires Uses(fs, nodes) && nodes != []
      ensures Nodes(nodes[1..]) && Uses(fs[nodes[0] := 0], nodes[1..])
    {
      var head, rest := nodes[0], nodes[1..];
      forall i | 0 <= i < |rest| ensures rest[i] == nodes[i + 1] != head {}
      assert nodes == [head] + rest;
    }

    static lemma DropList(nodes: seq<nat>, js: seq<int>, fs: seq<nat>, v: int)
      requires |js| == |fs| == TIME_REQUESTS && Nodes(nodes) && nodes != [] && Nodes(nodes[1..])
      ensures ListOf(nodes[1..], js[nodes[0] := v], fs[nodes[0] := 0]) == ListOf(nodes, js, fs)[1..]
    {
      var head, rest := nodes[0], nodes[1..];
      var a, b := ListOf(rest, js[head := v], fs[head := 0]), ListOf(nodes, js, fs)[1..];
      hide ListOf;
      forall i | 0 <= i < |rest| ensures a[i] == b[i] { assert rest[i] == nodes[i + 1] != head; }
      assert a == b;
    }

    static lemma CountFirst(nodes: seq<nat>, js: seq<int>, fs: seq<nat>)
      requires |js| == |fs| == TIME_REQUESTS && Nodes(nodes) && nodes != []
      ensures ListOf(nodes, js[nodes[0] := js[nodes[0]] - 1], fs) == Decrement(ListOf(nodes, js, fs))
    {
      var a, b := ListOf(nodes, js[nodes[0] := js[nodes[0]] - 1], fs), Decrement(ListOf(nodes, js, fs));
      forall i | 0 <= i < |nodes| ensures a[i] == b[i] { assert i > 0 ==> nodes[i] != nodes[0]; }
      assert a == b;
    }

    static lemma PositiveAfter(l: seq<Timer>)
      requires Positive(l) && l != []
      ensures Positive(l[1..]) && l[0].delta >= 1 && (l[0].delta > 1 ==> Positive(Decrement(l)))
    {
    }

    /** The timer part of do_timer up to the call: the function to call, or 0.  As deltas are positive, the
        entry behind the one taken off is not due in the same tick, and neither is one the call sets. */
    method DoTimer() returns (f: nat)
      requires Valid()
      modifies this, jiffies, fn
      ensures Valid()
      ensures List() == if old(List()) != [] && old(List())[0].delta == 1 then old(List())[1..] else Decrement(old(List()))
      ensures f == if old(List()) != [] && old(List())[0].delta == 1 then old(List())[0].fn else 0
    {
      f := 0;
      if nextTimer == 0 { return; }
      ghost var l, was, js, fs := List(), nodes, jiffies[..], fn[..];
      NodeAt(0);
      var head := nextTimer - 1;
      assert nodes[0] == head && l[0] == Timer(jiffies[head], fn[head]);
      DropUses(nodes, fs);
      DropList(nodes, js, fs, js[head] - 1);
      CountFirst(nodes, js, fs);
      PositiveAfter(l);
      ChainRest(nodes, next[..], nextTimer);
      hide Uses, ListOf, Nodes, Positive, Decrement, Chain;
      jiffies[head] := jiffies[head] - 1;
      if jiffies[head] <= 0 {
        f := fn[head];
        fn[head] := 0;
        nextTimer := next[head];
        nodes := nodes[1..];
      }
    }
  }
}
