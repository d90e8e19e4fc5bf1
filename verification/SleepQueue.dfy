// The wait queue of sleep_on and wake_up: one pointer, and the rest of the queue in the local
// variables of the sleepers.  Tasks are slots from 1 on; 0 is the null pointer, as task 0 never sleeps.

module SleepQueue {

  const NR_TASKS: nat := 64

  /** `tmp` is the saved pointer of each task that is inside sleep_on; `since` orders them by the time they
      went to sleep; `clock` is later than all of them. */
  datatype Queue = Queue(head: nat, tmp: seq<nat>, inside: set<nat>, asleep: set<nat>, since: seq<nat>, clock: nat)

  datatype Step = Sleep(t: nat) | Wake | Resume(t: nat)

  predicate Shape(q: Queue) { |q.tmp| == |q.since| == NR_TASKS }

  /** A task that is not waiting may sleep; one that is inside sleep_on and runnable may go on. */
  predicate Enabled(q: Queue, s: Step) {
    match s
    case Sleep(t) => 0 < t < NR_TASKS && t !in q.inside
    case Wake => true
    case Resume(t) => t in q.inside && t !in q.asleep
  }

  /** sleep_on up to schedule(), wake_up, and sleep_on from schedule() on. */
  function Apply(q: Queue, s: Step): (r: Queue)
    requires Shape(q) && Enabled(q, s) && Slots(q.inside)
    ensures Shape(r)
  {
    match s
    case Sleep(t) =>
      Queue(t, q.tmp[t := q.head], q.inside + {t}, q.asleep + {t}, q.since[t := q.clock], q.clock + 1)
    case Wake => q.(head := 0, asleep := q.asleep - {q.head})
    case Resume(t) => q.(inside := q.inside - {t}, asleep := q.asleep - {q.tmp[t]})
  }

  predicate Slots(ts: set<nat>) { forall t | t in ts :: 1 <= t < NR_TASKS }

  /** Who is asleep is pointed to exactly once: by the queue, or by someone inside who slept later. */
  ghost predicate Inv(q: Queue) {
    && Shape(q) && Slots(q.inside) && q.asleep <= q.inside
    && (q.head != 0 ==> q.head in q.asleep)
    && (forall t | t in q.inside :: q.since[t] < q.clock)
    && (forall u | u in q.inside && q.tmp[u] != 0 :: q.tmp[u] in q.asleep && q.since[q.tmp[u]] < q.since[u] && q.tmp[u] != q.head)
    && (forall u, v | u in q.inside && v in q.inside && q.tmp[u] == q.tmp[v] != 0 :: u == v)
    && (forall t | t in q.asleep :: t == q.head || Pointed(q, t))
  }

  ghost predicate Pointed(q: Queue, t: nat)
    requires Shape(q) && Slots(q.inside)
  {
    exists u :: u in q.inside && q.tmp[u] == t
  }

  lemma StillPointed(q: Queue, s: Step, t: nat)
    requires Inv(q) && Enabled(q, s) && t in q.asleep && t != q.head && s != Resume(t)
    requires s.Resume? ==> q.tmp[s.t] != t
    ensures Slots(Apply(q, s).inside) && Pointed(Apply(q, s), t)
  {
    assert Pointed(q, t);
    var u :| u in q.inside && q.tmp[u] == t;
    assert u in Apply(q, s).inside && Apply(q, s).tmp[u] == t;
  }

  lemma SleepKeepsInv(q: Queue, n: nat)
    requires Inv(q) && Enabled(q, Sleep(n))
    ensures Inv(Apply(q, Sleep(n)))
  {
    var r := Apply(q, Sleep(n));
    forall t | t in r.asleep ensures t == r.head || Pointed(r, t) {
      if t != n {
        if t == q.head { assert n in r.inside && r.tmp[n] == t; } else { StillPointed(q, Sleep(n), t); }
      }
    }
    hide Pointed;
    assert forall u | u in q.inside :: r.tmp[u] == q.tmp[u] && r.since[u] == q.since[u];
  }

  lemma WakeKeepsInv(q: Queue)
    requires Inv(q)
    ensures Inv(Apply(q, Wake))
  {
    var r := Apply(q, Wake);
    forall t | t in r.asleep ensures Pointed(r, t) { StillPointed(q, Wake, t); }
    hide Pointed;
  }

  lemma ResumeKeepsInv(q: Queue, n: nat)
    requires Inv(q) && Enabled(q, Resume(n))
    ensures Inv(Apply(q, Resume(n)))
  {
    var r := Apply(q, Resume(n));
    forall t | t in r.asleep ensures t == r.head || Pointed(r, t) {
      if t != q.head { StillPointed(q, Resume(n), t); }
    }
    hide Pointed;
  }

  lemma StepKeepsInv(q: Queue, s: Step)
    requires Inv(q) && Enabled(q, s)
    ensures Inv(Apply(q, s))
  {
    match s
    case Sleep(n) => SleepKeepsInv(q, n);
    case Wake => WakeKeepsInv(q);
    case Resume(n) => ResumeKeepsInv(q, n);
  }

  // ----- nobody is lost --------------------------------------------------------------------------

  /** n steps along the saved pointers from u. */
  function Follow(q: Queue, u: nat, n: nat): nat
    requires Shape(q)
    decreases n
  {
    if n == 0 then u else if u == 0 || u >= NR_TASKS then 0 else Follow(q, q.tmp[u], n - 1)
  }

  /** u is where a chain starts: the queue's own pointer, or someone woken who has not gone on yet. */
  predicate Start(q: Queue, u: nat) { u != 0 && (u == q.head || (u in q.inside && u !in q.asleep)) }

  lemma {:induction false} FollowMore(q: Queue, u: nat, n: nat)
    requires Inv(q) && (u == 0 || u in q.inside)
    ensures var v := Follow(q, u, n); (v == 0 || v in q.inside) && (v != 0 ==> Follow(q, u, n + 1) == q.tmp[v])
    decreases n
  {
    if n > 0 && u != 0 { FollowMore(q, q.tmp[u], n - 1); }
  }

  /** Every task still asleep can be reached along saved pointers from a start. */
  lemma {:induction false} NoLostSleeper(q: Queue, t: nat) returns (u: nat, n: nat)
    requires Inv(q) && t in q.asleep
    ensures Start(q, u) && u in q.inside && Follow(q, u, n) == t
    decreases q.clock - q.since[t]
  {
    if t == q.head {
      return t, 0;
    }
    assert Pointed(q, t);
    var v :| v in q.inside && q.tmp[v] == t;
    if v in q.asleep {
      u, n := NoLostSleeper(q, v);
      FollowMore(q, u, n);
      n := n + 1;
    } else {
      u, n := v, 1;
      assert Follow(q, v, 1) == Follow(q, q.tmp[v], 0);
    }
  }

  // ----- everyone who waits is reached -------------------------------------------------------------

  /** A chain of someone woken stays what it is, whatever the others do, until he goes on; then the next
      in it is runnable and the rest is his. */
  lemma {:induction false} ChainKept(q: Queue, s: Step, u: nat, n: nat)
    requires Inv(q) && Enabled(q, s) && u in q.inside && s != Resume(u)
    ensures Follow(Apply(q, s), u, n) == Follow(q, u, n)
    decreases n
  {
    if n > 0 {
      var r := Apply(q, s);
      assert r.tmp[u] == q.tmp[u];
      if q.tmp[u] != 0 {
        assert q.tmp[u] in q.asleep;
        ChainKept(q, s, q.tmp[u], n - 1);
      } else {
        assert n > 1 ==> Follow(r, 0, n - 1) == 0 == Follow(q, 0, n - 1);
      }
    }
  }

  ghost predicate Awake(q: Queue, u: nat) { u in q.inside && u !in q.asleep }

  lemma FrontKept(q: Queue, s: Step, u: nat, n: nat)
    requires Inv(q) && Enabled(q, s) && Awake(q, u) && s != Resume(u)
    ensures Awake(Apply(q, s), u) && Follow(Apply(q, s), u, n) == Follow(q, u, n)
  {
    ChainKept(q, s, u, n);
  }

  lemma FrontPassesOn(q: Queue, u: nat, n: nat, t: nat)
    requires Inv(q) && Awake(q, u) && n > 0 && Follow(q, u, n) == t != 0
    ensures var r := Apply(q, Resume(u)); Awake(r, q.tmp[u]) && Follow(r, q.tmp[u], n - 1) == t
  {
    assert q.tmp[u] != 0;
    ChainKept(q, Resume(u), q.tmp[u], n - 1);
  }

  /** wake_up: the first in the queue is woken, and the others are behind him, each at his place. */
  lemma WakeStartsAChain(q: Queue, n: nat, t: nat)
    requires Inv(q) && Follow(q, q.head, n) == t != 0
    ensures var r := Apply(q, Wake); Awake(r, q.head) && Follow(r, q.head, n) == t && r.head == 0
  {
    assert q.head != 0;
    ChainKept(q, Wake, q.head, n);
  }

  // ----- runs ----------------------------------------------------------------------------------------

  ghost predicate Allowed(q: Queue, run: seq<Step>)
    requires Inv(q)
    decreases |run|
  {
    run == [] || (Enabled(q, run[0]) && (StepKeepsInv(q, run[0]); Allowed(Apply(q, run[0]), run[1..])))
  }

  ghost function Run(q: Queue, run: seq<Step>): (r: Queue)
    requires Inv(q) && Allowed(q, run)
    ensures Inv(r)
    decreases |run|
  {
    if run == [] then q else StepKeepsInv(q, run[0]); Run(Apply(q, run[0]), run[1..])
  }

  /** How often, in a run, the task then at the front of u's chain of n goes on. */
  ghost function Turns(q: Queue, run: seq<Step>, u: nat, n: nat): nat
    requires Inv(q) && Allowed(q, run) && u < NR_TASKS
    decreases |run|
  {
    if run == [] || n == 0 then 0
    else
      StepKeepsInv(q, run[0]);
      var r := Apply(q, run[0]);
      if run[0] == Resume(u) && q.tmp[u] < NR_TASKS then 1 + Turns(r, run[1..], q.tmp[u], n - 1)
      else Turns(r, run[1..], u, n)
  }

  /** Was t runnable at some moment of the run? */
  ghost predicate Reached(q: Queue, run: seq<Step>, t: nat)
    requires Inv(q) && Allowed(q, run)
    decreases |run|
  {
    Awake(q, t) || (run != [] && (StepKeepsInv(q, run[0]); Reached(Apply(q, run[0]), run[1..], t)))
  }

  /** Behind someone woken with n - 1 others between, a sleeper is made runnable as soon as the front of his
      chain has been scheduled n times, whatever else sleeps, wakes and runs meanwhile. */
  lemma {:induction false} EveryoneIsReached(q: Queue, run: seq<Step>, u: nat, n: nat, t: nat)
    requires Inv(q) && Allowed(q, run) && Awake(q, u) && Follow(q, u, n) == t != 0
    ensures u < NR_TASKS && Turns(q, run, u, n) <= n && (Turns(q, run, u, n) == n ==> Reached(q, run, t))
    decreases |run|
  {
    if n > 0 && run != [] {
      StepKeepsInv(q, run[0]);
      InvShape(q);
      hide Inv, Follow, Apply;
      var r := Apply(q, run[0]);
      if run[0] == Resume(u) {
        FrontPassesOn(q, u, n, t);
        EveryoneIsReached(r, run[1..], q.tmp[u], n - 1, t);
      } else {
        FrontKept(q, run[0], u, n);
        EveryoneIsReached(r, run[1..], u, n, t);
      }
    }
  }

  lemma EmptyQueue(since: seq<nat>, tmp: seq<nat>)
    requires |since| == |tmp| == NR_TASKS
    ensures Inv(Queue(0, tmp, {}, {}, since, 0))
  {
  }

  // ----- the code --------------------------------------------------------------------------------------

  const RUNNING: int := 0
  const UNINTERRUPTIBLE: int := 2

  lemma InvShape(q: Queue)
    requires Inv(q)
    ensures Shape(q) && Slots(q.inside) && q.asleep <= q.inside && (q.head != 0 ==> q.head in q.asleep)
    ensures forall t | t in q.inside :: q.tmp[t] != 0 ==> q.tmp[t] in q.asleep
  {
  }

  ghost function Sleeping(inside: set<nat>, state: seq<int>): set<nat> {
    set t | t in inside && t < |state| && state[t] == UNINTERRUPTIBLE
  }

  /** One wait queue and the states of the tasks.  The ghost fields say who is inside sleep_on. */
  class WaitQueue {
    var p: nat
    const tmp: array<nat>
    const state: array<int>
    ghost var inside: set<nat>
    ghost var since: seq<nat>
    ghost var clock: nat

    ghost predicate Valid()
      reads this, tmp, state
    {
      && tmp as object != state && state.Length == tmp.Length == NR_TASKS && Inv(Abs())
      && forall t | t in inside :: state[t] == RUNNING || state[t] == UNINTERRUPTIBLE
    }

    ghost function Abs(): Queue
      reads this, tmp, state
    {
      Queue(p, tmp[..], inside, Sleeping(inside, state[..]), since, clock)
    }

    /** sleep_on by task t, up to schedule(). */
    method SleepOn(t: nat)
      requires Valid() && 0 < t < NR_TASKS && t !in inside
      modifies this, tmp, state
      ensures Valid() && Abs() == Apply(old(Abs()), Sleep(t))
    {
      InvShape(Abs());
      StepKeepsInv(Abs(), Sleep(t));
      hide Inv;
      tmp[t] := p;
      p := t;
      state[t] := UNINTERRUPTIBLE;
      OneAsleep(inside, old(state[..]), t, state[..]);
      inside, since, clock := inside + {t}, since[t := clock], clock + 1;
    }

    /** sleep_on by task t, after schedule() came back to it. */
    method GoOn(t: nat)
      requires Valid() && t in inside && state[t] == RUNNING
      modifies `inside, state
      ensures Valid() && Abs() == Apply(old(Abs()), Resume(t))
    {
      InvShape(Abs());
      StepKeepsInv(Abs(), Resume(t));
      hide Inv;
      ghost var before := state[..];
      inside := inside - {t};
      if tmp[t] != 0 {
        state[tmp[t]] := RUNNING;
        assert state[..] == before[tmp[t] := RUNNING];
      }
      OneWoken(old(inside), before, t, tmp[t], state[..]);
    }

    static lemma OneAsleep(inside: set<nat>, state: seq<int>, t: nat, state': seq<int>)
      requires t < |state| && state' == state[t := UNINTERRUPTIBLE]
      ensures Sleeping(inside + {t}, state') == Sleeping(inside, state) + {t}
    {
    }

    static lemma FirstWoken(inside: set<nat>, state: seq<int>, u: nat, state': seq<int>)
      requires Slots(inside) && u < |state| && state' == if u != 0 then state[u := RUNNING] else state
      ensures Sleeping(inside, state') == Sleeping(inside, state) - {u}
    {
    }

    static lemma OneWoken(inside: set<nat>, state: seq<int>, t: nat, u: nat, state': seq<int>)
      requires t < |state| && state[t] == RUNNING && Slots(inside) && (u == 0 || u in inside) && |state| == NR_TASKS
      requires state' == if u != 0 && u < |state| then state[u := RUNNING] else state
      ensures Sleeping(inside - {t}, state') == Sleeping(inside, state) - {u}
    {
    }

    method WakeUp()
      requires Valid()
      modifies this, state
      ensures Valid() && Abs() == Apply(old(Abs()), Wake)
    {
      InvShape(Abs());
      StepKeepsInv(Abs(), Wake);
      hide Inv;
      if p != 0 {
        state[p] := RUNNING;
        p := 0;
      }
      FirstWoken(inside, old(state[..]), old(p), state[..]);
    }
  }
}
