// The counters of sched.c: schedule, the part of do_timer that charges the running task, and sys_nice.

module Scheduler {
  import opened Common

  const NR_TASKS: nat := 64

  datatype Task = Task(running: bool, counter: int, priority: int)

  type Table = seq<Option<Task>>

  predicate Runnable(ts: Table, i: nat) { 0 < i < |ts| && ts[i].Some? && ts[i].value.running }

  /** Counters are not negative and priorities are positive. */
  predicate Good(ts: Table) {
    |ts| == NR_TASKS && forall i | 0 <= i < NR_TASKS && ts[i].Some? :: ts[i].value.counter >= 0 && ts[i].value.priority > 0
  }

  /** The scan from the last slot down to i: the largest counter, and who has it. */
  function Scan(ts: Table, i: nat): (int, nat)
    requires 0 < i <= |ts|
    decreases |ts| - i
  {
    if i == |ts| then (-1, 0)
    else
      var (c, next) := Scan(ts, i + 1);
      if Runnable(ts, i) && ts[i].value.counter > c then (ts[i].value.counter, i) else (c, next)
  }

  lemma {:induction false} ScanMeaning(ts: Table, i: nat)
    requires Good(ts) && 0 < i <= |ts|
    ensures var (c, next) := Scan(ts, i);
      (next == 0 <==> forall j | i <= j < |ts| :: !Runnable(ts, j)) &&
      (next == 0 ==> c == -1) &&
      (next != 0 ==> i <= next && Runnable(ts, next) && c == ts[next].value.counter >= 0) &&
      forall j | i <= j < |ts| && Runnable(ts, j) :: ts[j].value.counter <= c && (next < j ==> ts[j].value.counter < c)
    decreases |ts| - i
  {
    if i < |ts| { ScanMeaning(ts, i + 1); }
  }

  function Recharged(t: Task): Task { t.(counter := t.counter / 2 + t.priority) }

  /** Every task but task 0. */
  function Recharge(ts: Table): (r: Table)
    ensures |r| == |ts|
  {
    seq(|ts|, (i: nat) requires i < |ts| => if i > 0 && ts[i].Some? then Some(Recharged(ts[i].value)) else ts[i])
  }

  /** Some task could run, and none has any time left. */
  predicate Exhausted(ts: Table) {
    (exists i | 0 <= i < |ts| :: Runnable(ts, i)) && forall i | 0 <= i < |ts| && Runnable(ts, i) :: ts[i].value.counter == 0
  }

  /** schedule: the tables it leaves and the task it switches to. */
  function Chosen(ts: Table): (Table, nat)
    requires Good(ts)
  {
    var (c, next) := Scan(ts, 1);
    if c != 0 then (ts, next) else (Recharge(ts), Scan(Recharge(ts), 1).1)
  }

  lemma RechargeGood(ts: Table)
    requires Good(ts)
    ensures Good(Recharge(ts)) && forall i | 0 <= i < |ts| :: Runnable(Recharge(ts), i) <==> Runnable(ts, i)
    ensures forall i | 0 <= i < |ts| && Runnable(ts, i) :: Recharge(ts)[i].value.counter > 0
  {
  }

  /** Everybody above slot 0, asleep or not, has half of what he had left and his priority on top; nothing else changes. */
  predicate Refilled(ts: Table, r: Table) {
    && |r| == |ts| > 0 && r[0] == ts[0]
    && forall i | 0 < i < |ts| ::
      (r[i].Some? <==> ts[i].Some?) &&
      (ts[i].Some? ==>
        r[i].value.running == ts[i].value.running && r[i].value.priority == ts[i].value.priority &&
        r[i].value.counter - ts[i].value.priority == ts[i].value.counter / 2)
  }

  /** The choice: counters are recharged exactly when every runnable task has used its own up, once is
      enough, and the task chosen is a runnable one with the largest counter, or 0 if none is runnable. */
  lemma ScheduleMeaning(ts: Table)
    requires Good(ts)
    ensures var (r, next) := Chosen(ts);
      Good(r) && r == (if Exhausted(ts) then Recharge(ts) else ts) && (Exhausted(ts) ==> Refilled(ts, r)) &&
      (next == 0 <==> forall i | 0 <= i < |ts| :: !Runnable(ts, i)) &&
      (next != 0 ==> Runnable(r, next) && r[next].value.counter > 0) &&
      (next != 0 ==> forall i | 0 <= i < |ts| && Runnable(r, i) ::
        r[i].value.counter <= r[next].value.counter && (next < i ==> r[i].value.counter < r[next].value.counter))
  {
    ScanMeaning(ts, 1);
    RechargeGood(ts);
    ScanMeaning(Recharge(ts), 1);
    var (c, next) := Scan(ts, 1);
    if c == 0 { assert Runnable(ts, next); }
    assert forall i | 0 <= i < |ts| && Runnable(ts, i) :: i >= 1;
  }

  // ----- runs ----------------------------------------------------------------------------------

  /** `most` is the largest priority ever held. */
  datatype State = State(ts: Table, current: nat, most: int)

  datatype Event =
    | Tick(cpl: nat)                      // do_timer
    | Reschedule                          // schedule() called by a task
    | SetRunning(t: nat, running: bool)   // a task sleeps or is woken
    | Nice(increment: int)                // sys_nice
    | Fork(child: nat)                    // copy_process: counter = priority of the parent
    | Exit(t: nat)

  predicate Inv(s: State) {
    && Good(s.ts) && s.current < NR_TASKS && s.ts[s.current].Some?
    && forall i | 0 <= i < NR_TASKS && s.ts[i].Some? :: s.ts[i].value.priority <= s.most && s.ts[i].value.counter < 2 * s.most
  }

  predicate Enabled(s: State, e: Event) {
    match e
    case SetRunning(t, _) => t < |s.ts| && s.ts[t].Some?
    case Fork(c) => 0 < c < |s.ts| && s.ts[c].None?
    case Exit(t) => 0 < t < |s.ts| && s.ts[t].Some? && t != s.current
    case _ => true
  }

  function Max(a: int, b: int): int { if a < b then b else a }

  function Charge(s: State): State
    requires Inv(s)
  {
    var t := s.ts[s.current].value;
    s.(ts := s.ts[s.current := Some(t.(counter := Max(t.counter - 1, 0)))])
  }

  function Switch(s: State): (r: State)
    requires Good(s.ts)
    ensures r.current < NR_TASKS
  {
    ScanMeaning(s.ts, 1);
    ScheduleMeaning(s.ts);
    var (ts, next) := Chosen(s.ts);
    s.(ts := ts, current := next)
  }

  lemma ChargeInv(s: State)
    requires Inv(s)
    ensures Inv(Charge(s))
  {
  }

  function Apply(s: State, e: Event): State
    requires Inv(s) && Enabled(s, e)
  {
    match e
    case Tick(cpl) =>
      ChargeInv(s);
      var r := Charge(s);
      if s.ts[s.current].value.counter - 1 > 0 || cpl == 0 then r else Switch(r)
    case Reschedule => Switch(s)
    case SetRunning(t, running) => s.(ts := s.ts[t := Some(s.ts[t].value.(running := running))])
    case Nice(increment) =>
      var t := s.ts[s.current].value;
      if t.priority - increment > 0 then
        s.(ts := s.ts[s.current := Some(t.(priority := t.priority - increment))], most := Max(s.most, t.priority - increment))
      else s
    case Fork(c) =>
      var p := s.ts[s.current].value;
      s.(ts := s.ts[c := Some(Task(true, p.priority, p.priority))])
    case Exit(t) => s.(ts := s.ts[t := None])
  }

  lemma SwitchInv(s: State)
    requires Inv(s) && s.ts[0].Some?
    ensures Inv(Switch(s)) && Switch(s).ts[0].Some?
  {
    ScheduleMeaning(s.ts);
  }

  /** Counters stay below twice the largest priority ever held. */
  lemma StepInv(s: State, e: Event)
    requires Inv(s) && Enabled(s, e) && s.ts[0].Some?
    ensures Inv(Apply(s, e)) && Apply(s, e).ts[0].Some?
  {
    match e
    case Tick(cpl) =>
      ChargeInv(s);
      SwitchInv(Charge(s));
    case Reschedule => SwitchInv(s);
    case _ =>
  }

  /** sys_nice keeps priorities positive and takes no time away; a child starts with its parent's priority as
      both its priority and its counter, and costs its parent nothing. */
  lemma OtherSteps(s: State, e: Event)
    requires Inv(s) && Enabled(s, e) && (e.Nice? || e.Fork?)
    ensures var r, t := Apply(s, e), s.ts[s.current].value;
      r.current == s.current && |r.ts| == |s.ts| &&
      (e.Nice? ==> r.ts == s.ts[s.current := Some(Task(t.running, t.counter, if e.increment < t.priority then t.priority - e.increment else t.priority))]) &&
      (e.Fork? ==> r.ts == s.ts[e.child := Some(Task(true, t.priority, t.priority))])
  {
    if e.Nice? { assert s.ts[s.current := s.ts[s.current]] == s.ts; }
  }

  // ----- how long until the next recharge ---------------------------------------------------------

  /** The time that tasks i and later have left. */
  function Left(ts: Table, i: nat): int
    requires i <= |ts|
    decreases |ts| - i
  {
    if i == |ts| then 0 else (if ts[i].Some? then ts[i].value.counter else 0) + Left(ts, i + 1)
  }

  lemma {:induction false} LeftUpdate(ts: Table, i: nat, k: nat, v: Option<Task>)
    requires i <= |ts| && k < |ts|
    ensures var before := if ts[k].Some? then ts[k].value.counter else 0; var after := if v.Some? then v.value.counter else 0;
      Left(ts[k := v], i) == Left(ts, i) + if i <= k then after - before else 0
    decreases |ts| - i
  {
    if i < |ts| { LeftUpdate(ts, i + 1, k, v); }
  }

  lemma {:induction false} LeftBound(ts: Table, i: nat, most: int)
    requires i <= |ts| && most > 0 && forall j | 0 <= j < |ts| && ts[j].Some? :: 0 <= ts[j].value.counter < 2 * most
    ensures 0 <= Left(ts, i) <= (|ts| - i) * (2 * most)
    decreases |ts| - i
  {
    if i < |ts| {
      LeftBound(ts, i + 1, most);
      assert (|ts| - i) * (2 * most) == (|ts| - (i + 1)) * (2 * most) + 2 * most;
    }
  }

  /** Is the event a tick that takes time from a task that has some? */
  predicate Charges(s: State, e: Event)
    requires Inv(s)
  {
    e.Tick? && s.current > 0 && s.ts[s.current].value.counter > 0
  }

  /** Does the event recharge? */
  predicate Recharges(s: State, e: Event)
    requires Inv(s) && Enabled(s, e)
  {
    match e
    case Tick(cpl) => s.ts[s.current].value.counter - 1 <= 0 && cpl != 0 && Exhausted(Charge(s).ts)
    case Reschedule => Exhausted(s.ts)
    case _ => false
  }

  lemma StepLeft(s: State, e: Event)
    requires Inv(s) && Enabled(s, e) && s.ts[0].Some? && !e.Fork? && !Recharges(s, e)
    ensures Left(Apply(s, e).ts, 1) == Left(s.ts, 1) - if Charges(s, e) then 1 else if e.Exit? then s.ts[e.t].value.counter else 0
  {
    match e
    case Tick(cpl) =>
      LeftUpdate(s.ts, 1, s.current, Charge(s).ts[s.current]);
      ChargeInv(s);
      ScheduleMeaning(Charge(s).ts);
    case Reschedule => ScheduleMeaning(s.ts);
    case SetRunning(t, running) => LeftUpdate(s.ts, 1, t, Some(s.ts[t].value.(running := running)));
    case Nice(increment) =>
      LeftUpdate(s.ts, 1, s.current, Some(s.ts[s.current].value.(priority := s.ts[s.current].value.priority - increment)));
    case Exit(t) => LeftUpdate(s.ts, 1, t, None);
  }

  ghost predicate Quiet(s: State, es: seq<Event>)
    requires Inv(s) && s.ts[0].Some?
    decreases |es|
  {
    es == [] || (Enabled(s, es[0]) && !es[0].Fork? && !Recharges(s, es[0]) && (StepInv(s, es[0]); Quiet(Apply(s, es[0]), es[1..])))
  }

  ghost function Charged(s: State, es: seq<Event>): nat
    requires Inv(s) && s.ts[0].Some? && Quiet(s, es)
    decreases |es|
  {
    if es == [] then 0
    else StepInv(s, es[0]); (if Charges(s, es[0]) then 1 else 0) + Charged(Apply(s, es[0]), es[1..])
  }

  /** Without forks, fewer ticks than 64 times twice the largest priority can be charged to tasks before
      everyone who wants to run has used up his counter and all are recharged. */
  lemma {:induction false} RechargeComes(s: State, es: seq<Event>)
    requires Inv(s) && s.ts[0].Some? && Quiet(s, es)
    ensures Charged(s, es) <= Left(s.ts, 1) <= 63 * (2 * s.most)
    decreases |es|
  {
    assert s.most > 0;
    LeftBound(s.ts, 1, s.most);
    if es != [] {
      StepInv(s, es[0]);
      StepLeft(s, es[0]);
      RechargeComes(Apply(s, es[0]), es[1..]);
    }
  }

  // ----- what a sleeper saves ---------------------------------------------------------------------

  /** What is missing to twice the priority, after n recharges: each halves it, rounding up. */
  function Gap(g: int, n: nat): int
    decreases n
  {
    if n == 0 then g else Gap((g + 1) / 2, n - 1)
  }

  predicate Sleeps(s: State, i: nat) { 0 < i < |s.ts| && i != s.current && s.ts[i].Some? && !s.ts[i].value.running }

  ghost predicate Possible(s: State, es: seq<Event>)
    requires Inv(s) && s.ts[0].Some?
    decreases |es|
  {
    es == [] || (Enabled(s, es[0]) && (StepInv(s, es[0]); Possible(Apply(s, es[0]), es[1..])))
  }

  ghost function After(s: State, es: seq<Event>): State
    requires Inv(s) && s.ts[0].Some? && Possible(s, es)
    decreases |es|
  {
    if es == [] then s else StepInv(s, es[0]); After(Apply(s, es[0]), es[1..])
  }

  ghost function RechargeCount(s: State, es: seq<Event>): nat
    requires Inv(s) && s.ts[0].Some? && Possible(s, es)
    decreases |es|
  {
    if es == [] then 0
    else StepInv(s, es[0]); (if Recharges(s, es[0]) then 1 else 0) + RechargeCount(Apply(s, es[0]), es[1..])
  }

  /** No event wakes or ends task i. */
  predicate Undisturbed(es: seq<Event>, i: nat) { SetRunning(i, true) !in es && Exit(i) !in es }

  lemma FirstUndisturbed(es: seq<Event>, i: nat)
    requires es != [] && Undisturbed(es, i)
    ensures es[0] != SetRunning(i, true) && es[0] != Exit(i) && Undisturbed(es[1..], i)
  {
  }

  lemma SleeperStep(s: State, e: Event, i: nat)
    requires Inv(s) && Enabled(s, e) && s.ts[0].Some? && Sleeps(s, i) && e != SetRunning(i, true) && e != Exit(i)
    ensures var r := Apply(s, e); var t := s.ts[i].value;
      Sleeps(r, i) && i < |r.ts| && r.ts[i].Some? && r.ts[i].value.priority == t.priority &&
      r.ts[i].value.counter == if Recharges(s, e) then t.counter / 2 + t.priority else t.counter
  {
    match e
    case Tick(cpl) =>
      ChargeInv(s);
      ScheduleMeaning(Charge(s).ts);
    case Reschedule => ScheduleMeaning(s.ts);
    case _ =>
  }

  /** A task that sleeps through n recharges has its distance to twice its priority halved, rounding up, n times,
      whatever else happens: it gains time for having slept, and less than twice its priority of it. */
  lemma {:induction false} SleeperSaves(s: State, es: seq<Event>, i: nat)
    requires Inv(s) && s.ts[0].Some? && Possible(s, es) && Sleeps(s, i) && Undisturbed(es, i)
    ensures var t := After(s, es); var p := s.ts[i].value.priority;
      Sleeps(t, i) && i < |t.ts| && t.ts[i].Some? && t.ts[i].value.priority == p &&
      2 * p - t.ts[i].value.counter == Gap(2 * p - s.ts[i].value.counter, RechargeCount(s, es))
    decreases |es|
  {
    if es != [] {
      FirstUndisturbed(es, i);
      hide Apply, Recharges, Enabled, Inv, Undisturbed, Sleeps;
      StepInv(s, es[0]);
      SleeperStep(s, es[0], i);
      SleeperSaves(Apply(s, es[0]), es[1..], i);
    }
  }

  lemma {:induction false} GapCloses(g: int, n: nat)
    requires g >= 1
    ensures 1 <= Gap(g, n) <= g && (n > 0 && g > 1 ==> Gap(g, n) < g) && (n >= g ==> Gap(g, n) == 1)
    decreases n
  {
    if n > 0 { GapCloses((g + 1) / 2, n - 1); }
  }

  // ----- the code ----------------------------------------------------------------------------------

  class TaskTable {
    const task: array<Option<Task>>
    var current: nat

    ghost predicate Valid()
      reads this, task
    {
      Good(task[..]) && current < NR_TASKS && task[current].Some?
    }

    constructor (ts: Table)
      requires Good(ts) && ts[0].Some?
      ensures Valid() && task[..] == ts && current == 0 && fresh(task)
    {
      task := new Option<Task>[NR_TASKS](i requires 0 <= i < |ts| => ts[i]);
      current := 0;
      new;
      assert task[..] == ts;
    }

    /** The scan of schedule. */
    method FindNext() returns (c: int, next: nat)
      requires Good(task[..])
      ensures (c, next) == Scan(task[..], 1)
    {
      c, next := -1, 0;
      var i := NR_TASKS;
      while i > 1
        invariant 1 <= i <= NR_TASKS && (c, next) == Scan(task[..], i)
      {
        i := i - 1;
        if task[i].Some? && task[i].value.running && task[i].value.counter > c {
          c, next := task[i].value.counter, i;
        }
      }
    }

    /** schedule: its loop ends after at most two scans. */
    method Schedule() returns (ghost scans: nat)
      requires Valid() && task[0].Some?
      modifies this, task
      ensures Valid() && task[0].Some? && scans <= 2
      ensures (task[..], current) == Chosen(old(task[..]))
    {
      ScheduleMeaning(task[..]);
      RechargeGood(task[..]);
      ScanMeaning(task[..], 1);
      ScanMeaning(Recharge(task[..]), 1);
      var c, next := FindNext();
      scans := 1;
      if c == 0 {
        RechargeAll();
        c, next := FindNext();
        scans := 2;
      }
      assert c != 0;
      current := next;
    }

    method RechargeAll()
      requires task.Length == NR_TASKS
      modifies task
      ensures task[..] == Recharge(old(task[..]))
    {
      var i := NR_TASKS - 1;
      while i > 0
        invariant 0 <= i < NR_TASKS
        invariant forall k | 0 <= k < NR_TASKS :: task[k] == if k > i then Recharge(old(task[..]))[k] else old(task[k])
      {
        if task[i].Some? { task[i] := Some(Recharged(task[i].value)); }
        i := i - 1;
      }
    }

    /** The end of do_timer. */
    method DoTimer(cpl: nat, ghost most: int)
      requires Valid() && task[0].Some? && Inv(State(task[..], current, most))
      modifies this, task
      ensures State(task[..], current, most) == Apply(old(State(task[..], current, most)), Tick(cpl))
      ensures var t := old(task[current]).value;
        var charged := old(task[..])[old(current) := Some(t.(counter := if t.counter > 0 then t.counter - 1 else 0))];
        (task[..], current) == if t.counter > 1 || cpl == 0 then (charged, old(current)) else Chosen(charged)
    {
      ChargeInv(State(task[..], current, most));
      var t := task[current].value.(counter := task[current].value.counter - 1);
      task[current] := Some(t);
      if t.counter > 0 { return; }
      task[current] := Some(t.(counter := 0));
      assert task[..] == Charge(old(State(task[..], current, most))).ts;
      if cpl == 0 { return; }
      var _ := Schedule();
    }
  }
}
