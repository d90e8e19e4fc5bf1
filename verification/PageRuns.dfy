// Whole runs: fork, exec, exit, user reads and writes with their faults, and kernel pages.

module PageRuns {
  import opened Common
  import opened PageModel
  import opened PageInvariant
  import opened PageSteps
  import opened PageFaults

  // ----- fork, exec, exit ----------------------------------------------------------------

  /** find_empty_process: the lowest empty slot from i on, or NR_TASKS. */
  function EmptySlot(task: seq<Option<Task>>, i: nat): (c: nat)
    requires i <= |task|
    ensures i <= c <= |task|
    ensures c < |task| ==> task[c].None?
    ensures forall j | i <= j < c :: task[j].Some?
    decreases |task| - i
  {
    if i == |task| || task[i].None? then i else EmptySlot(task, i + 1)
  }

  predicate Limited(s: State, nr: nat) {
    Shape(s) && nr < NR_TASKS && s.task[nr].Some? && Dirs(s.task[nr].value.limit) <= 16
  }

  function SetTask(s: State, nr: nat, t: Option<Task>): (r: State)
    requires Shape(s) && nr < NR_TASKS
    ensures Shape(r)
  {
    s.(task := s.task[nr := t])
  }

  /** copy_process as far as it concerns memory: the child's slot, or 0 when it failed. */
  function Fork(s: State, p: nat): (r: (State, nat))
    requires Limited(s, p)
    ensures Shape(r.0)
  {
    var c := EmptySlot(s.task, 1);
    if c == NR_TASKS then (s, 0)
    else
      var (s1, f) := Alloc(s);
      if f == 0 then (s1, 0)
      else CopyMem(SetTask(s1, c, Some(s.task[p].value.(page := f))), p, c, f)
  }

  /** copy_mem, and what copy_process does when it fails. */
  function CopyMem(s: State, p: nat, c: nat, f: nat): (r: (State, nat))
    requires Limited(s, p) && c < NR_TASKS
    ensures Shape(r.0)
  {
    var n := Dirs(s.task[p].value.limit);
    var (s1, ok) := CopyTables(s, p, c, 0, n);
    if ok then (s1, c) else (FreeHeld(SetTask(FreeTables(s1, c, 0, n), c, None), f), 0)
  }

  /** do_exit: the address space goes, the task structure stays until it is waited for. */
  function Exit(s: State, nr: nat): (r: State)
    requires Limited(s, nr)
    ensures Shape(r)
  {
    SetTask(FreeTables(s, nr, 0, Dirs(s.task[nr].value.limit)), nr,
            Some(s.task[nr].value.(exe := 0, zombie := true)))
  }

  function Release(s: State, nr: nat): (r: State)
    requires Limited(s, nr)
    ensures Shape(r)
  {
    FreeHeld(SetTask(s, nr, None), s.task[nr].value.page)
  }

  /** do_execve: a new executable, an empty address space and a 64 MB limit.  Its argument pages, which the
      kernel filled before, come in by PutStep. */
  function Exec(s: State, nr: nat, exe: nat): (r: State)
    requires Limited(s, nr)
    ensures Shape(r)
  {
    SetTask(FreeTables(s, nr, 0, Dirs(s.task[nr].value.limit)), nr,
            Some(s.task[nr].value.(exe := exe, limit := 16 * 1024)))
  }

  // ----- the machine ----------------------------------------------------------------------

  datatype Step =
    | ForkStep(parent: nat)
    | ExecStep(nr: nat, exe: nat)
    | ExitStep(nr: nat)
    | ReleaseStep(nr: nat)
    | ReadStep(nr: nat, k: nat, t: nat, mayShare: bool)
    | WriteStep(nr: nat, k: nat, t: nat, i: nat, v: Word, mayShare: bool)
    | VerifyStep(nr: nat, k: nat, t: nat)
    | PutStep(nr: nat, k: nat, t: nat, f: nat)
    | KernelAlloc
    | KernelFill(f: nat, page: Page)
    | KernelFree(f: nat)

  /** What an observer of the tasks' address spaces is told of a step. */
  datatype Event =
    | Forked(p: nat, c: nat)
    | Emptied(nr: nat)
    | Loaded(nr: nat, k: nat, t: nat, exe: nat)
    | Borrowed(nr: nat, k: nat, t: nat, from: nat, exe: nat)
    | LowCopied(nr: nat, k: nat, t: nat, page: Page)
    | Installed(nr: nat, k: nat, t: nat, page: Page)
    | Wrote(nr: nat, k: nat, t: nat, i: nat, v: Word)

  predicate Enabled(s: State, step: Step)
    requires Shape(s)
  {
    match step
    case ForkStep(p) => Alive(s, p) && Limited(s, p)
    case ExecStep(nr, exe) => 0 < nr && Alive(s, nr) && Limited(s, nr)
    case ExitStep(nr) => 0 < nr && Alive(s, nr) && Limited(s, nr)
    case ReleaseStep(nr) => 0 < nr < NR_TASKS && Limited(s, nr) && s.task[nr].value.zombie
    case ReadStep(nr, k, t, _) => InSpace(s, nr, k, t) && Limited(s, nr)
    case WriteStep(nr, k, t, i, _, _) => InSpace(s, nr, k, t) && Limited(s, nr) && i < 1024
    case VerifyStep(nr, k, t) => InSpace(s, nr, k, t) && Limited(s, nr)
    case PutStep(nr, k, t, f) =>
      f in s.held && f < TOP && !TaskPage(s, f) && InSpace(s, nr, k, t) && Limited(s, nr) && !Pte(s, nr, k, t).present
    case KernelAlloc => true
    case KernelFill(f, _) => f in s.held && f < TOP && !TaskPage(s, f)
    case KernelFree(f) => f in s.held && !TaskPage(s, f)
  }

  /** Make the page present; a task that finds no memory exits. */
  function Touch(s: State, files: Files, nr: nat, k: nat, t: nat, mayShare: bool): (r: (State, seq<Event>, bool))
    requires InSpace(s, nr, k, t) && Limited(s, nr)
    ensures Shape(r.0)
  {
    if Pte(s, nr, k, t).present then (s, [], true)
    else
      var (s1, ok) := NoPage(s, files, nr, k, t, mayShare);
      if ok then (s1, [Arrival(s, files, nr, k, t, mayShare)], true)
      else (Kill(s1, nr), [Emptied(nr)], false)
  }

  function Arrival(s: State, files: Files, nr: nat, k: nat, t: nat, mayShare: bool): Event
    requires InSpace(s, nr, k, t)
  {
    var exe := s.task[nr].value.exe;
    var q := Sharer(s, nr, k, t, NR_TASKS - 1);
    if mayShare && FromFile(files, exe, k, t) && q > 0 then Borrowed(nr, k, t, q, exe) else Loaded(nr, k, t, exe)
  }

  /** oom(): the current task exits. */
  function Kill(s: State, nr: nat): (r: State)
    requires Shape(s)
    ensures Shape(r)
  {
    if Limited(s, nr) then Exit(s, nr) else s
  }

  /** Make a present page writable; a task that finds no memory exits. */
  function MakeWritable(s: State, nr: nat, k: nat, t: nat): (r: (State, seq<Event>, bool))
    requires InSpace(s, nr, k, t) && Limited(s, nr)
    ensures Shape(r.0)
  {
    var (s1, ok) := WriteVerify(s, nr, k, t);
    if !ok then (Kill(s1, nr), [Emptied(nr)], false)
    else if Pte(s, nr, k, t).present && Pte(s, nr, k, t).frame < LOW then (s1, [LowCopied(nr, k, t, PageOf(s, nr, k, t))], true)
    else (s1, [], true)
  }

  function Write(s: State, files: Files, nr: nat, k: nat, t: nat, i: nat, v: Word, mayShare: bool): (r: (State, seq<Event>))
    requires InSpace(s, nr, k, t) && Limited(s, nr) && i < 1024
    ensures Shape(r.0)
  {
    var (s1, e1, ok1) := Touch(s, files, nr, k, t, mayShare);
    if !ok1 || !(InSpace(s1, nr, k, t) && Limited(s1, nr)) then (s1, e1)
    else
      var (s2, e2, ok2) := MakeWritable(s1, nr, k, t);
      if !ok2 then (s2, e1 + e2) else (Store(s2, nr, k, t, i, v), e1 + e2 + [Wrote(nr, k, t, i, v)])
  }

  function Next(s: State, files: Files, step: Step): (r: (State, seq<Event>))
    requires Shape(s) && Enabled(s, step)
    ensures Shape(r.0)
  {
    match step
    case ForkStep(p) =>
      var (s1, c) := Fork(s, p);
      (s1, if c == 0 then [] else [Forked(p, c)])
    case ExecStep(nr, exe) => (Exec(s, nr, exe), [Emptied(nr)])
    case ExitStep(nr) => (Exit(s, nr), [Emptied(nr)])
    case ReleaseStep(nr) => (Release(s, nr), [])
    case ReadStep(nr, k, t, mayShare) =>
      var (s1, e, _) := Touch(s, files, nr, k, t, mayShare);
      (s1, e)
    case WriteStep(nr, k, t, i, v, mayShare) => Write(s, files, nr, k, t, i, v, mayShare)
    case VerifyStep(nr, k, t) =>
      var (s1, e, _) := MakeWritable(s, nr, k, t);
      (s1, e)
    case PutStep(nr, k, t, f) =>
      var (s1, ok) := Put(s, f, nr, k, t);
      (s1, if ok then [Installed(nr, k, t, s.mem[f])] else [])
    case KernelAlloc => (Alloc(s).0, [])
    case KernelFill(f, page) => (s.(mem := s.mem[f := page]), [])
    case KernelFree(f) => (FreeHeld(s, f), [])
  }

  /** A run; steps that are not enabled are skipped. */
  function Run(s: State, files: Files, steps: seq<Step>): (r: (State, seq<Event>))
    requires Shape(s)
    ensures Shape(r.0)
    decreases |steps|
  {
    if steps == [] then (s, [])
    else if !Enabled(s, steps[0]) then Run(s, files, steps[1..])
    else
      var (s1, e) := Next(s, files, steps[0]);
      var (s2, es) := Run(s1, files, steps[1..]);
      (s2, e + es)
  }

  // ----- private memories ------------------------------------------------------------------

  datatype Addr = Addr(nr: nat, k: nat, t: nat)

  /** A system without sharing: every page of every task is its own. */
  type Private = map<Addr, Page>

  function View(s: State): (a: Private)
    requires Shape(s)
  {
    map nr, k, t | 0 <= nr < NR_TASKS && 0 <= k < 16 && 0 <= t < 1024 && nr > 0 && Seen(s, nr, k, t).Some? ::
      Addr(nr, k, t) := Seen(s, nr, k, t).value
  }

  /** Everything but the pages of task nr. */
  function Without(a: Private, nr: nat): (b: Private)
    ensures forall x :: x in b <==> x in a && x.nr != nr
    ensures forall x | x in b :: b[x] == a[x]
  {
    map x | x in a && x.nr != nr :: a[x]
  }

  /** The pages of task p, as pages of task c. */
  function Inherited(a: Private, p: nat, c: nat): (b: Private)
    ensures forall x :: x in b <==> x.nr == c && Addr(p, x.k, x.t) in a
    ensures forall x | x in b :: b[x] == a[Addr(p, x.k, x.t)]
  {
    var keys := set x | x in a && x.nr == p :: Addr(c, x.k, x.t);
    map x | x in keys :: a[Addr(p, x.k, x.t)]
  }

  /** What the event does where fork copies eagerly and a fault just loads the page. */
  function Replay1(a: Private, files: Files, e: Event): Private {
    match e
    case Forked(p, c) => Without(a, c) + Inherited(a, p, c)
    case Emptied(nr) => Without(a, nr)
    case Loaded(nr, k, t, exe) => a[Addr(nr, k, t) := Fill(files, exe, k, t)]
    case Borrowed(nr, k, t, q, _) => if Addr(q, k, t) in a then a[Addr(nr, k, t) := a[Addr(q, k, t)]] else a
    case LowCopied(nr, k, t, page) => a[Addr(nr, k, t) := page]
    case Installed(nr, k, t, page) => a[Addr(nr, k, t) := page]
    case Wrote(nr, k, t, i, v) =>
      if Addr(nr, k, t) in a && i < 1024 then a[Addr(nr, k, t) := a[Addr(nr, k, t)][i := v]] else a
  }

  function Replay(a: Private, files: Files, es: seq<Event>): Private
    decreases |es|
  {
    if es == [] then a else Replay(Replay1(a, files, es[0]), files, es[1..])
  }
}
