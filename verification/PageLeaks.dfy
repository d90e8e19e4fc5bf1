// No frame is lost: what the tasks used is free again when they are gone.

module PageLeaks {
  import opened Common
  import opened PageModel
  import opened PageInvariant
  import opened PageSteps
  import opened PageTables
  import opened PageFaults
  import opened PageRuns
  import opened PageRefinement
  import opened PageTheorems

  /** A frame that the kernel holds for something else than a task structure. */
  predicate KernelOwn(s: State, f: nat)
    requires Shape(s)
  {
    f in s.held && !TaskPage(s, f)
  }

  ghost predicate NoMore(s: State, r: State)
    requires Shape(s) && Shape(r)
  {
    forall f | KernelOwn(r, f) :: KernelOwn(s, f)
  }

  /** The same frames are held, for the same tasks. */
  ghost predicate SameOwners(s: State, r: State)
    requires Shape(s) && Shape(r)
  {
    r.held == s.held &&
    forall i | 0 <= i < NR_TASKS :: (r.task[i].Some? <==> s.task[i].Some?) && (s.task[i].Some? ==> r.task[i].value.page == s.task[i].value.page)
  }

  lemma SameOwnersKeep(s: State, r: State)
    requires Shape(s) && Shape(r) && SameOwners(s, r)
    ensures NoMore(s, r)
  {
    forall f | TaskPage(s, f) ensures TaskPage(r, f) {
      var nr :| 0 < nr < NR_TASKS && s.task[nr].Some? && s.task[nr].value.page == f;
      assert r.task[nr].Some? && r.task[nr].value.page == f;
    }
  }

  lemma OwnersChain(s: State, m: State, r: State)
    requires Shape(s) && Shape(m) && Shape(r) && SameOwners(s, m) && SameOwners(m, r)
    ensures SameOwners(s, r)
  {
  }

  lemma VacateOwners(s: State, nr: nat, t: Task)
    requires Inv(s) && 0 < nr < NR_TASKS && Limited(s, nr) && t.page == s.task[nr].value.page
    ensures SameOwners(s, SetTask(FreeTables(s, nr, 0, Dirs(s.task[nr].value.limit)), nr, Some(t)))
  {
    FreeSpace(s, nr);
    hide Inv, FreeTables;
  }

  /** An exited task is a zombie that runs no program and has no page and no page table left; the frames it was
      alone with are free. */
  lemma ExitMeaning(s: State, nr: nat)
    requires Inv(s) && 0 < nr < NR_TASKS && Limited(s, nr)
    ensures var r, t := Exit(s, nr), s.task[nr].value;
      r.task == s.task[nr := Some(Task(t.page, t.limit, 0, true))] && NoDirs(r, nr, 0, 16) &&
      (forall f | LOW <= f < s.high && f !in s.reserved && (forall q | Refers(s, q, f) :: Owns(q, nr)) :: Count(r, f) == 0)
  {
    var r, m := Exit(s, nr), FreeTables(s, nr, 0, Dirs(s.task[nr].value.limit));
    FreeSpace(s, nr);
    SetTaskSteps(m, nr, Some(s.task[nr].value.(exe := 0, zombie := true)));
    hide FreeTables;
    forall d | 0 <= d < 16 ensures !Dir(r, nr, d).present { assert Dir(r, nr, d) == Dir(m, nr, d); }
    forall f | LOW <= f < s.high && f !in s.reserved && (forall q | Refers(s, q, f) :: Owns(q, nr)) ensures Count(r, f) == 0 {
      forall q ensures !Refers(r, q, f) { OthersRefer(s, m, r, nr, q, f); }
      NoRefs(r, f);
      assert Counted(r, f);
    }
  }

  /** The reference is an entry of one of the task's tables, or one of its tables. */
  predicate Owns(q: Ref, nr: nat) {
    match q
    case PteRef(i, _, _) => i == nr
    case DirRef(i, _) => i == nr
    case KernelRef => false
  }

  lemma OthersRefer(s: State, m: State, r: State, nr: nat, q: Ref, f: nat)
    requires Shape(s) && Shape(m) && Shape(r) && 0 < nr < NR_TASKS && OnlyTables(s, m, nr, 0, 16) && SameDirs(m, r) && SamePtes(m, r) && r.held == m.held
    requires NoDirs(r, nr, 0, 16) && (Refers(s, q, f) ==> Owns(q, nr))
    ensures !Refers(r, q, f)
  {
    match q
    case PteRef(i, k, t) =>
      if 0 < i < NR_TASKS && k < 16 && t < 1024 {
        if i == nr { assert !Dir(r, nr, k).present; } else { assert SameTable(s, m, i, k); }
      }
    case DirRef(i, k) =>
      if 0 < i < NR_TASKS && k < 16 {
        if i == nr { assert !Dir(r, nr, k).present; } else { assert SameTable(s, m, i, k); }
      }
    case KernelRef =>
  }

  lemma KillOwners(s: State, r: State, nr: nat)
    requires Inv(s) && 0 < nr < NR_TASKS && Limited(s, nr) && Shape(r) && Unnoticed(s, r)
    ensures SameOwners(s, Kill(r, nr))
  {
    VacateOwners(r, nr, r.task[nr].value.(exe := 0, zombie := true));
    hide Inv, FreeTables;
  }

  lemma TouchOwners(s: State, files: Files, nr: nat, k: nat, t: nat, mayShare: bool)
    requires Inv(s) && InSpace(s, nr, k, t) && Limited(s, nr)
    ensures SameOwners(s, Touch(s, files, nr, k, t, mayShare).0)
  {
    if !Pte(s, nr, k, t).present {
      NoPageSteps(s, files, nr, k, t, mayShare);
      var (s1, ok) := NoPage(s, files, nr, k, t, mayShare);
      hide Inv, NoPage, Pte, SameBut, Clean;
      if !ok { KillOwners(s, s1, nr); }
    }
  }

  lemma MakeWritableOwners(s: State, nr: nat, k: nat, t: nat)
    requires Inv(s) && InSpace(s, nr, k, t) && Limited(s, nr)
    ensures SameOwners(s, MakeWritable(s, nr, k, t).0)
  {
    SelfUnnoticed(s);
    WriteVerifySteps(s, nr, k, t);
    var (s1, ok) := WriteVerify(s, nr, k, t);
    hide Inv, WriteVerify, Pte, SameBut;
    if !ok { KillOwners(s, s1, nr); }
  }

  lemma WriteOwners(s: State, files: Files, nr: nat, k: nat, t: nat, i: nat, v: Word, mayShare: bool)
    requires Inv(s) && InSpace(s, nr, k, t) && Limited(s, nr) && i < 1024
    ensures SameOwners(s, Write(s, files, nr, k, t, i, v, mayShare).0)
  {
    TouchRefines(s, files, nr, k, t, mayShare);
    TouchOwners(s, files, nr, k, t, mayShare);
    var (s1, e1, ok1) := Touch(s, files, nr, k, t, mayShare);
    assert Inv(s1) && Shape(s1);
    hide Inv, Touch, MakeWritable, Store, Refines, Clean, SameOwners;
    if ok1 && InSpace(s1, nr, k, t) && Limited(s1, nr) {
      MakeWritableOwners(s1, nr, k, t);
      var (s2, e2, ok2) := MakeWritable(s1, nr, k, t);
      OwnersChain(s, s1, s2);
      if ok2 {
        StoreOwners(s2, nr, k, t, i, v);
        OwnersChain(s, s2, Store(s2, nr, k, t, i, v));
      }
    }
  }

  lemma StoreOwners(s: State, nr: nat, k: nat, t: nat, i: nat, v: Word)
    requires Shape(s) && nr < NR_TASKS && k < 16 && t < 1024 && i < 1024
    ensures SameOwners(s, Store(s, nr, k, t, i, v))
  {
  }

  lemma ForkFailsOwners(s: State, a: State, c: nat, f: nat, n: nat)
    requires Inv(a) && Shape(s) && 0 < c < NR_TASKS && Limited(a, c) && a.task[c].value.page == f && Alive(a, c) && n == Dirs(a.task[c].value.limit)
    requires a.held == s.held + {f} && f !in s.held && s.task[c].None? && a.task == s.task[c := a.task[c]]
    ensures SameOwners(s, FreeHeld(SetTask(FreeTables(a, c, 0, n), c, None), f))
  {
    UndoSteps(a, c, f);
    FreeTablesTask(a, c, 0, n);
    hide Inv, FreeTables;
    assert a.held - {f} == s.held;
  }

  lemma ForkOwners(s: State, files: Files, p: nat)
    requires Inv(s) && Alive(s, p) && Limited(s, p)
    ensures NoMore(s, Fork(s, p).0)
  {
    var c := EmptySlot(s.task, 1);
    var (s1, f) := Alloc(s);
    AllocStep(s);
    var r := Fork(s, p).0;
    if c < NR_TASKS && f != 0 {
      ForkBegins(s, files, p);
      var m := SetTask(s1, c, Some(s.task[p].value.(page := f)));
      var n := Dirs(s.task[p].value.limit);
      CopyTablesSteps(m, files, p, c, 0, n);
      var (a, ok) := CopyTables(m, p, c, 0, n);
      assert a.task == s.task[c := m.task[c]] && a.held == s.held + {f};
      assert Shape(s) && Shape(a) && 0 < c && Alive(a, c) && Limited(a, c);
      assert r == if ok then a else FreeHeld(SetTask(FreeTables(a, c, 0, n), c, None), f);
      hide Inv, Fork, CopyTables, FreeTables, Alloc, FreeHeld, CopiedTables, SeesParent, InheritsParent, CanCopyTables, NoMore, SameOwners, EmptySlot;
      if ok {
        NewTaskOwners(s, r, c, f);
      } else {
        ForkFailsOwners(s, a, c, f, n);
        SameOwnersKeep(s, r);
      }
    } else {
      assert r == s;
      assert SameOwners(s, r);
      SameOwnersKeep(s, r);
    }
  }

  lemma FreeTablesTask(s: State, nr: nat, k: nat, n: nat)
    requires Inv(s) && 0 < nr < NR_TASKS && k <= n <= 16
    ensures FreeTables(s, nr, k, n).task == s.task
  {
    FreeTablesSteps(s, nr, k, n);
  }

  lemma NewTaskOwners(s: State, r: State, c: nat, f: nat)
    requires Shape(s) && Shape(r) && 0 < c < NR_TASKS && s.task[c].None? && r.held == s.held + {f} && r.task[c].Some? && r.task[c].value.page == f
    requires forall i | 0 <= i < NR_TASKS && i != c :: r.task[i] == s.task[i]
    ensures NoMore(s, r)
  {
    assert TaskPage(r, f);
    forall g | TaskPage(s, g) ensures TaskPage(r, g) {
      var nr :| 0 < nr < NR_TASKS && s.task[nr].Some? && s.task[nr].value.page == g;
      assert r.task[nr] == s.task[nr];
    }
  }

  /** The frame of a released task structure is free at once. */
  lemma ReleaseOwners(s: State, nr: nat)
    requires Inv(s) && 0 < nr < NR_TASKS && Limited(s, nr) && s.task[nr].value.zombie
    ensures var r := Release(s, nr); NoMore(s, r) && r.task == s.task[nr := None] && r.held == s.held - {s.task[nr].value.page}
  {
    var r, page := Release(s, nr), s.task[nr].value.page;
    forall f | TaskPage(s, f) && f != page ensures TaskPage(r, f) {
      var i :| 0 < i < NR_TASKS && s.task[i].Some? && s.task[i].value.page == f;
      assert i != nr && r.task[i] == s.task[i];
    }
  }

  lemma FewerHeld(s: State, r: State)
    requires Shape(s) && Shape(r) && r.held <= s.held && r.task == s.task
    ensures NoMore(s, r)
  {
  }

  /** Only the kernel's own get_free_page gives the kernel a frame of its own. */
  lemma NextOwners(s: State, files: Files, step: Step)
    requires Inv(s) && Enabled(s, step) && step != KernelAlloc
    ensures NoMore(s, Next(s, files, step).0)
  {
    var r := Next(s, files, step).0;
    match step
    case ForkStep(p) => ForkOwners(s, files, p);
    case ExecStep(nr, exe) =>
      VacateOwners(s, nr, s.task[nr].value.(exe := exe, limit := 16 * 1024));
      SameOwnersKeep(s, r);
    case ExitStep(nr) =>
      VacateOwners(s, nr, s.task[nr].value.(exe := 0, zombie := true));
      SameOwnersKeep(s, r);
    case ReleaseStep(nr) => ReleaseOwners(s, nr);
    case ReadStep(nr, k, t, mayShare) =>
      TouchOwners(s, files, nr, k, t, mayShare);
      SameOwnersKeep(s, r);
    case WriteStep(nr, k, t, i, v, mayShare) =>
      WriteOwners(s, files, nr, k, t, i, v, mayShare);
      SameOwnersKeep(s, r);
    case VerifyStep(nr, k, t) =>
      MakeWritableOwners(s, nr, k, t);
      SameOwnersKeep(s, r);
    case PutStep(nr, k, t, f) =>
      PutSteps(s, f, nr, k, t);
      FewerHeld(s, r);
    case KernelFill(f, page) => FewerHeld(s, r);
    case KernelFree(f) =>
      DropHeldStep(s, f);
      FewerHeld(s, r);
  }

  lemma {:induction false} RunOwners(s: State, files: Files, steps: seq<Step>)
    requires Inv(s) && KernelAlloc !in steps
    ensures NoMore(s, Run(s, files, steps).0)
    decreases |steps|
  {
    if steps != [] {
      assert steps[0] in steps && forall x | x in steps[1..] :: x in steps;
      if Enabled(s, steps[0]) {
        NextRefines(s, files, steps[0]);
        NextOwners(s, files, steps[0]);
        var s1 := Next(s, files, steps[0]).0;
        hide Inv, Next, Enabled, Refines, Clean, KernelOwn;
        RunOwners(s1, files, steps[1..]);
      } else {
        RunOwners(s, files, steps[1..]);
      }
    }
  }

  /** Nothing leaks: after any run from boot in which the kernel takes no frame for itself, once every task is
      gone every frame that mem_init made available is free. */
  lemma NothingLeaks(boot: State, files: Files, steps: seq<Step>)
    requires Boot(boot) && KernelAlloc !in steps
    requires forall nr | 0 < nr < NR_TASKS :: Run(boot, files, steps).0.task[nr].None?
    ensures var s := Run(boot, files, steps).0; forall f | LOW <= f < TOP && f !in s.reserved :: Count(s, f) == 0
  {
    BootInv(boot, files);
    RunRefinesPrivate(boot, files, steps);
    RunOwners(boot, files, steps);
    var s := Run(boot, files, steps).0;
    assert s.held == {} by {
      forall f | f in s.held ensures KernelOwn(s, f) {}
      assert forall f :: !KernelOwn(boot, f);
    }
    forall f | LOW <= f < TOP && f !in s.reserved ensures Count(s, f) == 0 {
      forall q ensures !Refers(s, q, f) {
        match q
        case PteRef(nr, k, t) => if 0 < nr < NR_TASKS && k < 16 && t < 1024 { assert !Dir(s, nr, k).present; }
        case DirRef(nr, k) => if 0 < nr < NR_TASKS && k < 16 { assert !Dir(s, nr, k).present; }
        case KernelRef =>
      }
      NoRefs(s, f);
      assert Counted(s, f);
    }
  }
}
