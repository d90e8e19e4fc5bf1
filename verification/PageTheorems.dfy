// The main results about paging: over every run, tasks see what private memories would show,
// frame counts are exact, and nothing panics.

module PageTheorems {
  import opened Common
  import opened PageModel
  import opened PageInvariant
  import opened PageSteps
  import opened PageEntries
  import opened PageTables
  import opened PageFaults
  import opened PageRuns
  import opened PageRefinement

  // ----- views ---------------------------------------------------------------------------

  lemma InView(s: State, x: Addr)
    requires Shape(s)
    ensures x in View(s) <==> 0 < x.nr < NR_TASKS && x.k < 16 && x.t < 1024 && Seen(s, x.nr, x.k, x.t).Some?
    ensures x in View(s) ==> View(s)[x] == Seen(s, x.nr, x.k, x.t).value
  {
  }

  lemma SameViewsView(s: State, r: State)
    requires Shape(s) && Shape(r) && SameViews(s, r)
    ensures View(r) == View(s)
  {
    forall x ensures x in View(r) <==> x in View(s)
             ensures x in View(r) ==> View(r)[x] == View(s)[x]
    {
      InView(s, x); InView(r, x);
    }
  }

  lemma PageView(s: State, r: State, nr: nat, k: nat, t: nat, page: Page)
    requires Shape(s) && Shape(r) && 0 < nr < NR_TASKS && k < 16 && t < 1024
    requires SameBut(s, r, nr, k, t) && Seen(r, nr, k, t) == Some(page)
    ensures View(r) == View(s)[Addr(nr, k, t) := page]
  {
    var b := View(s)[Addr(nr, k, t) := page];
    forall x ensures x in View(r) <==> x in b
             ensures x in View(r) ==> View(r)[x] == b[x]
    {
      InView(s, x); InView(r, x);
    }
  }

  lemma VacatedView(s: State, r: State, files: Files, nr: nat)
    requires Shape(s) && Shape(r) && Vacated(s, r, nr)
    ensures View(r) == Replay1(View(s), files, Emptied(nr))
  {
    var b := Replay1(View(s), files, Emptied(nr));
    forall x ensures x in View(r) <==> x in b
             ensures x in View(r) ==> View(r)[x] == b[x]
    {
      InView(s, x); InView(r, x);
    }
  }

  /** Membership and contents of the forked memory, page by page. */
  lemma ForkedPage(a: Private, p: nat, c: nat, x: Addr)
    requires p != c
    ensures var b := Without(a, c) + Inherited(a, p, c); var y := if x.nr == c then Addr(p, x.k, x.t) else x;
      (x in b <==> y in a) && (y in a ==> b[x] == a[y])
  {
  }

  lemma ForkPageView(s: State, r: State, p: nat, c: nat, x: Addr)
    requires Shape(s) && Shape(r) && p < NR_TASKS && 0 < c < NR_TASKS && p != c && ForkedView(s, r, p, c)
    ensures var y := if x.nr == c then Addr(p, x.k, x.t) else x;
      (x in View(r) <==> y in View(s)) && (y in View(s) ==> View(r)[x] == View(s)[y])
  {
    InView(r, x);
    InView(s, if x.nr == c then Addr(p, x.k, x.t) else x);
  }

  lemma ForkView(s: State, r: State, files: Files, p: nat, c: nat)
    requires Shape(s) && Shape(r) && p < NR_TASKS && 0 < c < NR_TASKS && p != c && ForkedView(s, r, p, c)
    ensures View(r) == Replay1(View(s), files, Forked(p, c))
  {
    hide View, Without, Inherited, ForkedView;
    var a, v := View(s), View(r);
    var b := Without(a, c) + Inherited(a, p, c);
    forall x ensures (x in v <==> x in b) && (x in v ==> v[x] == b[x]) {
      ForkPageView(s, r, p, c, x);
      ForkedPage(a, p, c, x);
    }
    assert v == b;
  }

  lemma {:induction false} ReplayConcat(a: Private, files: Files, es: seq<Event>, fs: seq<Event>)
    ensures Replay(a, files, es + fs) == Replay(Replay(a, files, es), files, fs)
    decreases |es|
  {
    if es == [] {
      assert es + fs == fs;
    } else {
      assert (es + fs)[1..] == es[1..] + fs;
      ReplayConcat(Replay1(a, files, es[0]), files, es[1..], fs);
    }
  }

  lemma ReplayOne(a: Private, files: Files, e: Event)
    ensures Replay(a, files, [e]) == Replay1(a, files, e)
  {
    assert [e][1..] == [];
  }

  // ----- the events of one page ------------------------------------------------------------

  lemma ReplayWrote(a: Private, files: Files, x: Addr, was: Page, i: nat, v: Word)
    requires x in a && a[x] == was && i < 1024
    ensures Replay(a, files, [Wrote(x.nr, x.k, x.t, i, v)]) == a[x := was[i := v]]
  {
    ReplayOne(a, files, Wrote(x.nr, x.k, x.t, i, v));
    assert x == Addr(x.nr, x.k, x.t);
  }

  lemma WroteView(s: State, r: State, files: Files, nr: nat, k: nat, t: nat, was: Page, i: nat, v: Word)
    requires Shape(s) && Shape(r) && 0 < nr < NR_TASKS && k < 16 && t < 1024 && i < 1024
    requires SameBut(s, r, nr, k, t) && Seen(s, nr, k, t) == Some(was) && Seen(r, nr, k, t) == Some(was[i := v])
    ensures View(r) == Replay(View(s), files, [Wrote(nr, k, t, i, v)])
  {
    PageView(s, r, nr, k, t, was[i := v]);
    InView(s, Addr(nr, k, t));
    ReplayWrote(View(s), files, Addr(nr, k, t), was, i, v);
  }

  lemma LowCopiedView(s: State, r: State, files: Files, nr: nat, k: nat, t: nat, page: Page)
    requires Shape(s) && Shape(r) && 0 < nr < NR_TASKS && k < 16 && t < 1024
    requires SameBut(s, r, nr, k, t) && Seen(r, nr, k, t) == Some(page)
    ensures View(r) == Replay(View(s), files, [LowCopied(nr, k, t, page)])
  {
    hide View, Seen, SameBut;
    PageView(s, r, nr, k, t, page);
    ReplayOne(View(s), files, LowCopied(nr, k, t, page));
  }

  lemma ArrivalView(s: State, r: State, files: Files, nr: nat, k: nat, t: nat, mayShare: bool)
    requires Shape(s) && Shape(r) && InSpace(s, nr, k, t)
    requires SameBut(s, r, nr, k, t) && Seen(r, nr, k, t) == Some(Arrives(s, files, nr, k, t, mayShare))
    ensures View(r) == Replay(View(s), files, [Arrival(s, files, nr, k, t, mayShare)])
  {
    PageView(s, r, nr, k, t, Arrives(s, files, nr, k, t, mayShare));
    var q := Sharer(s, nr, k, t, NR_TASKS - 1);
    if q > 0 { InView(s, Addr(q, k, t)); }
    ReplayOne(View(s), files, Arrival(s, files, nr, k, t, mayShare));
  }

  // ----- one step ------------------------------------------------------------------------

  /** The step keeps the invariant and its events tell what the tasks see afterwards. */
  ghost predicate Refines(s: State, r: State, files: Files, es: seq<Event>)
    requires Shape(s) && Shape(r)
  {
    Inv(r) && View(r) == Replay(View(s), files, es)
  }

  lemma ExitRefines(s: State, files: Files, nr: nat, t: Task)
    requires Inv(s) && 0 < nr < NR_TASKS && Limited(s, nr)
    requires t.page == s.task[nr].value.page && t.limit <= 16 * 1024
    ensures var r := SetTask(FreeTables(s, nr, 0, Dirs(s.task[nr].value.limit)), nr, Some(t));
      Refines(s, r, files, [Emptied(nr)]) && AllKept(s, r)
  {
    VacateSteps(s, nr, t);
    var r := SetTask(FreeTables(s, nr, 0, Dirs(s.task[nr].value.limit)), nr, Some(t));
    VacatedView(s, r, files, nr);
    ReplayOne(View(s), files, Emptied(nr));
  }

  lemma KillRefines(s: State, r: State, files: Files, nr: nat)
    requires Inv(s) && 0 < nr < NR_TASKS && Limited(s, nr) && s.task[nr].value.limit <= 16 * 1024 && Shape(r) && Unnoticed(s, r)
    ensures Refines(s, Kill(r, nr), files, [Emptied(nr)]) && AllKept(s, Kill(r, nr))
  {
    ExitRefines(r, files, nr, r.task[nr].value.(exe := 0, zombie := true));
    SameViewsView(s, r);
    KeptChain(s, r, Kill(r, nr));
  }

  lemma TouchRefines(s: State, files: Files, nr: nat, k: nat, t: nat, mayShare: bool)
    requires Inv(s) && InSpace(s, nr, k, t) && Limited(s, nr)
    ensures var (r, es, ok) := Touch(s, files, nr, k, t, mayShare);
      Refines(s, r, files, es) && (Clean(s, files) ==> Clean(r, files)) &&
      (ok ==> InSpace(r, nr, k, t) && Limited(r, nr) && Pte(r, nr, k, t).present)
  {
    var (r, es, ok) := Touch(s, files, nr, k, t, mayShare);
    if !Pte(s, nr, k, t).present {
      NoPageSteps(s, files, nr, k, t, mayShare);
      var s1 := NoPage(s, files, nr, k, t, mayShare).0;
      if ok {
        ArrivalView(s, r, files, nr, k, t, mayShare);
      } else {
        KillRefines(s, s1, files, nr);
        CleanKept(s, r, files);
      }
    }
  }

  lemma UnWpRefines(s: State, files: Files, nr: nat, k: nat, t: nat)
    requires Inv(s) && InSpace(s, nr, k, t) && Pte(s, nr, k, t).present && !Pte(s, nr, k, t).rw
    ensures var (r, ok) := UnWp(s, nr, k, t);
      ok ==> View(r) == Replay(View(s), files, if Pte(s, nr, k, t).frame < LOW then [LowCopied(nr, k, t, PageOf(s, nr, k, t))] else [])
  {
    var (r, ok) := UnWp(s, nr, k, t);
    UnWpSteps(s, nr, k, t);
    if ok {
      if Pte(s, nr, k, t).frame < LOW {
        LowCopiedView(s, r, files, nr, k, t, PageOf(s, nr, k, t));
      } else {
        forall i, d, e | 0 < i < NR_TASKS && 0 <= d < 16 && 0 <= e < 1024 ensures Seen(r, i, d, e) == Seen(s, i, d, e) {
          if (i, d, e) == (nr, k, t) { assert Seen(s, nr, k, t) == Some(PageOf(s, nr, k, t)); }
        }
        SameViewsView(s, r);
      }
    }
  }

  lemma MakeWritableRefines(s: State, files: Files, nr: nat, k: nat, t: nat)
    requires Inv(s) && InSpace(s, nr, k, t) && Limited(s, nr)
    ensures var (r, es, ok) := MakeWritable(s, nr, k, t);
      Refines(s, r, files, es) && (!ok ==> AllKept(s, r)) &&
      (ok ==> KeptBut(s, r, nr, k, t) && InSpace(r, nr, k, t) && Limited(r, nr) &&
              (Pte(s, nr, k, t).present ==> Pte(r, nr, k, t).present && Pte(r, nr, k, t).rw))
  {
    var (r, es, ok) := MakeWritable(s, nr, k, t);
    var w := Pte(s, nr, k, t);
    SelfUnnoticed(s);
    WriteVerifySteps(s, nr, k, t);
    if w.present && !w.rw {
      UnWpRefines(s, files, nr, k, t);
      if !ok { KillRefines(s, s, files, nr); }
    } else {
      assert r == s && ok;
    }
  }

  lemma StoreRefines(s: State, files: Files, nr: nat, k: nat, t: nat, i: nat, v: Word)
    requires Inv(s) && InSpace(s, nr, k, t) && i < 1024 && Pte(s, nr, k, t).present && Pte(s, nr, k, t).rw
    ensures Refines(s, Store(s, nr, k, t, i, v), files, [Wrote(nr, k, t, i, v)])
    ensures CleanBut(s, files, nr, k, t) ==> Clean(Store(s, nr, k, t, i, v), files)
  {
    StoreStep(s, nr, k, t, i, v);
    var r := Store(s, nr, k, t, i, v);
    WritableAlone(s, nr, k, t);
    WroteView(s, r, files, nr, k, t, PageOf(s, nr, k, t), i, v);
    CleanKeptBut(s, r, files, nr, k, t);
    if CleanBut(s, files, nr, k, t) {
      assert CleanAt(r, files, nr, k, t);
    }
  }

  lemma WriteRefines(s: State, files: Files, nr: nat, k: nat, t: nat, i: nat, v: Word, mayShare: bool)
    requires Inv(s) && InSpace(s, nr, k, t) && Limited(s, nr) && i < 1024
    ensures var (r, es) := Write(s, files, nr, k, t, i, v, mayShare);
      Refines(s, r, files, es) && (Clean(s, files) ==> Clean(r, files))
  {
    TouchRefines(s, files, nr, k, t, mayShare);
    var (s1, e1, ok1) := Touch(s, files, nr, k, t, mayShare);
    if ok1 {
      MakeWritableRefines(s1, files, nr, k, t);
      var (s2, e2, ok2) := MakeWritable(s1, nr, k, t);
      ReplayConcat(View(s), files, e1, e2);
      if ok2 {
        StoreRefines(s2, files, nr, k, t, i, v);
        ReplayConcat(View(s), files, e1 + e2, [Wrote(nr, k, t, i, v)]);
        CleanKeptBut(s1, s2, files, nr, k, t);
      } else {
        CleanKept(s1, s2, files);
      }
    }
  }

  // ----- every step, every run -----------------------------------------------------------

  /** The step gives a task a page that is taken for unwritten although, at an address that is loaded from
      the executable, its bytes are others: write_verify un-shares a page that the processor marked written,
      or put_page installs a page of the kernel's. */
  ghost predicate Stale(s: State, files: Files, step: Step)
    requires Shape(s) && Enabled(s, step)
  {
    match step
    case VerifyStep(nr, k, t) =>
      var w := Pte(s, nr, k, t);
      w.present && !w.rw && (LOW <= w.frame < TOP ==> Count(s, w.frame) != 1) && Alloc(s).1 != 0 && Differs(s, files, nr, k, t, PageOf(s, nr, k, t))
    case PutStep(nr, k, t, f) => Put(s, f, nr, k, t).1 && Differs(s, files, nr, k, t, s.mem[f])
    case _ => false
  }

  /** The executable has other bytes for the address. */
  ghost predicate Differs(s: State, files: Files, nr: nat, k: nat, t: nat, page: Page)
    requires InSpace(s, nr, k, t)
  {
    var exe := s.task[nr].value.exe;
    FromFile(files, exe, k, t) && page != files.image(exe, k * 1024 + t)
  }

  lemma InstalledClean(s: State, r: State, files: Files, nr: nat, k: nat, t: nat, page: Page)
    requires InSpace(s, nr, k, t) && Shape(r) && KeptBut(s, r, nr, k, t) && r.task == s.task
    requires !Pte(r, nr, k, t).dirty && Seen(r, nr, k, t) == Some(page)
    ensures Clean(s, files) ==> (Clean(r, files) <==> !Differs(s, files, nr, k, t, page))
  {
    CleanKeptBut(s, r, files, nr, k, t);
    assert Unwritten(r, nr, k, t);
    hide KeptBut, Pte, Seen;
    assert CleanBut(r, files, nr, k, t) ==> (Clean(r, files) <==> CleanAt(r, files, nr, k, t));
  }

  lemma PutRefines(s: State, files: Files, nr: nat, k: nat, t: nat, f: nat)
    requires Inv(s) && Enabled(s, PutStep(nr, k, t, f))
    ensures var step := PutStep(nr, k, t, f); var (r, es) := Next(s, files, step);
      Refines(s, r, files, es) && (Clean(s, files) ==> (Clean(r, files) <==> !Stale(s, files, step)))
  {
    hide Exclusive, Counts, Tables, Kernel, TaskPages, Put, Pte, Seen, Clean, Differs, SameBut, KeptBut, View;
    var (r, ok) := Put(s, f, nr, k, t);
    PutSteps(s, f, nr, k, t);
    if ok {
      PageView(s, r, nr, k, t, s.mem[f]);
      ReplayOne(View(s), files, Installed(nr, k, t, s.mem[f]));
      InstalledClean(s, r, files, nr, k, t, s.mem[f]);
    }
  }

  lemma FillRefines(s: State, files: Files, f: nat, page: Page)
    requires Inv(s) && Enabled(s, KernelFill(f, page))
    ensures var r := Next(s, files, KernelFill(f, page)).0; Refines(s, r, files, []) && (Clean(s, files) ==> Clean(r, files))
  {
    var r := s.(mem := s.mem[f := page]);
    FillHeldStep(s, f, page);
    SameViewsView(s, r);
    CleanKept(s, r, files);
  }

  lemma VerifyClean(s: State, files: Files, nr: nat, k: nat, t: nat)
    requires Inv(s) && Clean(s, files) && Enabled(s, VerifyStep(nr, k, t))
    ensures Clean(MakeWritable(s, nr, k, t).0, files) <==> !Stale(s, files, VerifyStep(nr, k, t))
  {
    hide Exclusive, Counts, Tables, Kernel, TaskPages, Refines;
    var (r, es, ok) := MakeWritable(s, nr, k, t);
    MakeWritableRefines(s, files, nr, k, t);
    var w := Pte(s, nr, k, t);
    if !w.present || w.rw {
    } else if LOW <= w.frame < TOP && Count(s, w.frame) == 1 {
      UnprotectStep(s, nr, k, t);
      CleanKept(s, r, files);
    } else {
      UnWpCopies(s, nr, k, t);
      AllocStep(s);
      if ok {
        CleanKeptBut(s, r, files, nr, k, t);
        assert Unwritten(r, nr, k, t);
        assert Clean(r, files) <==> CleanAt(r, files, nr, k, t);
      } else {
        CleanKept(s, r, files);
      }
    }
  }

  lemma ForkRefines(s: State, files: Files, p: nat)
    requires Inv(s) && Enabled(s, ForkStep(p))
    ensures var (r, es) := Next(s, files, ForkStep(p)); Refines(s, r, files, es) && (Clean(s, files) ==> Clean(r, files))
  {
    ForkSteps(s, files, p);
    var (r, c) := Fork(s, p);
    if c == 0 {
      SameViewsView(s, r);
    } else {
      ForkView(s, r, files, p, c);
      ReplayOne(View(s), files, Forked(p, c));
    }
  }

  /** One step of the machine is what its events say, and unwritten pages keep showing the file
      exactly when the step is not a stale write_verify. */
  lemma NextRefines(s: State, files: Files, step: Step)
    requires Inv(s) && Enabled(s, step)
    ensures var (r, es) := Next(s, files, step);
      Refines(s, r, files, es) && (Clean(s, files) ==> (Clean(r, files) <==> !Stale(s, files, step)))
  {
    var (r, es) := Next(s, files, step);
    match step
    case ForkStep(p) => ForkRefines(s, files, p);
    case ExecStep(nr, exe) =>
      ExitRefines(s, files, nr, s.task[nr].value.(exe := exe, limit := 16 * 1024));
      CleanKept(s, r, files);
    case ExitStep(nr) =>
      ExitRefines(s, files, nr, s.task[nr].value.(exe := 0, zombie := true));
      CleanKept(s, r, files);
    case PutStep(nr, k, t, f) => PutRefines(s, files, nr, k, t, f);
    case KernelFill(f, page) => FillRefines(s, files, f, page);
    case ReleaseStep(nr) =>
      ReleaseSteps(s, nr);
      SameViewsView(s, r);
      CleanKept(s, r, files);
    case ReadStep(nr, k, t, mayShare) => TouchRefines(s, files, nr, k, t, mayShare);
    case WriteStep(nr, k, t, i, v, mayShare) => WriteRefines(s, files, nr, k, t, i, v, mayShare);
    case VerifyStep(nr, k, t) =>
      MakeWritableRefines(s, files, nr, k, t);
      if Clean(s, files) { VerifyClean(s, files, nr, k, t); }
    case KernelAlloc =>
      AllocStep(s);
      SameViewsView(s, r);
      CleanKept(s, r, files);
    case KernelFree(f) =>
      DropHeldStep(s, f);
      SameViewsView(s, r);
      CleanKept(s, r, files);
  }

  /** Copy-on-write refines private copies, over every run: the address spaces the tasks see at
      the end are those that replaying the events on private memories gives, where a fork copies
      every page and a write touches nobody else. */
  lemma {:induction false} RunRefinesPrivate(s: State, files: Files, steps: seq<Step>)
    requires Inv(s)
    ensures var (r, es) := Run(s, files, steps); Inv(r) && View(r) == Replay(View(s), files, es)
    decreases |steps|
  {
    if steps != [] {
      if Enabled(s, steps[0]) {
        NextRefines(s, files, steps[0]);
        var (s1, e) := Next(s, files, steps[0]);
        var es := Run(s1, files, steps[1..]).1;
        RunRefinesPrivate(s1, files, steps[1..]);
        ReplayConcat(View(s), files, e, es);
      } else {
        RunRefinesPrivate(s, files, steps[1..]);
      }
    }
  }

  /** The event as it would be without any page sharing: every page comes from its executable. */
  function Plain(e: Event): Event {
    match e
    case Borrowed(nr, k, t, _, exe) => Loaded(nr, k, t, exe)
    case _ => e
  }

  function Plains(es: seq<Event>): (r: seq<Event>)
    ensures |r| == |es|
  {
    if es == [] then [] else [Plain(es[0])] + Plains(es[1..])
  }

  lemma {:induction false} PlainsConcat(es: seq<Event>, fs: seq<Event>)
    ensures Plains(es + fs) == Plains(es) + Plains(fs)
    decreases |es|
  {
    if es == [] {
      assert es + fs == fs;
    } else {
      assert (es + fs)[1..] == es[1..] + fs;
      PlainsConcat(es[1..], fs);
    }
  }

  /** No write_verify of the run is stale. */
  ghost predicate NoStale(s: State, files: Files, steps: seq<Step>)
    requires Shape(s)
    decreases |steps|
  {
    steps != [] ==>
      if !Enabled(s, steps[0]) then NoStale(s, files, steps[1..])
      else !Stale(s, files, steps[0]) && NoStale(Next(s, files, steps[0]).0, files, steps[1..])
  }

  /** The event does the same on private memories whether or not pages are shared. */
  lemma ArrivalPlain(s: State, files: Files, nr: nat, k: nat, t: nat, mayShare: bool)
    requires Inv(s) && Clean(s, files) && InSpace(s, nr, k, t)
    ensures var e := Arrival(s, files, nr, k, t, mayShare);
      Replay(View(s), files, [e]) == Replay(View(s), files, [Plain(e)])
  {
    var e := Arrival(s, files, nr, k, t, mayShare);
    var q := Sharer(s, nr, k, t, NR_TASKS - 1);
    ReplayOne(View(s), files, e);
    ReplayOne(View(s), files, Plain(e));
    SharingIsLoading(s, files, nr, k, t, mayShare);
    if q > 0 { InView(s, Addr(q, k, t)); }
  }

  lemma PlainsOne(e: Event)
    ensures Plains([e]) == [Plain(e)]
  {
    assert [e][1..] == [];
  }

  lemma TouchPlain(s: State, files: Files, nr: nat, k: nat, t: nat, mayShare: bool)
    requires Inv(s) && Clean(s, files) && InSpace(s, nr, k, t) && Limited(s, nr)
    ensures var es := Touch(s, files, nr, k, t, mayShare).1; Replay(View(s), files, es) == Replay(View(s), files, Plains(es))
  {
    var (r, es, ok) := Touch(s, files, nr, k, t, mayShare);
    if es != [] {
      PlainsOne(es[0]);
      if ok { ArrivalPlain(s, files, nr, k, t, mayShare); }
    }
  }

  lemma WritePlain(s: State, files: Files, nr: nat, k: nat, t: nat, i: nat, v: Word, mayShare: bool)
    requires Inv(s) && Clean(s, files) && InSpace(s, nr, k, t) && Limited(s, nr) && i < 1024
    ensures var es := Write(s, files, nr, k, t, i, v, mayShare).1; Replay(View(s), files, es) == Replay(View(s), files, Plains(es))
  {
    TouchRefines(s, files, nr, k, t, mayShare);
    TouchPlain(s, files, nr, k, t, mayShare);
    var (s1, e1, ok1) := Touch(s, files, nr, k, t, mayShare);
    var es := Write(s, files, nr, k, t, i, v, mayShare).1;
    if ok1 {
      var (s2, e2, ok2) := MakeWritable(s1, nr, k, t);
      var rest := if ok2 then e2 + [Wrote(nr, k, t, i, v)] else e2;
      assert e1 + e2 + [Wrote(nr, k, t, i, v)] == e1 + (e2 + [Wrote(nr, k, t, i, v)]);
      assert es == e1 + rest;
      PlainsConcat(e1, rest);
      ReplayConcat(View(s), files, e1, rest);
      ReplayConcat(View(s), files, Plains(e1), rest);
      NothingBorrowed(s1, nr, k, t, i, v);
    }
  }

  lemma NothingBorrowed(s: State, nr: nat, k: nat, t: nat, i: nat, v: Word)
    requires InSpace(s, nr, k, t) && Limited(s, nr)
    ensures var e := MakeWritable(s, nr, k, t).1;
      Plains(e) == e && Plains(e + [Wrote(nr, k, t, i, v)]) == e + [Wrote(nr, k, t, i, v)]
  {
    var e := MakeWritable(s, nr, k, t).1;
    var w := Wrote(nr, k, t, i, v);
    if e != [] { PlainsOne(e[0]); }
    PlainsOne(w);
    PlainsConcat(e, [w]);
  }

  lemma NextPlain(s: State, files: Files, step: Step)
    requires Inv(s) && Clean(s, files) && Enabled(s, step)
    ensures var es := Next(s, files, step).1; Replay(View(s), files, es) == Replay(View(s), files, Plains(es))
  {
    hide Exclusive, Counts, Tables, Kernel, TaskPages, Clean, View;
    match step
    case ReadStep(nr, k, t, mayShare) => TouchPlain(s, files, nr, k, t, mayShare);
    case WriteStep(nr, k, t, i, v, mayShare) => WritePlain(s, files, nr, k, t, i, v, mayShare);
    case VerifyStep(nr, k, t) =>
      NothingBorrowed(s, nr, k, t, 0, ZERO);
    case ForkStep(p) => PlainsOne(Forked(p, Fork(s, p).1));
    case ExecStep(nr, _) => PlainsOne(Emptied(nr));
    case ExitStep(nr) => PlainsOne(Emptied(nr));
    case PutStep(nr, k, t, f) => PlainsOne(Installed(nr, k, t, s.mem[f]));
    case _ =>
  }

  /** As long as no write_verify is stale, page sharing between tasks is invisible: every page a
      task is given shows the bytes of its executable, or zeros, as if it had been loaded. */
  lemma {:induction false} SharingInvisible(s: State, files: Files, steps: seq<Step>)
    requires Inv(s) && Clean(s, files) && NoStale(s, files, steps)
    ensures var (r, es) := Run(s, files, steps);
      Clean(r, files) && View(r) == Replay(View(s), files, Plains(es))
    decreases |steps|
  {
    if steps != [] {
      if Enabled(s, steps[0]) {
        NextRefines(s, files, steps[0]);
        NextPlain(s, files, steps[0]);
        var (s1, e) := Next(s, files, steps[0]);
        var es := Run(s1, files, steps[1..]).1;
        SharingInvisible(s1, files, steps[1..]);
        ReplayConcat(View(s), files, Plains(e), Plains(es));
        PlainsConcat(e, es);
      } else {
        SharingInvisible(s, files, steps[1..]);
      }
    }
  }

  // ----- reachable states ------------------------------------------------------------------

  /** The state mem_init and sched_init leave: only task 0, on the kernel's tables. */
  ghost predicate Boot(s: State) {
    && Shape(s) && !s.panic && s.held == {} && Kernel(s)
    && (forall nr, k | 0 < nr < NR_TASKS && 0 <= k < 16 :: !Dir(s, nr, k).present)
    && (forall nr | 0 < nr < NR_TASKS :: s.task[nr].None?)
    && (forall f | LOW <= f < TOP :: Count(s, f) == if f in s.reserved then USED else 0)
    && (forall f | s.high <= f < TOP :: f in s.reserved)
  }

  lemma BootInv(s: State, files: Files)
    requires Boot(s)
    ensures Inv(s) && Clean(s, files) && View(s) == map[]
  {
    forall q, f ensures !Refers(s, q, f) {}
    forall f | LOW <= f < TOP ensures Counted(s, f) { NoRefs(s, f); }
    forall x ensures x !in View(s) { InView(s, x); }
  }

  /** In every state the kernel can reach: no panic; each byte of mem_map is the number of
      page-table, directory and kernel references to its frame, at most one per task; and a
      user-writable entry is the only reference to its frame, which is never in low memory. */
  lemma FramesAccounted(boot: State, files: Files, steps: seq<Step>)
    requires Boot(boot)
    ensures var s := Run(boot, files, steps).0;
      !s.panic &&
      (forall f | LOW <= f < TOP && f !in s.reserved :: Count(s, f) == |Refs(s, f)| < NR_TASKS) &&
      (forall nr, k, t | 0 < nr < NR_TASKS && 0 <= k < 16 && 0 <= t < 1024 && Pte(s, nr, k, t).present && Pte(s, nr, k, t).rw ::
        LOW <= Pte(s, nr, k, t).frame < TOP && Count(s, Pte(s, nr, k, t).frame) == 1)
  {
    BootInv(boot, files);
    RunRefinesPrivate(boot, files, steps);
    var s := Run(boot, files, steps).0;
    forall f | LOW <= f < TOP && f !in s.reserved ensures Count(s, f) == |Refs(s, f)| < NR_TASKS {
      assert Counted(s, f);
      CountBound(s, f);
    }
    forall nr, k, t | 0 < nr < NR_TASKS && 0 <= k < 16 && 0 <= t < 1024 && Pte(s, nr, k, t).present && Pte(s, nr, k, t).rw
      ensures LOW <= Pte(s, nr, k, t).frame < TOP && Count(s, Pte(s, nr, k, t).frame) == 1
    {
      WritableAlone(s, nr, k, t);
    }
  }

  /** No task's write changes another task's view, whatever faults it takes. */
  lemma WriteIsolated(boot: State, files: Files, steps: seq<Step>, nr: nat, k: nat, t: nat, i: nat, v: Word, mayShare: bool)
    requires Boot(boot)
    requires var s := Run(boot, files, steps).0; InSpace(s, nr, k, t) && Limited(s, nr) && i < 1024
    ensures var s := Run(boot, files, steps).0; var r := Write(s, files, nr, k, t, i, v, mayShare).0;
      forall x: Addr | x.nr != nr :: (x in View(r) <==> x in View(s)) && (x in View(s) ==> View(r)[x] == View(s)[x])
  {
    BootInv(boot, files);
    RunRefinesPrivate(boot, files, steps);
    var s := Run(boot, files, steps).0;
    var (r, es) := Write(s, files, nr, k, t, i, v, mayShare);
    WriteRefines(s, files, nr, k, t, i, v, mayShare);
    WriteEventsOf(s, files, nr, k, t, i, v, mayShare);
    ReplayOwn(View(s), files, es, nr);
  }

  predicate Owner(e: Event, nr: nat) {
    match e
    case Forked(_, _) => false
    case _ => e.nr == nr
  }

  lemma WriteEventsOf(s: State, files: Files, nr: nat, k: nat, t: nat, i: nat, v: Word, mayShare: bool)
    requires InSpace(s, nr, k, t) && Limited(s, nr) && i < 1024
    ensures forall e | e in Write(s, files, nr, k, t, i, v, mayShare).1 :: Owner(e, nr)
  {
  }

  lemma {:induction false} ReplayOwn(a: Private, files: Files, es: seq<Event>, nr: nat)
    requires forall e | e in es :: Owner(e, nr)
    ensures var b := Replay(a, files, es);
      forall x: Addr | x.nr != nr :: (x in b <==> x in a) && (x in a ==> b[x] == a[x])
    decreases |es|
  {
    if es != [] {
      assert es[0] in es;
      ReplayOwn(Replay1(a, files, es[0]), files, es[1..], nr);
    }
  }
}
