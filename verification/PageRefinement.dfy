// Copy-on-write with shared frames shows every task exactly what private memories would.

module PageRefinement {
  import opened Common
  import opened PageModel
  import opened PageInvariant
  import opened PageSteps
  import opened PageTables
  import opened PageRuns

  // ----- task slots ----------------------------------------------------------------------

  /** Slots without an address space can be filled, changed and emptied freely. */
  lemma SetTaskSteps(s: State, nr: nat, t: Option<Task>)
    requires Inv(s) && 0 < nr < NR_TASKS && NoDirs(s, nr, 0, 16)
    requires t.Some? ==> t.value.limit <= 16 * 1024 && t.value.page in s.held
    requires t.Some? ==> forall i | 0 < i < NR_TASKS && i != nr && s.task[i].Some? :: s.task[i].value.page != t.value.page
    ensures var r := SetTask(s, nr, t); Inv(r) && SameDirs(s, r) && SamePtes(s, r) && SameViews(s, r) && AllKept(s, r)
  {
    var r := SetTask(s, nr, t);
    forall i, d, e | 0 <= i < NR_TASKS && 0 <= d < 16 && 0 <= e < 1024
      ensures Dir(r, i, d) == Dir(s, i, d) && Pte(r, i, d, e) == Pte(s, i, d, e)
    {}
    assert SameDirs(s, r) && SamePtes(s, r);
    KeepExclusive(s, r);
    KeepAllCounts(s, r);
    KernelKept(s, r);
    forall i, d | 0 < i < NR_TASKS && 0 <= d < 16 && Dir(r, i, d).present
      ensures LOW <= Dir(r, i, d).frame < r.high && Alive(r, i) && d < Dirs(r.task[i].value.limit)
    {
      assert i != nr;
    }
    forall i, d, e | 0 < i < NR_TASKS && 0 <= d < 16 && 0 <= e < 1024
      ensures Seen(r, i, d, e) == Seen(s, i, d, e) && Kept(s, r, i, d, e)
    {
      if i == nr { assert !Dir(s, nr, d).present; }
    }
  }

  lemma NoDirsBeyond(s: State, nr: nat)
    requires Inv(s) && 0 < nr < NR_TASKS
    ensures !Alive(s, nr) ==> NoDirs(s, nr, 0, 16)
    ensures Alive(s, nr) && Dirs(s.task[nr].value.limit) <= 16 ==> NoDirs(s, nr, Dirs(s.task[nr].value.limit), 16)
  {
  }

  /** The whole address space of the task is freed. */
  lemma FreeSpace(s: State, nr: nat)
    requires Inv(s) && 0 < nr < NR_TASKS && Limited(s, nr)
    ensures var r := FreeTables(s, nr, 0, Dirs(s.task[nr].value.limit));
      Inv(r) && r.task == s.task && r.held == s.held && r.reserved == s.reserved && r.high == s.high &&
      NoDirs(r, nr, 0, 16) && AllKept(s, r) && OnlyTables(s, r, nr, 0, 16)
  {
    var n := Dirs(s.task[nr].value.limit);
    var r := FreeTables(s, nr, 0, n);
    FreeTablesSteps(s, nr, 0, n);
    NoDirsBeyond(s, nr);
    forall d | 0 <= d < 16 ensures !Dir(r, nr, d).present {
      if d >= n {
        assert !Dir(s, nr, d).present;
        assert SameTable(s, r, nr, d);
      }
    }
    WidenTables(s, r, nr, 0, n, 0, 16);
  }

  /** All tasks but nr see what they saw, and nr sees nothing. */
  ghost predicate Vacated(s: State, r: State, nr: nat)
    requires Shape(s) && Shape(r)
  {
    forall i, d, e | 0 < i < NR_TASKS && 0 <= d < 16 && 0 <= e < 1024 ::
      Seen(r, i, d, e) == if i == nr then None else Seen(s, i, d, e)
  }

  lemma VacateSteps(s: State, nr: nat, t: Task)
    requires Inv(s) && 0 < nr < NR_TASKS && Limited(s, nr)
    requires t.page == s.task[nr].value.page && t.limit <= 16 * 1024
    ensures var r := SetTask(FreeTables(s, nr, 0, Dirs(s.task[nr].value.limit)), nr, Some(t));
      Inv(r) && Vacated(s, r, nr) && AllKept(s, r)
  {
    var m := FreeTables(s, nr, 0, Dirs(s.task[nr].value.limit));
    FreeSpace(s, nr);
    SetTaskSteps(m, nr, Some(t));
    var r := SetTask(m, nr, Some(t));
    KeptChain(s, m, r);
    forall i, d, e | 0 < i < NR_TASKS && 0 <= d < 16 && 0 <= e < 1024
      ensures Seen(r, i, d, e) == if i == nr then None else Seen(s, i, d, e)
    {
      assert Seen(r, i, d, e) == Seen(m, i, d, e);
      if i == nr { assert !Dir(m, nr, d).present; } else { assert SameTable(s, m, i, d); }
    }
  }

  lemma ReleaseSteps(s: State, nr: nat)
    requires Inv(s) && 0 < nr < NR_TASKS && Limited(s, nr) && s.task[nr].value.zombie
    ensures Inv(Release(s, nr)) && SameViews(s, Release(s, nr)) && AllKept(s, Release(s, nr))
  {
    NoDirsBeyond(s, nr);
    SetTaskSteps(s, nr, None);
    var m := SetTask(s, nr, None);
    DropHeldStep(m, s.task[nr].value.page);
    KeptChain(s, m, Release(s, nr));
  }

  // ----- fork ----------------------------------------------------------------------------

  /** A successful fork: the child sees its parent's pages, everybody else what he saw before. */
  ghost predicate ForkedView(s: State, r: State, p: nat, c: nat)
    requires Shape(s) && Shape(r) && p < NR_TASKS
  {
    forall i, d, e | 0 < i < NR_TASKS && 0 <= d < 16 && 0 <= e < 1024 ::
      Seen(r, i, d, e) == if i == c then ParentSeen(s, p, d, e) else Seen(s, i, d, e)
  }

  lemma ForkBegins(s: State, files: Files, p: nat)
    requires Inv(s) && Alive(s, p) && Limited(s, p)
    ensures var c := EmptySlot(s.task, 1); var (s1, f) := Alloc(s);
      c < NR_TASKS && f != 0 ==>
        var m := SetTask(s1, c, Some(s.task[p].value.(page := f)));
        Inv(m) && SameDirs(s, m) && SamePtes(s, m) && SameViews(s, m) && AllKept(s, m) && m.held == s.held + {f} && f !in s.held &&
        m.reserved == s.reserved && m.high == s.high && 0 < c && p != c && s.task[c].None? &&
        CanCopyTables(m, p, c, 0, Dirs(s.task[p].value.limit))
  {
    var c := EmptySlot(s.task, 1);
    var (s1, f) := Alloc(s);
    AllocStep(s);
    if c < NR_TASKS && f != 0 {
      NoDirsBeyond(s1, c);
      var t := Some(s.task[p].value.(page := f));
      SetTaskSteps(s1, c, t);
      var m := SetTask(s1, c, t);
      KeptChain(s, s1, m);
      assert NoDirs(m, c, 0, 16) by {
        forall d | 0 <= d < 16 ensures !Dir(m, c, d).present { assert Dir(m, c, d) == Dir(s1, c, d); }
      }
    }
  }

  /** Entries of everybody but the child at most lose their write bit; the child's are its parent's, write-protected. */
  ghost predicate ForkedTables(s: State, r: State, p: nat, c: nat)
    requires Shape(s) && Shape(r) && p < NR_TASKS && c < NR_TASKS && s.task[p].Some?
  {
    && (forall i, d, e | 0 <= i < NR_TASKS && 0 <= d < 16 && 0 <= e < 1024 && i != c :: Softened(s, r, i, d, e))
    && InheritsParent(s, r, p, c, 0, 16)
  }

  lemma ForkedTablesSteps(s: State, m: State, r: State, p: nat, c: nat, n: nat)
    requires Inv(s) && Inv(r) && Shape(m) && p < NR_TASKS && 0 < c < NR_TASKS && p != c && n <= 16 && s.task[p].Some? && s.task[c].None?
    requires SamePtes(s, m) && m.task[p] == s.task[p] && CopiedTables(m, r, p, c, 0, n) && InheritsParent(m, r, p, c, 0, n)
    requires n == Dirs(s.task[p].value.limit) && (p > 0 ==> Alive(s, p)) && Alive(r, c) && r.task[c].value.limit == s.task[p].value.limit
    ensures ForkedTables(s, r, p, c)
  {
    NoDirsBeyond(r, c);
    if p > 0 { NoDirsBeyond(s, p); }
    hide Inv, Softened, Inherits;
    forall i, d, e | 0 <= i < NR_TASKS && 0 <= d < 16 && 0 <= e < 1024 && i != c ensures Softened(s, r, i, d, e) {
      assert Softened(m, r, i, d, e);
      SameSoftened(s, m, r, i, d, e);
    }
    forall d, e | 0 <= d < 16 && 0 <= e < 1024 ensures InheritsAt(s, r, p, c, d, e) {
      assert Pte(m, p, d, e) == Pte(s, p, d, e);
      if d < n {
        assert InheritsAt(m, r, p, c, d, e);
        if Inherits(m, r, p, c, d, e) { SameInherits(s, m, r, p, c, d, e); }
      } else {
        assert !Dir(r, c, d).present && (p > 0 ==> !Dir(s, p, d).present);
        BothAbsent(s, r, p, c, d, e);
      }
    }
  }

  lemma SameSoftened(s: State, m: State, r: State, i: nat, d: nat, e: nat)
    requires Shape(s) && Shape(m) && Shape(r) && i < NR_TASKS && d < 16 && e < 1024
    requires Pte(m, i, d, e) == Pte(s, i, d, e) && Softened(m, r, i, d, e)
    ensures Softened(s, r, i, d, e)
  {
  }

  lemma BothAbsent(s: State, r: State, p: nat, c: nat, d: nat, e: nat)
    requires Shape(s) && Shape(r) && p < NR_TASKS && c < NR_TASKS && d < 16 && e < 1024 && !Dir(r, c, d).present
    ensures !Pte(r, c, d, e).present && (!Dir(s, p, d).present ==> Inherits(s, r, p, c, d, e))
  {
  }

  lemma ForkSucceeds(s: State, m: State, files: Files, p: nat, c: nat, n: nat)
    requires Inv(s) && p < NR_TASKS && n <= 16 && CanCopyTables(m, p, c, 0, n)
    requires SamePtes(s, m) && SameViews(s, m) && AllKept(s, m) && (p > 0 ==> Alive(s, p) && n == Dirs(s.task[p].value.limit))
    requires m.task[c].value.limit == m.task[p].value.limit && n == Dirs(m.task[p].value.limit)
    requires s.task[p].Some? && m.task[p] == s.task[p] && s.task[c].None?
    ensures var (r, ok) := CopyTables(m, p, c, 0, n);
      ok ==> Inv(r) && ForkedView(s, r, p, c) && ForkedTables(s, r, p, c) && (Clean(s, files) ==> Clean(r, files))
  {
    CopyTablesSteps(m, files, p, c, 0, n);
    CleanKept(s, m, files);
    var (r, ok) := CopyTables(m, p, c, 0, n);
    if ok {
      ForkedTablesSteps(s, m, r, p, c, n);
      hide Inherits, InheritsParent;
      forall i, d, e | 0 < i < NR_TASKS && 0 <= d < 16 && 0 <= e < 1024
        ensures Seen(r, i, d, e) == if i == c then ParentSeen(s, p, d, e) else Seen(s, i, d, e)
      {
        assert Seen(m, i, d, e) == Seen(s, i, d, e);
        if i == c && d < n {
          assert Seen(r, c, d, e) == ParentSeen(m, p, d, e);
        } else if i == c {
          NoDirsBeyond(r, c);
          if p > 0 { NoDirsBeyond(s, p); assert !Dir(s, p, d).present; }
        }
      }
    }
  }

  /** References up to lost write bits, outside slot c, which has no tables. */
  ghost predicate SameHolders(s: State, r: State, c: nat)
    requires Shape(s) && Shape(r) && c < NR_TASKS
  {
    && NoDirs(s, c, 0, 16) && NoDirs(r, c, 0, 16)
    && (forall i, d | 0 <= i < NR_TASKS && 0 <= d < 16 && i != c :: Dir(r, i, d) == Dir(s, i, d))
    && (forall i, d, e | 0 <= i < NR_TASKS && 0 <= d < 16 && 0 <= e < 1024 && i != c :: Softened(s, r, i, d, e))
  }

  lemma SameHoldersRefs(s: State, r: State, c: nat, q: Ref, f: nat)
    requires Shape(s) && Shape(r) && c < NR_TASKS && SameHolders(s, r, c) && r.held == s.held
    ensures Refers(s, q, f) <==> Refers(r, q, f)
  {
    match q
    case PteRef(nr, k, t) =>
      if 0 < nr < NR_TASKS && k < 16 && t < 1024 {
        if nr == c {
          assert !Dir(s, c, k).present && !Dir(r, c, k).present;
        } else {
          assert Softened(s, r, nr, k, t);
        }
      }
    case DirRef(nr, k) =>
      if 0 < nr < NR_TASKS && k < 16 {
        if nr == c {
          assert !Dir(s, c, k).present && !Dir(r, c, k).present;
        } else {
          assert Dir(r, nr, k) == Dir(s, nr, k);
        }
      }
    case KernelRef =>
  }

  lemma SameRefsSameCount(s: State, r: State, f: nat)
    requires Shape(s) && Shape(r) && Counts(s) && Counts(r) && r.reserved == s.reserved && LOW <= f < TOP
    requires Refs(s, f) == Refs(r, f)
    ensures Count(s, f) == Count(r, f)
  {
    assert Counted(s, f) && Counted(r, f);
  }

  lemma SameHoldersCount(s: State, r: State, c: nat)
    requires Shape(s) && Shape(r) && Counts(s) && Counts(r)
    requires c < NR_TASKS && SameHolders(s, r, c) && r.held == s.held && r.reserved == s.reserved
    ensures r.count == s.count
  {
    forall q, f ensures Refers(s, q, f) <==> Refers(r, q, f) { SameHoldersRefs(s, r, c, q, f); }
    forall j | 0 <= j < PAGES ensures r.count[j] == s.count[j] {
      SameRefs(s, r, LOW + j);
      SameRefsSameCount(s, r, LOW + j);
      assert Count(s, LOW + j) == s.count[j] && Count(r, LOW + j) == r.count[j];
    }
  }

  /** A fork that runs out of memory half way is undone: views and counts are as before. */
  lemma ForkUndone(s: State, m: State, files: Files, p: nat, c: nat, f: nat, n: nat)
    requires Inv(s) && p < NR_TASKS && n <= 16 && CanCopyTables(m, p, c, 0, n) && s.task[c].None?
    requires SameDirs(s, m) && SamePtes(s, m) && SameViews(s, m) && AllKept(s, m)
    requires m.held == s.held + {f} && f !in s.held && m.reserved == s.reserved
    requires m.task[c].value.page == f && n == Dirs(m.task[c].value.limit)
    ensures var r := FreeHeld(SetTask(FreeTables(CopyTables(m, p, c, 0, n).0, c, 0, n), c, None), f);
      Inv(r) && SameViews(s, r) && (Clean(s, files) ==> Clean(r, files)) && r.count == s.count
  {
    CleanKept(s, m, files);
    CopyTablesSteps(m, files, p, c, 0, n);
    var a := CopyTables(m, p, c, 0, n).0;
    UndoSteps(a, c, f);
    var b := FreeTables(a, c, 0, n);
    var r := FreeHeld(SetTask(b, c, None), f);
    CleanKept(a, r, files);
    assert r.held == s.held;
    UndoneViews(s, m, a, b, r, p, c, n);
    SameHoldersCount(s, r, c);
  }

  /** free_page_tables, the empty slot and free_page of the task structure. */
  lemma UndoSteps(a: State, c: nat, f: nat)
    requires Inv(a) && 0 < c < NR_TASKS && Limited(a, c) && a.task[c].value.page == f && Alive(a, c)
    ensures var n := Dirs(a.task[c].value.limit); var b := FreeTables(a, c, 0, n);
      var r := FreeHeld(SetTask(b, c, None), f);
      Inv(r) && AllKept(a, r) && r.held == a.held - {f} && r.reserved == a.reserved &&
      OnlyTables(a, b, c, 0, 16) && NoDirs(b, c, 0, 16) && SameDirs(b, r) && SamePtes(b, r) && SameViews(b, r)
  {
    var b := FreeTables(a, c, 0, Dirs(a.task[c].value.limit));
    FreeSpace(a, c);
    SetTaskSteps(b, c, None);
    var d := SetTask(b, c, None);
    forall nr | 0 < nr < NR_TASKS && d.task[nr].Some? ensures d.task[nr].value.page != f {
      assert b.task[c].value.page == f && b.task[nr].Some?;
    }
    DropHeldStep(d, f);
    var r := FreeHeld(d, f);
    KeptChain(a, b, d);
    KeptChain(a, d, r);
  }

  lemma UndoneViews(s: State, m: State, a: State, b: State, r: State, p: nat, c: nat, n: nat)
    requires Inv(s) && Shape(m) && Shape(a) && Shape(b) && Shape(r) && p < NR_TASKS && 0 < c < NR_TASKS && n <= 16 && s.task[c].None?
    requires SameDirs(s, m) && SamePtes(s, m) && SameViews(s, m)
    requires CopiedTables(m, a, p, c, 0, n) && OnlyTables(a, b, c, 0, 16) && NoDirs(b, c, 0, 16)
    requires SameDirs(b, r) && SamePtes(b, r) && SameViews(b, r)
    ensures SameViews(s, r) && SameHolders(s, r, c)
  {
    NoDirsBeyond(s, c);
    forall i, d, e | 0 <= i < NR_TASKS && 0 <= d < 16 && 0 <= e < 1024
      ensures i != c ==> Softened(s, r, i, d, e)
      ensures i > 0 ==> Seen(r, i, d, e) == Seen(s, i, d, e)
    {
      assert Pte(m, i, d, e) == Pte(s, i, d, e) && Dir(m, i, d) == Dir(s, i, d);
      assert Pte(r, i, d, e) == Pte(b, i, d, e) && Dir(r, i, d) == Dir(b, i, d);
      if i == c {
        assert !Dir(s, c, d).present && !Dir(b, c, d).present;
      } else {
        assert SameTable(a, b, i, d);
        assert Softened(m, a, i, d, e);
      }
    }
    forall d | 0 <= d < 16 ensures !Dir(r, c, d).present { assert Dir(r, c, d) == Dir(b, c, d); }
    forall i, d | 0 <= i < NR_TASKS && 0 <= d < 16 && i != c ensures Dir(r, i, d) == Dir(s, i, d) {
      assert SameTable(a, b, i, d);
    }
  }

  /** fork: all or nothing. */
  lemma ForkSteps(s: State, files: Files, p: nat)
    requires Inv(s) && Alive(s, p) && Limited(s, p)
    ensures var (r, c) := Fork(s, p);
      Inv(r) && (Clean(s, files) ==> Clean(r, files)) &&
      (c != 0 ==> c < NR_TASKS && s.task[c].None? && ForkedView(s, r, p, c) && ForkedTables(s, r, p, c)) &&
      (c == 0 ==> SameViews(s, r) && r.count == s.count)
  {
    var c := EmptySlot(s.task, 1);
    var (s1, f) := Alloc(s);
    AllocStep(s);
    if c < NR_TASKS && f != 0 {
      ForkBegins(s, files, p);
      var m := SetTask(s1, c, Some(s.task[p].value.(page := f)));
      var n := Dirs(s.task[p].value.limit);
      ForkSucceeds(s, m, files, p, c, n);
      ForkUndone(s, m, files, p, c, f, n);
    }
  }
}
