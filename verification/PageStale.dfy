// Where sharing does show: write_verify copies a page that was written, but the copy's entry has
// a clear dirty bit, and try_to_share takes it for the executable's own bytes.

module PageStale {
  import opened Common
  import opened PageModel
  import opened PageInvariant
  import opened PageSteps
  import opened PageEntries
  import opened PageTables
  import opened PageFaults
  import opened PageRuns
  import opened PageRefinement
  import opened PageMemory
  import opened PageTheorems

  /** Sharing needs memory for the page table only. */
  lemma {:induction false} ShareWithTable(s: State, cur: nat, k: nat, t: nat, p: nat)
    requires Shape(s) && cur < NR_TASKS && k < 16 && t < 1024 && p < NR_TASKS && NeedTable(s, cur, k).1
    ensures Share(s, cur, k, t, p).1 != OutOfMemory
    decreases p
  {
    if p > 0 {
      if s.task[p].None? || s.task[cur].None? || cur == p || s.task[p].value.exe != s.task[cur].value.exe {
        ShareWithTable(s, cur, k, t, p - 1);
      } else if TryToShare(s, cur, p, k, t).1 == NotShared {
        assert TryToShare(s, cur, p, k, t).0 == s;
        ShareWithTable(s, cur, k, t, p - 1);
      }
    }
  }

  lemma StaleCopy(s: State, files: Files, a: nat, q: nat, k: nat, t: nat)
    requires Inv(s) && Enabled(s, VerifyStep(a, k, t)) && Stale(s, files, VerifyStep(a, k, t))
    requires LOW <= Pte(s, a, k, t).frame && InSpace(s, q, k, t) && q != a && s.task[q].value.exe == s.task[a].value.exe
    requires forall i | a < i < NR_TASKS :: !Offers(s, q, i, k, t)
    ensures var s1 := Next(s, files, VerifyStep(a, k, t)).0;
      Inv(s1) && s1.task == s.task && Seen(s1, a, k, t) == Some(PageOf(s, a, k, t)) &&
      Pte(s1, q, k, t) == Pte(s, q, k, t) && Dir(s1, q, k) == Dir(s, q, k) && Sharer(s1, q, k, t, NR_TASKS - 1) == a
  {
    UnWpCopies(s, a, k, t);
    AllocStep(s);
    var s1 := UnWp(s, a, k, t).0;
    assert Next(s, files, VerifyStep(a, k, t)).0 == s1;
    assert Offers(s1, q, a, k, t);
    forall i | a < i < NR_TASKS ensures !Offers(s1, q, i, k, t) {
      assert Kept(s, s1, i, k, t);
      assert s1.task == s.task && !Offers(s, q, i, k, t);
    }
  }

  lemma StaleShare(s1: State, files: Files, a: nat, q: nat, k: nat, t: nat)
    requires Inv(s1) && InSpace(s1, q, k, t) && Limited(s1, q) && 0 < a < NR_TASKS
    requires !Pte(s1, q, k, t).present && NeedTable(s1, q, k).1 && Sharer(s1, q, k, t, NR_TASKS - 1) == a
    requires FromFile(files, s1.task[q].value.exe, k, t)
    ensures Seen(Next(s1, files, ReadStep(q, k, t, true)).0, q, k, t) == Seen(s1, a, k, t)
  {
    hide Inv, Pte, Seen, Sharer, Share, NeedTable;
    ShareWithTable(s1, q, k, t, NR_TASKS - 1);
    ShareSteps(s1, files, q, k, t, NR_TASKS - 1);
    var s2 := Share(s1, q, k, t, NR_TASKS - 1).0;
    assert NoPage(s1, files, q, k, t, true) == (s2, true);
  }

  /** After a stale write_verify in task a, a task q that faults the same page in for the first
      time is shown a's bytes instead of the executable's. */
  lemma StaleShareShows(s: State, files: Files, a: nat, q: nat, k: nat, t: nat)
    requires Inv(s) && Enabled(s, VerifyStep(a, k, t)) && Stale(s, files, VerifyStep(a, k, t))
    requires LOW <= Pte(s, a, k, t).frame
    requires InSpace(s, q, k, t) && Limited(s, q) && q != a && s.task[q].value.exe == s.task[a].value.exe
    requires !Pte(s, q, k, t).present && NeedTable(Next(s, files, VerifyStep(a, k, t)).0, q, k).1
    requires forall i | a < i < NR_TASKS :: !Offers(s, q, i, k, t)
    ensures var r := Run(s, files, [VerifyStep(a, k, t), ReadStep(q, k, t, true)]).0;
      Seen(r, q, k, t) == Some(PageOf(s, a, k, t)) &&
      PageOf(s, a, k, t) != Fill(files, s.task[q].value.exe, k, t)
  {
    StaleCopy(s, files, a, q, k, t);
    StaleShare(Next(s, files, VerifyStep(a, k, t)).0, files, a, q, k, t);
    TwoSteps(s, files, [VerifyStep(a, k, t), ReadStep(q, k, t, true)]);
  }

  lemma TwoSteps(s: State, files: Files, steps: seq<Step>)
    requires Shape(s) && |steps| == 2 && Enabled(s, steps[0])
    requires Enabled(Next(s, files, steps[0]).0, steps[1])
    ensures Run(s, files, steps).0 == Next(Next(s, files, steps[0]).0, files, steps[1]).0
  {
    var s1 := Next(s, files, steps[0]).0;
    assert steps[1..][1..] == [];
    assert Run(s1, files, steps[1..]).0 == Next(s1, files, steps[1]).0;
  }

  // ----- a run to such a state ------------------------------------------------------------------------

  /** The frames a .. a+n-1 are free. */
  ghost predicate Room(s: State, a: nat, n: nat) {
    Shape(s) && LOW <= a && a + n <= TOP && forall f | a <= f < a + n :: Count(s, f) == 0
  }

  /** Free frames stay free. */
  ghost predicate StayFree(s: State, r: State)
    requires Shape(s) && Shape(r)
  {
    forall f | LOW <= f < TOP && Count(s, f) == 0 :: Count(r, f) == 0
  }

  /** get_free_page takes the last free frame, so that of n + 1 free frames the first n are left. */
  lemma AllocRoom(s: State, a: nat, n: nat)
    requires Room(s, a, n + 1)
    ensures var (r, f) := Alloc(s); f != 0 && Room(r, a, n) && r == Claim(s, f)
  {
    var i := LastFree(s.count, PAGES);
    assert Count(s, a + n) == s.count[a + n - LOW];
    forall f | a <= f < a + n ensures Count(Alloc(s).0, f) == 0 { assert Count(s, f) == s.count[f - LOW] == 0; }
  }

  lemma StillRoom(s: State, r: State, a: nat, n: nat)
    requires Shape(r) && Room(s, a, n) && StayFree(s, r)
    ensures Room(r, a, n)
  {
    forall f | a <= f < a + n ensures Count(r, f) == 0 { assert Count(s, f) == 0; }
  }

  lemma SameRoom(s: State, r: State, a: nat, n: nat)
    requires Shape(r) && Room(s, a, n) && r.count == s.count
    ensures Room(r, a, n)
  {
    forall f | a <= f < a + n ensures Count(r, f) == 0 { assert Count(s, f) == 0; }
  }

  // ----- freeing and copying take no frame ------------------------------------------------------------

  lemma {:induction false} FreeEntriesRoom(s: State, nr: nat, k: nat, t: nat)
    requires Shape(s) && nr < NR_TASKS && k < 16 && t <= 1024
    ensures StayFree(s, FreeEntries(s, nr, k, t))
    decreases 1024 - t
  {
    if t < 1024 {
      var m := FreeEntry(s, nr, k, t);
      assert StayFree(s, m);
      FreeEntriesRoom(m, nr, k, t + 1);
    }
  }

  lemma FreeDirRoom(s: State, nr: nat, k: nat)
    requires Shape(s) && nr < NR_TASKS && k < 16
    ensures StayFree(s, FreeDir(s, nr, k))
  {
    FreeEntriesRoom(s, nr, k, 0);
    var m := FreeEntries(s, nr, k, 0);
    FreePageRoom(m, Dir(s, nr, k).frame);
    hide FreeEntries, FreePage, Dir;
    assert FreeDir(s, nr, k).count == s.count || FreeDir(s, nr, k).count == FreePage(m, Dir(s, nr, k).frame).count;
  }

  lemma FreePageRoom(s: State, f: nat)
    requires Shape(s)
    ensures StayFree(s, FreePage(s, f))
  {
  }

  lemma {:induction false} FreeTablesRoom(s: State, nr: nat, k: nat, n: nat)
    requires Shape(s) && nr < NR_TASKS && k <= n <= 16
    ensures StayFree(s, FreeTables(s, nr, k, n))
    decreases n - k
  {
    if k < n {
      FreeDirRoom(s, nr, k);
      hide FreeDir, Shape;
      FreeTablesRoom(FreeDir(s, nr, k), nr, k + 1, n);
    }
  }

  lemma BumpRoom(s: State, f: nat)
    requires Shape(s) && LOW <= f < TOP && Count(s, f) != 0
    ensures Shape(Bump(s, f)) && StayFree(s, Bump(s, f))
  {
  }

  lemma CopyEntryRoom(s: State, p: nat, c: nat, k: nat, t: nat)
    requires CanCopy(s, p, c, k) && t < CopyLength(p)
    ensures StayFree(s, CopyEntry(s, p, c, k, t))
  {
    assert Shape(s);
    hide Inv, Pte, CopyEntry, Bump;
    CopyEntryCount(s, p, c, k, t);
    var w := Pte(s, p, k, t);
    if w.present && w.frame >= LOW {
      SharedIsCounted(s, p, c, k, t);
      BumpRoom(s, w.frame);
    }
  }

  /** copy_page_tables takes no frame for entries, and the child's entry is the parent's, write-protected. */
  lemma {:induction false} CopyEntriesRoom(s: State, files: Files, p: nat, c: nat, k: nat, t: nat, n: nat)
    requires CanCopy(s, p, c, k) && t <= n <= CopyLength(p)
    requires forall e | t <= e < n :: !Pte(s, c, k, e).present
    ensures StayFree(s, CopyEntries(s, p, c, k, t, n))
    decreases n - t
  {
    if t < n {
      CopyEntryRoom(s, p, c, k, t);
      CopyEntryStep(s, files, p, c, k, t);
      var m := CopyEntry(s, p, c, k, t);
      hide CopyEntry, Inv;
      forall e | t + 1 <= e < n ensures !Pte(m, c, k, e).present { assert Softened(s, m, c, k, e); }
      CopyEntriesRoom(m, files, p, c, k, t + 1, n);
    }
  }

  lemma {:induction false} CopyNothing(s: State, p: nat, c: nat, k: nat, n: nat)
    requires Shape(s) && p < NR_TASKS && c < NR_TASKS && k <= n <= 16 && NoDirs(s, p, k, n) && NoDirs(s, c, k, n)
    ensures CopyTables(s, p, c, k, n) == (s, true)
    decreases n - k
  {
    if k < n { CopyNothing(s, p, c, k + 1, n); }
  }

  // ----- the steps of the run -------------------------------------------------------------------------

  /** What fork does to tables: the child has the parent's entries of its first table, write-protected. */
  ghost predicate CopyResult(s: State, r: State, p: nat, c: nat)
    requires Shape(s) && Shape(r) && p < NR_TASKS && c < NR_TASKS
  {
    && (forall i, d | 0 <= i < NR_TASKS && 0 <= d < 16 && i != c :: Dir(r, i, d) == Dir(s, i, d))
    && (forall i, d, e | 0 <= i < NR_TASKS && 0 <= d < 16 && 0 <= e < 1024 && i != c :: Softened(s, r, i, d, e))
    && (NoDirs(s, p, 0, 16) ==> NoDirs(r, c, 0, 16))
    && (p > 0 ==> forall e | 0 <= e < 1024 && Pte(s, p, 0, e).present :: Inherits(s, r, p, c, 0, e))
  }

  /** The child's first table, before entries are copied. */
  function FirstTable(s: State, c: nat): (m: State)
    requires Shape(s) && c < NR_TASKS
    ensures Shape(m)
  {
    var (s1, f) := Alloc(s);
    SetDir(s1, c, 0, UserEntry(f)).(held := s1.held - {f})
  }

  lemma FirstTableReady(s: State, p: nat, c: nat, n: nat, a: nat, k: nat)
    requires CanCopyTables(s, p, c, 0, n) && n > 0 && Dir(s, p, 0).present && NoDirs(s, c, 0, 16) && Room(s, a, k + 1)
    ensures var m := FirstTable(s, c);
      CanCopy(m, p, c, 0) && Room(m, a, k) && SamePtes(s, m) && (forall e | 0 <= e < 1024 :: !Pte(m, c, 0, e).present) &&
      CopyDir(s, p, c, 0) == (CopyEntries(m, p, c, 0, 0, CopyLength(p)), true)
  {
    NewTableStep(s, c, 0);
    AllocRoom(s, a, k);
    var m := FirstTable(s, c);
    SameRoom(Alloc(s).0, m, a, k);
    hide Inv, CopyEntries, Alloc, Room;
    forall e | 0 <= e < 1024 ensures !Pte(m, c, 0, e).present { assert Pte(m, c, 0, e) == Pte(s, c, 0, e); }
    assert Dir(m, p, 0) == Dir(s, p, 0);
  }

  lemma CopyFirstRoom(s: State, files: Files, p: nat, c: nat, n: nat, a: nat, k: nat)
    requires CanCopyTables(s, p, c, 0, n) && n > 0 && Dir(s, p, 0).present && NoDirs(s, c, 0, 16) && Room(s, a, k + 1)
    ensures var (r, ok) := CopyDir(s, p, c, 0); ok && Room(r, a, k)
  {
    FirstTableReady(s, p, c, n, a, k);
    hide Inv, CopyEntries, FirstTable, CanCopy, Room, StayFree, Dir, Pte;
    var m := FirstTable(s, c);
    CopyEntriesRoom(m, files, p, c, 0, 0, CopyLength(p));
    StillRoom(m, CopyEntries(m, p, c, 0, 0, CopyLength(p)), a, k);
  }

  lemma CopyFirstInherits(s: State, files: Files, p: nat, c: nat, n: nat, a: nat, k: nat)
    requires CanCopyTables(s, p, c, 0, n) && n > 0 && Dir(s, p, 0).present && NoDirs(s, c, 0, 16) && Room(s, a, k + 1) && p > 0
    ensures forall e | 0 <= e < 1024 && Pte(s, p, 0, e).present :: Inherits(s, CopyDir(s, p, c, 0).0, p, c, 0, e)
  {
    FirstTableReady(s, p, c, n, a, k);
    hide CopyEntries, FirstTable, CanCopy, Inherits, Room, Pte, SamePtes;
    FirstInherits(s, FirstTable(s, c), files, p, c);
  }

  lemma CopyFirst(s: State, files: Files, p: nat, c: nat, n: nat, a: nat, k: nat)
    requires CanCopyTables(s, p, c, 0, n) && n > 0 && Dir(s, p, 0).present && NoDirs(s, c, 0, 16) && Room(s, a, k + 1)
    ensures var (r, ok) := CopyDir(s, p, c, 0); ok && Room(r, a, k) && CopyResult(s, r, p, c)
  {
    assert !Dir(s, c, 0).present;
    CopyFirstRoom(s, files, p, c, n, a, k);
    CopyDirSteps(s, files, p, c, 0);
    hide CopyDir, Inherits, CopiedTables, Room, CopyResult, Pte, Clean;
    if p > 0 { CopyFirstInherits(s, files, p, c, n, a, k); }
    CopiedResult(s, CopyDir(s, p, c, 0).0, p, c);
  }

  lemma FirstInherits(s: State, m: State, files: Files, p: nat, c: nat)
    requires Shape(s) && 0 < p && CanCopy(m, p, c, 0) && SamePtes(s, m) && forall e | 0 <= e < 1024 :: !Pte(m, c, 0, e).present
    ensures var r := CopyEntries(m, p, c, 0, 0, 1024);
      forall e | 0 <= e < 1024 && Pte(s, p, 0, e).present :: Inherits(s, r, p, c, 0, e)
  {
    var r := CopyEntries(m, p, c, 0, 0, 1024);
    hide Inv, CopyEntries, Inherits, Pte;
    forall e | 0 <= e < 1024 && Pte(s, p, 0, e).present ensures Inherits(s, r, p, c, 0, e) {
      assert Pte(m, p, 0, e) == Pte(s, p, 0, e);
      CopyEntriesInherit(m, files, p, c, 0, 0, 1024, e);
      SameInherits(s, m, r, p, c, 0, e);
    }
  }

  lemma CopiedResult(s: State, r: State, p: nat, c: nat)
    requires Shape(s) && Shape(r) && p < NR_TASKS && c < NR_TASKS && CopiedTables(s, r, p, c, 0, 1) && Dir(s, p, 0).present
    requires p > 0 ==> forall e | 0 <= e < 1024 && Pte(s, p, 0, e).present :: Inherits(s, r, p, c, 0, e)
    ensures CopyResult(s, r, p, c)
  {
    hide Inherits, Pte, Softened;
  }

  /** copy_page_tables of a parent with one table or none. */
  lemma CopyRoom(s: State, files: Files, p: nat, c: nat, n: nat, a: nat, k: nat)
    requires CanCopyTables(s, p, c, 0, n) && NoDirs(s, c, 0, 16) && Room(s, a, k + 1) && (p > 0 ==> n > 0 && NoDirs(s, p, 1, 16))
    ensures var (r, ok) := CopyTables(s, p, c, 0, n); ok && Room(r, a, k) && CopyResult(s, r, p, c) && r.task == s.task
  {
    if n > 0 && Dir(s, p, 0).present {
      CopyFirst(s, files, p, c, n, a, k);
      CopyDirSteps(s, files, p, c, 0);
      var m := CopyDir(s, p, c, 0).0;
      hide Inv, CopyDir, CopyResult, Room;
      assert NoDirs(m, c, 1, n) by {
        forall d | 1 <= d < n ensures !Dir(m, c, d).present { assert Dir(m, c, d) == Dir(s, c, d); }
      }
      assert NoDirs(m, p, 1, n) by {
        forall d | 1 <= d < n ensures !Dir(m, p, d).present { assert Dir(m, p, d) == Dir(s, p, d); }
      }
      CopyNothing(m, p, c, 1, n);
    } else {
      CopyNothing(s, p, c, 0, n);
    }
  }

  /** fork of a task with one table or none, with two frames to spare. */
  lemma ForkRoom(s: State, files: Files, p: nat, a: nat, k: nat)
    requires Inv(s) && Alive(s, p) && Limited(s, p) && EmptySlot(s.task, 1) < NR_TASKS && Room(s, a, k + 2)
    requires p > 0 ==> s.task[p].value.limit > 0 && NoDirs(s, p, 1, 16)
    ensures var (r, c) := Fork(s, p);
      c == EmptySlot(s.task, 1) && Room(r, a, k) && CopyResult(s, r, p, c) && r.task == s.task[c := Some(s.task[p].value.(page := Alloc(s).1))]
  {
    var c := EmptySlot(s.task, 1);
    var (s1, f) := Alloc(s);
    AllocRoom(s, a, k + 1);
    ForkBegins(s, files, p);
    var m := SetTask(s1, c, Some(s.task[p].value.(page := f)));
    NoDirsBeyond(s, c);
    var n := Dirs(s.task[p].value.limit);
    assert NoDirs(m, c, 0, 16) by {
      forall d | 0 <= d < 16 ensures !Dir(m, c, d).present { assert Dir(m, c, d) == Dir(s, c, d); }
    }
    if p > 0 {
      assert NoDirs(m, p, 1, 16) by {
        forall d | 1 <= d < 16 ensures !Dir(m, p, d).present { assert Dir(m, p, d) == Dir(s, p, d); }
      }
    }
    SameRoom(s1, m, a, k + 1);
    assert m.task == s.task[c := Some(s.task[p].value.(page := f))];
    hide Inv, Alloc, SetTask;
    CopyRoom(m, files, p, c, n, a, k);
    var r := Fork(s, p).0;
    hide CopyTables, Room;
    ResultThrough(s, m, r, p, c);
  }

  lemma ResultThrough(s: State, m: State, r: State, p: nat, c: nat)
    requires Shape(s) && Shape(m) && Shape(r) && p < NR_TASKS && c < NR_TASKS && SameDirs(s, m) && SamePtes(s, m) && CopyResult(m, r, p, c)
    ensures CopyResult(s, r, p, c)
  {
    forall i, d, e | 0 <= i < NR_TASKS && 0 <= d < 16 && 0 <= e < 1024 && i != c ensures Softened(s, r, i, d, e) { assert Softened(m, r, i, d, e); }
    if NoDirs(s, p, 0, 16) {
      forall d | 0 <= d < 16 ensures !Dir(m, p, d).present { assert Dir(m, p, d) == Dir(s, p, d); }
    }
    if p > 0 {
      forall e | 0 <= e < 1024 && Pte(s, p, 0, e).present ensures Inherits(s, r, p, c, 0, e) {
        assert Pte(m, p, 0, e) == Pte(s, p, 0, e);
        assert Inherits(m, r, p, c, 0, e);
      }
    }
  }

  /** exec frees and takes nothing. */
  lemma ExecRoom(s: State, nr: nat, exe: nat, a: nat, k: nat)
    requires Inv(s) && 0 < nr < NR_TASKS && Limited(s, nr) && Room(s, a, k)
    ensures var r := Exec(s, nr, exe);
      Room(r, a, k) && NoDirs(r, nr, 0, 16) && r.task == s.task[nr := Some(s.task[nr].value.(exe := exe, limit := 16 * 1024))]
  {
    var n := Dirs(s.task[nr].value.limit);
    FreeTablesRoom(s, nr, 0, n);
    FreeSpace(s, nr);
    var m, r := FreeTables(s, nr, 0, n), Exec(s, nr, exe);
    StillRoom(s, m, a, k);
    SameRoom(m, r, a, k);
    hide Inv, FreeTables, Room;
    forall d | 0 <= d < 16 ensures !Dir(r, nr, d).present { assert Dir(r, nr, d) == Dir(m, nr, d); }
  }

  /** A page loaded by a task without tables: a frame for it, and one for its table. */
  lemma FirstLoad(s: State, nr: nat, content: Page, a: nat, k: nat)
    requires Inv(s) && InSpace(s, nr, 0, 0) && NoDirs(s, nr, 0, 16) && Room(s, a, k + 2)
    ensures var (r, ok) := PutNew(s, nr, 0, 0, content);
      ok && Inv(r) && Room(r, a, k) && r.task == s.task && NoDirs(r, nr, 1, 16) &&
      Pte(r, nr, 0, 0).rw && Pte(r, nr, 0, 0).present && Seen(r, nr, 0, 0) == Some(content) &&
      forall j, d | 0 <= j < NR_TASKS && 0 <= d < 16 && j != nr :: Dir(r, j, d) == Dir(s, j, d)
  {
    var (s1, f) := Alloc(s);
    AllocStep(s);
    AllocRoom(s, a, k + 1);
    var b := s1.(mem := s1.mem[f := content]);
    FillHeldStep(s1, f, content);
    SameRoom(s1, b, a, k + 1);
    assert Dir(b, nr, 0) == Dir(s1, nr, 0) == Dir(s, nr, 0);
    NewTableStep(b, nr, 0);
    AllocRoom(b, a, k);
    var m := NeedTable(b, nr, 0).0;
    SameRoom(Alloc(b).0, m, a, k);
    assert Pte(m, nr, 0, 0) == Pte(b, nr, 0, 0) && !TaskPage(m, f);
    InstallPteStep(m, nr, 0, 0, f);
    var r := PutNew(s, nr, 0, 0, content).0;
    assert r == SetPte(m, nr, 0, 0, UserEntry(f)).(held := m.held - {f});
    hide Inv, Alloc, SetPte, NeedTable, PutNew, Room, Pte, Dir;
    assert r.count == m.count by { SetPteCount(m, nr, 0, 0, UserEntry(f)); }
    SameRoom(m, r, a, k);
    forall j, d | 0 <= j < NR_TASKS && 0 <= d < 16 && (j, d) != (nr, 0) ensures Dir(r, j, d) == Dir(s, j, d) {
      assert Dir(r, j, d) == Dir(m, j, d) == Dir(b, j, d) == Dir(s1, j, d);
    }
  }

  lemma SetPteCount(s: State, nr: nat, k: nat, t: nat, w: Word)
    requires Shape(s) && nr < NR_TASKS && k < 16 && t < 1024
    ensures SetPte(s, nr, k, t, w).count == s.count
  {
  }

  /** A store changes no directory and no count. */
  lemma StoreFrames(s: State, nr: nat, k: nat, t: nat, i: nat, v: Word)
    requires Inv(s) && 0 < nr < NR_TASKS && k < 16 && t < 1024 && i < 1024 && Pte(s, nr, k, t).present && Pte(s, nr, k, t).rw
    ensures var r := Store(s, nr, k, t, i, v); SameDirs(s, r) && r.count == s.count && r.task == s.task
  {
    WritableAlone(s, nr, k, t);
    var r := Store(s, nr, k, t, i, v);
    assert r.mem[0] == s.mem[0];
    hide Inv, Store;
  }

  /** The first write of a task without tables to a page of its program. */
  lemma FirstWrite(s: State, files: Files, nr: nat, i: nat, v: Word, a: nat, k: nat)
    requires Inv(s) && InSpace(s, nr, 0, 0) && Limited(s, nr) && i < 1024 && NoDirs(s, nr, 0, 16) && Room(s, a, k + 2)
    requires FromFile(files, s.task[nr].value.exe, 0, 0)
    ensures var r := Write(s, files, nr, 0, 0, i, v, false).0;
      Room(r, a, k) && r.task == s.task && NoDirs(r, nr, 1, 16) &&
      Seen(r, nr, 0, 0) == Some(files.image(s.task[nr].value.exe, 0)[i := v]) &&
      forall j, d | 0 <= j < NR_TASKS && 0 <= d < 16 && j != nr :: Dir(r, j, d) == Dir(s, j, d)
  {
    var image := files.image(s.task[nr].value.exe, 0);
    FirstLoad(s, nr, image, a, k);
    var m := PutNew(s, nr, 0, 0, image).0;
    assert !Dir(s, nr, 0).present;
    assert !Pte(s, nr, 0, 0).present;
    StoreStep(m, nr, 0, 0, i, v);
    StoreFrames(m, nr, 0, 0, i, v);
    var r := Store(m, nr, 0, 0, i, v);
    assert Touch(s, files, nr, 0, 0, false).0 == m && Touch(s, files, nr, 0, 0, false).2;
    assert MakeWritable(m, nr, 0, 0).0 == m && MakeWritable(m, nr, 0, 0).2;
    assert Write(s, files, nr, 0, 0, i, v, false).0 == r;
    hide Inv, Store, PutNew, Touch, MakeWritable, Write, Pte, Room;
    SameRoom(m, r, a, k);
    forall j, d | 0 <= j < NR_TASKS && 0 <= d < 16 && (j, d) != (nr, 0) ensures Dir(r, j, d) == Dir(m, j, d) {}
  }

  /** A fork child's inherited page has two holders. */
  lemma InheritedTwice(s: State, r: State, p: nat, c: nat)
    requires Inv(r) && Shape(s) && 0 < p < NR_TASKS && 0 < c < NR_TASKS && p != c && CopyResult(s, r, p, c)
    requires Pte(s, p, 0, 0).present && LOW <= Pte(s, p, 0, 0).frame < TOP
    ensures var w := Pte(r, c, 0, 0); w.present && !w.rw && LOW <= w.frame < TOP && Count(r, w.frame) != 1
  {
    assert Inherits(s, r, p, c, 0, 0) && Softened(s, r, p, 0, 0);
    var f := Pte(r, c, 0, 0).frame;
    ReferredIsCounted(r, PteRef(c, 0, 0), f);
    assert Refers(r, PteRef(p, 0, 0), f);
    if Count(r, f) == 1 {
      OnlyRef(r, f, PteRef(c, 0, 0));
      assert false;
    }
  }

  lemma UnshareRoom(s: State, f: nat)
    requires Shape(s) && LOW <= f < TOP && Count(s, f) != 0
    ensures Shape(Unshare(s, f)) && StayFree(s, Unshare(s, f))
  {
  }

  /** un_wp_page of a shared page. */
  lemma UnWpIs(s: State, files: Files, nr: nat)
    requires Inv(s) && InSpace(s, nr, 0, 0) && Limited(s, nr) && Alloc(s).1 != 0
    requires var w := Pte(s, nr, 0, 0); w.present && !w.rw && LOW <= w.frame < TOP && Count(s, w.frame) != 1
    ensures var w := Pte(s, nr, 0, 0);
      Next(s, files, VerifyStep(nr, 0, 0)).0 == CopyPage(Unshare(Alloc(s).0, w.frame), w.frame, Alloc(s).1, nr, 0, 0)
  {
    hide Inv, Pte, Alloc;
  }

  /** After write_verify has copied the page there is room for one frame less. */
  lemma VerifyRoom(s: State, files: Files, nr: nat, a: nat, k: nat)
    requires Inv(s) && InSpace(s, nr, 0, 0) && Limited(s, nr) && Room(s, a, k + 1)
    requires var w := Pte(s, nr, 0, 0); w.present && !w.rw && LOW <= w.frame < TOP && Count(s, w.frame) != 1
    ensures Room(Next(s, files, VerifyStep(nr, 0, 0)).0, a, k)
  {
    var f := Pte(s, nr, 0, 0).frame;
    ReferredIsCounted(s, PteRef(nr, 0, 0), f);
    AllocRoom(s, a, k);
    UnWpIs(s, files, nr);
    var (s1, g) := Alloc(s);
    assert Count(s1, f) != 0;
    hide Inv, Alloc, Next, Pte, Room, Claim;
    UnshareRoom(s1, f);
    var m := Unshare(s1, f);
    hide Unshare;
    StillRoom(s1, m, a, k);
    SameRoom(m, CopyPage(m, f, g, nr, 0, 0), a, k);
  }

  /** Task 1 runs program 1 and has written a page of it, task 3 is its child, and task 2, an older child, has
      no page yet. */
  ghost predicate Family(s: State, page: Page) {
    && Inv(s) && InSpace(s, 2, 0, 0) && Limited(s, 2) && InSpace(s, 3, 0, 0) && Limited(s, 3)
    && s.task[2].value.exe == s.task[3].value.exe == 1 && (forall i | 3 < i < NR_TASKS :: s.task[i].None?)
    && !Dir(s, 2, 0).present && Seen(s, 3, 0, 0) == Some(page)
    && var w := Pte(s, 3, 0, 0); w.present && !w.rw && Count(s, w.frame) != 1
  }

  lemma FamilyShows(s: State, files: Files, page: Page, a: nat)
    requires Family(s, page) && Room(s, a, 2) && FromFile(files, 1, 0, 0) && page != files.image(1, 0)
    ensures var r := Run(s, files, [VerifyStep(3, 0, 0), ReadStep(2, 0, 0, true)]).0;
      Seen(r, 2, 0, 0) == Some(page) && Fill(files, 1, 0, 0) != page
  {
    AllocRoom(s, a, 1);
    VerifyRoom(s, files, 3, a, 1);
    AllocRoom(Next(s, files, VerifyStep(3, 0, 0)).0, a, 0);
    assert !Pte(s, 2, 0, 0).present && PageOf(s, 3, 0, 0) == page;
    assert Stale(s, files, VerifyStep(3, 0, 0));
    hide Inv, Next, Alloc, Room;
    StaleShareShows(s, files, 3, 2, 0, 0);
  }

  // ----- from boot ------------------------------------------------------------------------------------

  lemma RunStep(s: State, files: Files, step: Step, rest: seq<Step>)
    requires Shape(s) && Enabled(s, step)
    ensures Run(s, files, [step] + rest).0 == Run(Next(s, files, step).0, files, rest).0
  {
    assert ([step] + rest)[1..] == rest;
  }

  const FAMILY: nat := 10      // frames that the family takes

  /** The steps to a family: task 1 is forked from task 0, runs program 1, has a first child, writes word i of
      its first page, and has a second child; then the rest. */
  function Founding(i: nat, v: Word, rest: seq<Step>): seq<Step> {
    [ForkStep(0)] + ([ExecStep(1, 1)] + ([ForkStep(1)] + ([WriteStep(1, 0, 0, i, v, false)] + ([ForkStep(1)] + rest))))
  }

  /** One program in slot 1, no page of it yet, as exec leaves it; its older child in slot 2 or nobody. */
  ghost predicate Started(s: State, children: nat) {
    && Inv(s) && Alive(s, 0) && (forall nr | 1 <= nr < 2 + children && nr < NR_TASKS :: Runs(s, nr))
    && (forall nr | 2 + children <= nr < NR_TASKS :: s.task[nr].None?)
    && forall nr | 1 <= nr < 2 + children && nr < NR_TASKS :: NoDirs(s, nr, 0, 16)
  }

  predicate Runs(s: State, nr: nat)
    requires Shape(s) && nr < NR_TASKS
  {
    s.task[nr].Some? && s.task[nr].value.exe == 1 && s.task[nr].value.limit == 16 * 1024 && !s.task[nr].value.zombie
  }

  lemma SlotIs(task: seq<Option<Task>>, i: nat, c: nat)
    requires i <= c < |task| && task[c].None? && forall j | i <= j < c :: task[j].Some?
    ensures EmptySlot(task, i) == c
    decreases c - i
  {
    if i < c { SlotIs(task, i + 1, c); }
  }

  lemma FirstFork(boot: State, files: Files, a: nat, k: nat)
    requires Boot(boot) && Room(boot, a, k + 2)
    ensures Enabled(boot, ForkStep(0))
    ensures var s := Next(boot, files, ForkStep(0)).0;
      Inv(s) && Room(s, a, k) && Alive(s, 0) && Alive(s, 1) && Limited(s, 1) && forall nr | 2 <= nr < NR_TASKS :: s.task[nr].None?
  {
    BootInv(boot, files);
    SlotIs(boot.task, 1, 1);
    ForkRoom(boot, files, 0, a, k);
    ForkSteps(boot, files, 0);
    hide Inv, Fork, Room, EmptySlot, ForkedView, ForkedTables, SameViews;
    assert Next(boot, files, ForkStep(0)).0 == Fork(boot, 0).0;
  }

  /** Task 1, from boot. */
  lemma FirstTask(boot: State, files: Files, a: nat, k: nat)
    requires Boot(boot) && Room(boot, a, k + 2)
    ensures Enabled(boot, ForkStep(0))
    ensures var s := Next(boot, files, ForkStep(0)).0; Enabled(s, ExecStep(1, 1)) && var r := Next(s, files, ExecStep(1, 1)).0; Started(r, 0) && Room(r, a, k)
  {
    FirstFork(boot, files, a, k);
    var s := Next(boot, files, ForkStep(0)).0;
    hide Inv, Fork, Room, Boot;
    FirstExec(s, files, a, k);
  }

  lemma ExecInv(s: State, nr: nat, exe: nat)
    requires Inv(s) && 0 < nr < NR_TASKS && Limited(s, nr)
    ensures Inv(Exec(s, nr, exe))
  {
    assert Shape(s);
    hide Inv, FreeTables, Vacated, AllKept;
    VacateSteps(s, nr, s.task[nr].value.(exe := exe, limit := 16 * 1024));
  }

  lemma FirstExec(s: State, files: Files, a: nat, k: nat)
    requires Inv(s) && Room(s, a, k) && Alive(s, 0) && Alive(s, 1) && Limited(s, 1) && forall nr | 2 <= nr < NR_TASKS :: s.task[nr].None?
    ensures Enabled(s, ExecStep(1, 1)) && var r := Next(s, files, ExecStep(1, 1)).0; Started(r, 0) && Room(r, a, k)
  {
    assert Shape(s);
    hide Inv, Exec, Room, NoDirs;
    ExecInv(s, 1, 1);
    ExecRoom(s, 1, 1, a, k);
    var r := Exec(s, 1, 1);
    assert Next(s, files, ExecStep(1, 1)).0 == r;
    assert Alive(r, 0) && Runs(r, 1);
  }

  lemma FirstChild(s: State, files: Files, a: nat, k: nat)
    requires Started(s, 0) && Room(s, a, k + 2)
    ensures Enabled(s, ForkStep(1)) && var r := Next(s, files, ForkStep(1)).0; Started(r, 1) && Room(r, a, k)
  {
    assert Runs(s, 1) && NoDirs(s, 1, 0, 16);
    SlotIs(s.task, 1, 2);
    ForkRoom(s, files, 1, a, k);
    ForkSteps(s, files, 1);
    var r := Fork(s, 1).0;
    hide Inv, Fork, Room, EmptySlot;
    forall d | 0 <= d < 16 ensures !Dir(r, 1, d).present { assert Dir(r, 1, d) == Dir(s, 1, d); }
  }

  /** Task 1 has written its first page, task 2 has none. */
  ghost predicate Written(s: State, page: Page) {
    && Inv(s) && Runs(s, 1) && Runs(s, 2) && (forall nr | 3 <= nr < NR_TASKS :: s.task[nr].None?)
    && NoDirs(s, 1, 1, 16) && NoDirs(s, 2, 0, 16) && Seen(s, 1, 0, 0) == Some(page)
  }

  lemma StartedIs(s: State)
    requires Started(s, 1)
    ensures Inv(s) && Shape(s) && Runs(s, 1) && Runs(s, 2) && (forall nr | 3 <= nr < NR_TASKS :: s.task[nr].None?)
    ensures NoDirs(s, 1, 0, 16) && NoDirs(s, 2, 0, 16)
  {
  }

  lemma PageWritten(s: State, files: Files, i: nat, v: Word, a: nat, k: nat)
    requires Started(s, 1) && Room(s, a, k + 2) && i < 1024 && FromFile(files, 1, 0, 0)
    ensures var step := WriteStep(1, 0, 0, i, v, false);
      Enabled(s, step) && var r := Next(s, files, step).0; Written(r, files.image(1, 0)[i := v]) && Room(r, a, k)
  {
    hide Inv, Write, Room, Dir, Seen, Clean, View, Started, FromFile;
    StartedIs(s);
    FirstWrite(s, files, 1, i, v, a, k);
    WriteRefines(s, files, 1, 0, 0, i, v, false);
    var r := Write(s, files, 1, 0, 0, i, v, false).0;
    assert Inv(r) && Shape(r);
    forall d | 0 <= d < 16 ensures !Dir(r, 2, d).present { assert Dir(r, 2, d) == Dir(s, 2, d); }
  }

  lemma SecondFork(s: State, files: Files, page: Page, a: nat, k: nat)
    requires Written(s, page) && Room(s, a, k + 2)
    ensures Enabled(s, ForkStep(1)) && var r := Next(s, files, ForkStep(1)).0;
      Inv(r) && Room(r, a, k) && CopyResult(s, r, 1, 3) && Seen(r, 3, 0, 0) == Some(page) &&
      Runs(r, 2) && Runs(r, 3) && forall nr | 4 <= nr < NR_TASKS :: r.task[nr].None?
  {
    assert Runs(s, 1) && Runs(s, 2);
    SlotIs(s.task, 1, 3);
    ForkRoom(s, files, 1, a, k);
    ForkSteps(s, files, 1);
    var r := Fork(s, 1).0;
    hide Fork, Room, EmptySlot, Inv, CopyResult, NoDirs, Seen;
    assert ForkedView(s, r, 1, 3);
  }

  lemma SecondChild(s: State, files: Files, page: Page, a: nat, k: nat)
    requires Written(s, page) && Room(s, a, k + 2)
    ensures Enabled(s, ForkStep(1)) && var r := Next(s, files, ForkStep(1)).0; Family(r, page) && Room(r, a, k)
  {
    SecondFork(s, files, page, a, k);
    var r := Next(s, files, ForkStep(1)).0;
    assert Pte(s, 1, 0, 0).present && LOW <= Pte(s, 1, 0, 0).frame < TOP;
    hide Next, Room, Inv, Enabled, Pte, Seen;
    assert Dir(r, 2, 0) == Dir(s, 2, 0);
    InheritedTwice(s, r, 1, 3);
  }

  lemma RunFive(s: State, files: Files, a: Step, b: Step, c: Step, d: Step, e: Step, rest: seq<Step>)
    requires Shape(s) && Enabled(s, a) && Enabled(Next(s, files, a).0, b)
    requires var t := Next(Next(s, files, a).0, files, b).0;
      Enabled(t, c) && var u := Next(t, files, c).0; Enabled(u, d) && Enabled(Next(u, files, d).0, e)
    ensures var t := Next(Next(s, files, a).0, files, b).0; var u := Next(t, files, c).0;
      Run(s, files, [a] + ([b] + ([c] + ([d] + ([e] + rest))))).0 == Run(Next(Next(u, files, d).0, files, e).0, files, rest).0
  {
    hide Next, Run, Enabled;
    var t := Next(Next(s, files, a).0, files, b).0;
    var u := Next(t, files, c).0;
    RunStep(s, files, a, [b] + ([c] + ([d] + ([e] + rest))));
    RunStep(Next(s, files, a).0, files, b, [c] + ([d] + ([e] + rest)));
    RunStep(t, files, c, [d] + ([e] + rest));
    RunStep(u, files, d, [e] + rest);
    RunStep(Next(u, files, d).0, files, e, rest);
  }

  /** try_to_share is not always a load.  From boot, with room for ten frames, whatever program 1 and whatever
      word task 1 writes into its first page: a system call that makes the kernel verify a buffer in its second
      child, and stores nothing, lets the first child start from the written page instead of the program's. */
  lemma SharingCanShow(boot: State, files: Files, a: nat, i: nat, v: Word)
    requires Boot(boot) && Room(boot, a, FAMILY)
    requires FromFile(files, 1, 0, 0) && i < 1024 && files.image(1, 0)[i] != v
    ensures var r := Run(boot, files, Founding(i, v, [VerifyStep(3, 0, 0), ReadStep(2, 0, 0, true)])).0; var page := files.image(1, 0)[i := v];
      Seen(r, 2, 0, 0) == Some(page) && Fill(files, 1, 0, 0) != page
  {
    var page := files.image(1, 0)[i := v];
    var last := [VerifyStep(3, 0, 0), ReadStep(2, 0, 0, true)];
    FirstTask(boot, files, a, 8);
    var s1 := Next(boot, files, ForkStep(0)).0;
    var s2 := Next(s1, files, ExecStep(1, 1)).0;
    hide Boot, Room, Inv, Started, Written, Family, Next, Run, Enabled;
    FirstChild(s2, files, a, 6);
    var s3 := Next(s2, files, ForkStep(1)).0;
    PageWritten(s3, files, i, v, a, 4);
    var s4 := Next(s3, files, WriteStep(1, 0, 0, i, v, false)).0;
    SecondChild(s4, files, page, a, 2);
    var s5 := Next(s4, files, ForkStep(1)).0;
    FamilyShows(s5, files, page, a);
    RunFive(boot, files, ForkStep(0), ExecStep(1, 1), ForkStep(1), WriteStep(1, 0, 0, i, v, false), ForkStep(1), last);
  }
}
