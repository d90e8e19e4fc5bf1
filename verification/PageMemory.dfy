// When memory runs out: every operation that can fail for lack of frames fails exactly when there are too few.

module PageMemory {
  import opened Common
  import opened PageModel
  import opened PageInvariant
  import opened PageSteps
  import opened PageTables
  import opened PageFaults
  import opened PageRuns
  import opened PageRefinement

  // ----- counting free frames -----------------------------------------------------------------

  function Zeros(count: seq<nat>, n: nat): (z: nat)
    requires n <= |count|
  {
    if n == 0 then 0 else Zeros(count, n - 1) + if count[n - 1] == 0 then 1 else 0
  }

  /** The number of frames that nobody uses: the zero bytes of mem_map. */
  function Free(s: State): nat
    requires Shape(s)
  {
    Zeros(s.count, PAGES)
  }

  lemma {:induction false} ZerosSame(a: seq<nat>, b: seq<nat>, n: nat)
    requires n <= |a| && n <= |b| && forall j | 0 <= j < n :: a[j] == 0 <==> b[j] == 0
    ensures Zeros(a, n) == Zeros(b, n)
    decreases n
  {
    if n > 0 { ZerosSame(a, b, n - 1); }
  }

  lemma {:induction false} ZerosSet(a: seq<nat>, n: nat, i: nat, v: nat)
    requires i < n <= |a|
    ensures Zeros(a[i := v], n) == Zeros(a, n) - (if a[i] == 0 then 1 else 0) + (if v == 0 then 1 else 0)
    decreases n
  {
    if i == n - 1 { ZerosSame(a[i := v], a, n - 1); } else { ZerosSet(a, n - 1, i, v); }
  }

  lemma {:induction false} ZerosNone(a: seq<nat>, n: nat)
    requires n <= |a|
    ensures Zeros(a, n) == 0 <==> forall j | 0 <= j < n :: a[j] != 0
    decreases n
  {
    if n > 0 { ZerosNone(a, n - 1); }
  }

  lemma AllocFree(s: State)
    requires Shape(s)
    ensures var (r, f) := Alloc(s); if Free(s) == 0 then f == 0 && r == s else f != 0 && Free(r) == Free(s) - 1
  {
    ZerosNone(s.count, PAGES);
    var i := LastFree(s.count, PAGES);
    if i > 0 { ZerosSet(s.count, PAGES, i - 1, 1); }
  }

  // ----- faults -------------------------------------------------------------------------------------

  /** The frames that a page table at (nr, k) still takes. */
  function TableNeeds(s: State, nr: nat, k: nat): nat
    requires Shape(s) && nr < NR_TASKS && k < 16
  {
    if Dir(s, nr, k).present then 0 else 1
  }

  lemma NeedTableFree(s: State, nr: nat, k: nat)
    requires Shape(s) && nr < NR_TASKS && k < 16
    ensures var (r, ok) := NeedTable(s, nr, k);
      (ok <==> Free(s) >= TableNeeds(s, nr, k)) && (ok ==> Free(r) == Free(s) - TableNeeds(s, nr, k))
  {
    AllocFree(s);
  }

  /** un_wp_page fails exactly when the page is not the task's alone and no frame is free. */
  lemma UnWpFree(s: State, nr: nat, k: nat, t: nat)
    requires Shape(s) && nr < NR_TASKS && k < 16 && t < 1024
    ensures var f := Pte(s, nr, k, t).frame;
      UnWp(s, nr, k, t).1 <==> Free(s) > 0 || (LOW <= f < TOP && Count(s, f) == 1)
  {
    AllocFree(s);
  }

  /** put_page of a new page takes a frame for it, and one for its table if there is none. */
  lemma PutNewFree(s: State, nr: nat, k: nat, t: nat, content: Page)
    requires Inv(s) && 0 < nr < NR_TASKS && k < 16 && t < 1024
    ensures PutNew(s, nr, k, t, content).1 <==> Free(s) >= 1 + TableNeeds(s, nr, k)
  {
    AllocFree(s);
    var (s1, f) := Alloc(s);
    if f != 0 {
      AllocStep(s);
      var b := s1.(mem := s1.mem[f := content]);
      assert Dir(b, nr, k) == Dir(s, nr, k);
      NeedTableFree(b, nr, k);
    }
  }

  lemma {:induction false} ShareFree(s: State, files: Files, cur: nat, k: nat, t: nat, p: nat)
    requires Inv(s) && InSpace(s, cur, k, t) && p < NR_TASKS && !Pte(s, cur, k, t).present
    ensures Share(s, cur, k, t, p).1 == OutOfMemory <==> Sharer(s, cur, k, t, p) > 0 && Free(s) < TableNeeds(s, cur, k)
    decreases p
  {
    NeedTableFree(s, cur, k);
    hide Inv, Pte, Dir, Free, NeedTable, Alloc, TryToShare, Offers, TableNeeds;
    if p == 0 {
    } else if s.task[p].None? || s.task[cur].None? || cur == p || s.task[p].value.exe != s.task[cur].value.exe {
      ShareFree(s, files, cur, k, t, p - 1);
    } else {
      TryFree(s, files, cur, p, k, t);
      if TryToShare(s, cur, p, k, t).1 == NotShared { ShareFree(s, files, cur, k, t, p - 1); }
    }
  }

  lemma TryFree(s: State, files: Files, cur: nat, p: nat, k: nat, t: nat)
    requires Inv(s) && InSpace(s, cur, k, t) && 0 < p < NR_TASKS && p != cur && !Pte(s, cur, k, t).present
    requires s.task[p].Some? && s.task[p].value.exe == s.task[cur].value.exe
    ensures var (r, how) := TryToShare(s, cur, p, k, t);
      if Offers(s, cur, p, k, t) then how == if Free(s) < TableNeeds(s, cur, k) then OutOfMemory else Shared
      else how == NotShared && r == s
  {
    TryToShareSteps(s, files, cur, p, k, t);
    NeedTableFree(s, cur, k);
    hide Inv, Pte, Dir, NeedTable, Alloc, Free, Unwritten, Seen, TableNeeds, Clean;
  }

  /** do_no_page fails exactly when there are too few frames for the page, unless it is borrowed, and its table. */
  lemma NoPageFree(s: State, files: Files, nr: nat, k: nat, t: nat, mayShare: bool)
    requires Inv(s) && InSpace(s, nr, k, t) && !Pte(s, nr, k, t).present
    ensures var exe := s.task[nr].value.exe;
      var borrows := mayShare && FromFile(files, exe, k, t) && Sharer(s, nr, k, t, NR_TASKS - 1) > 0;
      NoPage(s, files, nr, k, t, mayShare).1 <==> Free(s) >= (if borrows then 0 else 1) + TableNeeds(s, nr, k)
  {
    var exe := s.task[nr].value.exe;
    if FromFile(files, exe, k, t) {
      if mayShare {
        ShareSteps(s, files, nr, k, t, NR_TASKS - 1);
        ShareFree(s, files, nr, k, t, NR_TASKS - 1);
      }
      PutNewFree(s, nr, k, t, files.image(exe, k * 1024 + t));
    } else {
      PutNewFree(s, nr, k, t, ZeroPage());
    }
    hide Inv, Pte, Dir, Free, Share, PutNew;
  }

  // ----- fork -----------------------------------------------------------------------------------------

  lemma SharedIsCounted(s: State, p: nat, c: nat, k: nat, t: nat)
    requires CanCopy(s, p, c, k) && t < CopyLength(p) && Pte(s, p, k, t).present && Pte(s, p, k, t).frame >= LOW
    ensures LOW <= Pte(s, p, k, t).frame < TOP && Count(s, Pte(s, p, k, t).frame) != 0
  {
    assert p > 0;
    hide Counts, Exclusive, TaskPages;
    assert Refers(s, PteRef(p, k, t), Pte(s, p, k, t).frame);
    hide Tables, Kernel, Pte, Refers;
    ReferredIsCounted(s, PteRef(p, k, t), Pte(s, p, k, t).frame);
  }

  lemma CopyEntryCount(s: State, p: nat, c: nat, k: nat, t: nat)
    requires Shape(s) && p < NR_TASKS && c < NR_TASKS && k < 16 && t < 1024
    ensures var w := Pte(s, p, k, t);
      CopyEntry(s, p, c, k, t).count == if w.present && w.frame >= LOW then Bump(s, w.frame).count else s.count
  {
    hide Pte;
  }

  lemma BumpFree(s: State, f: nat)
    requires Shape(s) && LOW <= f < TOP && 0 < Count(s, f) <= USED
    ensures Free(Bump(s, f)) == Free(s)
  {
    ZerosSet(s.count, PAGES, f - LOW, Count(s, f) + 1);
  }

  lemma CopyEntryFree(s: State, p: nat, c: nat, k: nat, t: nat)
    requires CanCopy(s, p, c, k) && t < CopyLength(p)
    ensures Free(CopyEntry(s, p, c, k, t)) == Free(s)
  {
    assert Shape(s);
    CopyEntryCount(s, p, c, k, t);
    var w := Pte(s, p, k, t);
    hide Pte, CopyEntry;
    if w.present && w.frame >= LOW {
      SharedIsCounted(s, p, c, k, t);
      CountBound(s, w.frame);
      hide Inv, Bump;
      BumpFree(s, w.frame);
    }
  }

  lemma {:induction false} CopyEntriesFree(s: State, files: Files, p: nat, c: nat, k: nat, t: nat, n: nat)
    requires CanCopy(s, p, c, k) && t <= n <= CopyLength(p)
    requires forall e | t <= e < n :: !Pte(s, c, k, e).present
    ensures Free(CopyEntries(s, p, c, k, t, n)) == Free(s)
    decreases n - t
  {
    if t < n {
      CopyEntryFree(s, p, c, k, t);
      CopyEntryStep(s, files, p, c, k, t);
      var m := CopyEntry(s, p, c, k, t);
      hide CopyEntry, Inv, Free;
      forall e | t + 1 <= e < n ensures !Pte(m, c, k, e).present { assert Softened(s, m, c, k, e); }
      CopyEntriesFree(m, files, p, c, k, t + 1, n);
    }
  }

  lemma CopyDirFree(s: State, files: Files, p: nat, c: nat, k: nat, n: nat)
    requires CanCopyTables(s, p, c, k, n) && k < n
    ensures var (r, ok) := CopyDir(s, p, c, k); var needs := if Dir(s, p, k).present then 1 else 0;
      (ok <==> Free(s) >= needs) && (ok ==> Free(r) == Free(s) - needs)
  {
    assert !Dir(s, c, k).present;
    if Dir(s, p, k).present {
      AllocFree(s);
      NewTableStep(s, c, k);
      var (s1, f) := Alloc(s);
      if f != 0 {
        var m := SetDir(s1, c, k, UserEntry(f)).(held := s1.held - {f});
        assert m.count == s1.count;
        forall e | 0 <= e < 1024 ensures !Pte(m, c, k, e).present { assert Pte(m, c, k, e) == Pte(s, c, k, e); }
        assert Dir(m, p, k) == Dir(s, p, k);
        assert CanCopy(m, p, c, k);
        hide Inv, CanCopy, Pte, CopyEntries, Alloc, Zeros;
        CopyEntriesFree(m, files, p, c, k, 0, CopyLength(p));
      }
    }
  }

  /** The page tables that p has from the k-th to the n-th place. */
  function Present(s: State, p: nat, k: nat, n: nat): nat
    requires Shape(s) && p < NR_TASKS && k <= n <= 16
    decreases n - k
  {
    if k == n then 0 else (if Dir(s, p, k).present then 1 else 0) + Present(s, p, k + 1, n)
  }

  lemma {:induction false} PresentSame(s: State, m: State, p: nat, k: nat, n: nat)
    requires Shape(s) && Shape(m) && p < NR_TASKS && k <= n <= 16 && forall d | k <= d < n :: Dir(m, p, d) == Dir(s, p, d)
    ensures Present(m, p, k, n) == Present(s, p, k, n)
    decreases n - k
  {
    if k < n { PresentSame(s, m, p, k + 1, n); }
  }

  /** copy_page_tables fails exactly when there are fewer free frames than the parent has page tables. */
  lemma {:induction false} CopyTablesFree(s: State, files: Files, p: nat, c: nat, k: nat, n: nat)
    requires CanCopyTables(s, p, c, k, n)
    ensures CopyTables(s, p, c, k, n).1 <==> Free(s) >= Present(s, p, k, n)
    decreases n - k
  {
    if k < n {
      CopyDirFree(s, files, p, c, k, n);
      CopyDirSteps(s, files, p, c, k);
      var (m, ok) := CopyDir(s, p, c, k);
      if ok {
        CopyReady(s, m, p, c, k, n);
        assert Shape(m);
        hide CanCopyTables;
        PresentSame(s, m, p, k + 1, n);
        hide Inv, Free, CopyDir, CopiedTables, Dir, Clean, SeesParent, InheritsParent;
        CopyTablesFree(m, files, p, c, k + 1, n);
      }
    }
  }

  /** fork fails exactly when no slot is empty or there are fewer free frames than one for the task structure and
      one for each page table of the parent. */
  lemma ForkFree(s: State, files: Files, p: nat)
    requires Inv(s) && Alive(s, p) && Limited(s, p)
    ensures Fork(s, p).1 != 0 <==>
      (exists c :: 1 <= c < NR_TASKS && s.task[c].None?) && Free(s) >= 1 + Present(s, p, 0, Dirs(s.task[p].value.limit))
  {
    var c, n := EmptySlot(s.task, 1), Dirs(s.task[p].value.limit);
    AllocFree(s);
    var (s1, f) := Alloc(s);
    if c < NR_TASKS && f != 0 {
      assert s.task[c].None?;
      ForkBegins(s, files, p);
      var m := SetTask(s1, c, Some(s.task[p].value.(page := f)));
      PresentSame(s, m, p, 0, n);
      assert m.count == s1.count && m.task[p] == s.task[p];
      hide Inv, Alloc, CopyTables, EmptySlot, Zeros, Dir, SameDirs, SamePtes;
      CopyTablesFree(m, files, p, c, 0, n);
    }
  }
}
