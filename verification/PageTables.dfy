// free_page_tables and copy_page_tables over whole ranges of the address space.

module PageTables {
  import opened Common
  import opened PageModel
  import opened PageInvariant
  import opened PageSteps
  import opened PageEntries

  /** The tables from (nr, k) up to (nr, n) may differ; everything else is as it was. */
  ghost predicate OnlyTables(s: State, r: State, nr: nat, k: nat, n: nat)
    requires Shape(s) && Shape(r)
  {
    && r.task == s.task && r.held == s.held && r.reserved == s.reserved && r.high == s.high
    && (forall i, d | 0 <= i < NR_TASKS && 0 <= d < 16 && !(i == nr && k <= d < n) :: SameTable(s, r, i, d))
  }

  ghost predicate SameTable(s: State, r: State, i: nat, d: nat)
    requires Shape(s) && Shape(r) && i < NR_TASKS && d < 16
  {
    Dir(r, i, d) == Dir(s, i, d) &&
    forall e | 0 <= e < 1024 :: Pte(r, i, d, e) == Pte(s, i, d, e) && (i > 0 ==> Seen(r, i, d, e) == Seen(s, i, d, e))
  }

  predicate NoDirs(s: State, nr: nat, k: nat, n: nat)
    requires Shape(s) && nr < NR_TASKS && n <= 16
  {
    forall d | k <= d < n :: !Dir(s, nr, d).present
  }

  // ----- freeing --------------------------------------------------------------------------

  lemma {:induction false} FreeEntriesSteps(s: State, nr: nat, k: nat, t: nat)
    requires Inv(s) && 0 < nr < NR_TASKS && k < 16 && t <= 1024 && Dir(s, nr, k).present
    requires forall e | 0 <= e < t :: Pte(s, nr, k, e) == ZERO
    ensures var r := FreeEntries(s, nr, k, t);
      Inv(r) && OnlyTables(s, r, nr, k, k + 1) && SameDirs(s, r) && AllKept(s, r) &&
      (forall e | 0 <= e < 1024 :: Pte(r, nr, k, e) == ZERO)
    decreases 1024 - t
  {
    if t < 1024 {
      var m := FreeEntry(s, nr, k, t);
      DropPteStep(s, nr, k, t);
      forall e | 0 <= e < t + 1 ensures Pte(m, nr, k, e) == ZERO {
        if e < t { assert Pte(m, nr, k, e) == Pte(s, nr, k, e); }
      }
      FreeEntriesSteps(m, nr, k, t + 1);
      var r := FreeEntries(s, nr, k, t);
      DropPteTables(s, m, nr, k, t);
      OnlyTablesChain(s, m, r, nr, k, k + 1);
      KeptChain(s, m, r);
    } else {
      SelfKept(s);
    }
  }

  lemma DropPteTables(s: State, m: State, nr: nat, k: nat, t: nat)
    requires Shape(s) && Shape(m) && 0 < nr < NR_TASKS && k < 16 && t < 1024
    requires OneEntry(s, m, nr, k, t) && SameBut(s, m, nr, k, t) && KeptBut(s, m, nr, k, t) && m.held == s.held && Pte(m, nr, k, t) == ZERO
    ensures OnlyTables(s, m, nr, k, k + 1) && AllKept(s, m)
  {
    forall i, d | 0 <= i < NR_TASKS && 0 <= d < 16 && !(i == nr && d == k) ensures SameTable(s, m, i, d) {
      assert Dir(m, i, d) == Dir(s, i, d);
    }
    assert Kept(s, m, nr, k, t);
  }

  lemma OnlyTablesChain(s: State, m: State, r: State, nr: nat, k: nat, n: nat)
    requires Shape(s) && Shape(m) && Shape(r) && nr < NR_TASKS
    requires OnlyTables(s, m, nr, k, n) && OnlyTables(m, r, nr, k, n)
    ensures OnlyTables(s, r, nr, k, n)
  {
    forall i, d | 0 <= i < NR_TASKS && 0 <= d < 16 && !(i == nr && k <= d < n) ensures SameTable(s, r, i, d) {
      assert SameTable(s, m, i, d) && SameTable(m, r, i, d);
    }
  }

  lemma KeptChain(s: State, m: State, r: State)
    requires Shape(s) && Shape(m) && Shape(r) && AllKept(s, m) && AllKept(m, r)
    ensures AllKept(s, r)
  {
    forall i, d, e | 0 < i < NR_TASKS && 0 <= d < 16 && 0 <= e < 1024 ensures Kept(s, r, i, d, e) {
      assert Kept(s, m, i, d, e) && Kept(m, r, i, d, e);
    }
  }

  lemma SelfKept(s: State)
    requires Shape(s)
    ensures AllKept(s, s) && SameDirs(s, s)
    ensures forall nr, k, n :: OnlyTables(s, s, nr, k, n)
  {
    forall nr, k, n ensures OnlyTables(s, s, nr, k, n) {
      forall i, d | 0 <= i < NR_TASKS && 0 <= d < 16 ensures SameTable(s, s, i, d) {}
    }
  }

  lemma FreeDirSteps(s: State, nr: nat, k: nat)
    requires Inv(s) && 0 < nr < NR_TASKS && k < 16
    ensures var r := FreeDir(s, nr, k);
      Inv(r) && OnlyTables(s, r, nr, k, k + 1) && AllKept(s, r) && !Dir(r, nr, k).present
  {
    if Dir(s, nr, k).present {
      FreeEntriesSteps(s, nr, k, 0);
      var m := FreeEntries(s, nr, k, 0);
      assert Dir(m, nr, k) == Dir(s, nr, k);
      DropDirStep(m, nr, k);
      var r := FreeDir(s, nr, k);
      forall i, d | 0 <= i < NR_TASKS && 0 <= d < 16 && !(i == nr && d == k) ensures SameTable(m, r, i, d) {
        assert Dir(r, i, d) == Dir(m, i, d);
      }
      OnlyTablesChain(s, m, r, nr, k, k + 1);
      KeptChain(s, m, r);
    } else {
      SelfKept(s);
    }
  }

  /** free_page_tables empties the range and leaves everything else as it was. */
  lemma {:induction false} FreeTablesSteps(s: State, nr: nat, k: nat, n: nat)
    requires Inv(s) && 0 < nr < NR_TASKS && k <= n <= 16
    ensures var r := FreeTables(s, nr, k, n);
      Inv(r) && OnlyTables(s, r, nr, k, n) && AllKept(s, r) && NoDirs(r, nr, k, n)
    decreases n - k
  {
    if k < n {
      FreeDirSteps(s, nr, k);
      var m := FreeDir(s, nr, k);
      FreeTablesSteps(m, nr, k + 1, n);
      var r := FreeTables(s, nr, k, n);
      assert SameTable(m, r, nr, k);
      WidenTables(s, m, nr, k, k + 1, k, n);
      WidenTables(m, r, nr, k + 1, n, k, n);
      OnlyTablesChain(s, m, r, nr, k, n);
      KeptChain(s, m, r);
    } else {
      SelfKept(s);
    }
  }

  lemma WidenTables(s: State, r: State, nr: nat, k: nat, n: nat, k': nat, n': nat)
    requires Shape(s) && Shape(r) && OnlyTables(s, r, nr, k, n) && k' <= k && n <= n'
    ensures OnlyTables(s, r, nr, k', n')
  {
  }

  // ----- copying --------------------------------------------------------------------------

  /** The entry is as it was, except that it may have been write-protected. */
  predicate Softened(s: State, r: State, i: nat, d: nat, e: nat)
    requires Shape(s) && Shape(r) && i < NR_TASKS && d < 16 && e < 1024
  {
    Pte(r, i, d, e) == Pte(s, i, d, e) || Pte(r, i, d, e) == Protect(Pte(s, i, d, e))
  }

  /** What a child should see of its parent; nothing of task 0, whose pages are all low. */
  function ParentSeen(s: State, p: nat, k: nat, t: nat): Option<Page>
    requires Shape(s) && p < NR_TASKS && k < 16 && t < 1024
  {
    if p == 0 then None else Seen(s, p, k, t)
  }

  /** Outside the entries [t, n) of the table (c, k), entries at most lost their write bit and
      pages look the same; within, the child sees the parent's bytes. */
  ghost predicate Copied(s: State, r: State, p: nat, c: nat, k: nat, t: nat, n: nat)
    requires Shape(s) && Shape(r) && p < NR_TASKS && c < NR_TASKS
  {
    && r.task == s.task && r.held == s.held && r.reserved == s.reserved && r.high == s.high
    && (forall i, d, e | 0 <= i < NR_TASKS && 0 <= d < 16 && 0 <= e < 1024 && !(i == c && d == k && t <= e < n) ::
         Softened(s, r, i, d, e) && (i > 0 ==> Seen(r, i, d, e) == Seen(s, i, d, e)))
    && (forall e | t <= e < n && 0 <= k < 16 && 0 <= e < 1024 :: Seen(r, c, k, e) == ParentSeen(s, p, k, e))
  }

  /** A low page, read-only, is mapped without being counted. */
  lemma InstallLowStep(s: State, files: Files, nr: nat, k: nat, t: nat, w: Word)
    requires Inv(s)
    requires 0 < nr < NR_TASKS && k < 16 && t < 1024 && Dir(s, nr, k).present && !Pte(s, nr, k, t).present
    requires w.present && !w.rw && w.frame < LOW
    ensures var r := SetPte(s, nr, k, t, w);
      Inv(r) && SameBut(s, r, nr, k, t) && OneEntry(s, r, nr, k, t) && AllKept(s, r) && Pte(r, nr, k, t) == w &&
      Seen(r, nr, k, t) == None
  {
    var r := SetPte(s, nr, k, t, w);
    OneEntryByPteChange(s, r, nr, k, t, w);
    OneEntryKeeps(s, r, nr, k, t);
    assert Kept(s, r, nr, k, t);
    LowReferences(s, r, nr, k, t);
  }

  lemma LowReferences(s: State, r: State, nr: nat, k: nat, t: nat)
    requires Inv(s) && Shape(r) && nr < NR_TASKS && k < 16 && t < 1024
    requires OneEntry(s, r, nr, k, t) && r.held == s.held && r.count == s.count
    requires !Pte(s, nr, k, t).present && Pte(r, nr, k, t).frame < LOW
    ensures Counts(r) && Exclusive(r)
  {
    forall q, g | LOW <= g ensures Refers(s, q, g) <==> Refers(r, q, g) {}
    KeepAllCounts(s, r);
    forall f, a, b | LOW <= f && Refers(r, a, f) && Refers(r, b, f) ensures Compatible(r, a, b) {
      assert Refers(s, a, f) && Refers(s, b, f);
      assert Compatible(s, a, b);
    }
  }

  lemma CopyEntryStep(s: State, files: Files, p: nat, c: nat, k: nat, t: nat)
    requires CanCopy(s, p, c, k) && t < CopyLength(p) && !Pte(s, c, k, t).present
    ensures var r := CopyEntry(s, p, c, k, t);
      CanCopy(r, p, c, k) && Copied(s, r, p, c, k, t, t + 1) && SameDirs(s, r) && (Clean(s, files) ==> Clean(r, files))
  {
    var w := Pte(s, p, k, t);
    var r := CopyEntry(s, p, c, k, t);
    if !w.present {
    } else if w.frame < LOW {
      InstallLowStep(s, files, c, k, t, Protect(w));
      CleanKept(s, r, files);
      OneEntryCopied(s, r, p, c, k, t);
    } else {
      ShareStep(s, p, c, k, t);
      SharesCommute(s, p, c, k, t);
      SharedClean(s, r, files, p, c, k, t);
      SharedCopied(s, r, p, c, k, t);
    }
  }

  /** What fork relies on when it copies the table (p, k) into (c, k). */
  ghost predicate CanCopy(s: State, p: nat, c: nat, k: nat) {
    && Inv(s) && p < NR_TASKS && 0 < c < NR_TASKS && p != c && k < 16
    && Dir(s, c, k).present && Dir(s, p, k).present && (p == 0 ==> k == 0)
    && s.task[p].Some? && s.task[c].Some? && s.task[c].value.exe == s.task[p].value.exe
  }

  lemma OneEntryCopied(s: State, r: State, p: nat, c: nat, k: nat, t: nat)
    requires CanCopy(s, p, c, k) && Shape(r) && t < 1024
    requires OneEntry(s, r, c, k, t) && SameBut(s, r, c, k, t) && r.held == s.held
    requires Seen(r, c, k, t) == ParentSeen(s, p, k, t)
    ensures Copied(s, r, p, c, k, t, t + 1)
  {
  }

  lemma SharedCopied(s: State, r: State, p: nat, c: nat, k: nat, t: nat)
    requires CanCopy(s, p, c, k) && Shape(r) && t < 1024 && p > 0
    requires SharedEntry(s, r, p, c, k, t) && SameBut(s, r, c, k, t) && Seen(r, c, k, t) == Seen(s, p, k, t)
    ensures Copied(s, r, p, c, k, t, t + 1)
  {
    forall i, d, e | 0 <= i < NR_TASKS && 0 <= d < 16 && 0 <= e < 1024 && !(i == c && d == k && t <= e < t + 1)
      ensures Softened(s, r, i, d, e) && (i > 0 ==> Seen(r, i, d, e) == Seen(s, i, d, e))
    {
      assert (i, d, e) != (c, k, t);
    }
  }

  lemma SharedClean(s: State, r: State, files: Files, p: nat, c: nat, k: nat, t: nat)
    requires Shape(s) && Shape(r) && 0 < p < NR_TASKS && 0 < c < NR_TASKS && k < 16 && t < 1024
    requires KeptBut(s, r, c, k, t) && Seen(r, c, k, t) == Seen(s, p, k, t) && Pte(r, c, k, t) == Protect(Pte(s, p, k, t))
    requires r.task == s.task && s.task[p].Some? && s.task[c].Some? && s.task[c].value.exe == s.task[p].value.exe
    ensures Clean(s, files) ==> Clean(r, files)
  {
    if Clean(s, files) {
      forall i, d, e | 0 < i < NR_TASKS && 0 <= d < 16 && 0 <= e < 1024 ensures CleanAt(r, files, i, d, e) {
        if (i, d, e) == (c, k, t) {
          assert CleanAt(s, files, p, k, t);
        } else {
          assert Kept(s, r, i, d, e) && CleanAt(s, files, i, d, e);
        }
      }
    }
  }

  /** Writing the child's entry first, as fork does, gives the same state. */
  lemma SharesCommute(s: State, p: nat, c: nat, k: nat, t: nat)
    requires CanCopy(s, p, c, k) && t < 1024 && p > 0
    requires Pte(s, p, k, t).present
    ensures var w := Protect(Pte(s, p, k, t));
      SetPte(SetPte(s, c, k, t, w), p, k, t, w) == SetPte(SetPte(s, p, k, t, w), c, k, t, w)
  {
    var w := Protect(Pte(s, p, k, t));
    var a, b := Dir(s, p, k).frame, Dir(s, c, k).frame;
    if a == b { DistinctTables(s, p, k, c, k); }
    PteChange(s, c, k, t, w);
    PteChange(s, p, k, t, w);
    assert SetPte(SetPte(s, c, k, t, w), p, k, t, w).mem == s.mem[b := s.mem[b][t := w]][a := s.mem[a][t := w]];
    assert SetPte(SetPte(s, p, k, t, w), c, k, t, w).mem == s.mem[a := s.mem[a][t := w]][b := s.mem[b][t := w]];
  }

  lemma {:induction false} CopyEntriesSteps(s: State, files: Files, p: nat, c: nat, k: nat, t: nat, n: nat)
    requires CanCopy(s, p, c, k) && t <= n <= CopyLength(p)
    requires forall e | t <= e < n :: !Pte(s, c, k, e).present
    ensures var r := CopyEntries(s, p, c, k, t, n);
      CanCopy(r, p, c, k) && Copied(s, r, p, c, k, t, n) && SameDirs(s, r) && (Clean(s, files) ==> Clean(r, files))
    decreases n - t
  {
    hide Clean, CopyEntry;
    if t < n {
      CopyEntryStep(s, files, p, c, k, t);
      var m := CopyEntry(s, p, c, k, t);
      forall e | t + 1 <= e < n ensures !Pte(m, c, k, e).present { assert Softened(s, m, c, k, e); }
      CopyEntriesSteps(m, files, p, c, k, t + 1, n);
      CopiedChain(s, m, CopyEntries(s, p, c, k, t, n), p, c, k, t, n);
    } else {
      SelfKept(s);
    }
  }

  lemma CopiedChain(s: State, m: State, r: State, p: nat, c: nat, k: nat, t: nat, n: nat)
    requires Shape(s) && Shape(m) && Shape(r) && p < NR_TASKS && 0 < c < NR_TASKS && k < 16 && t < n <= 1024 && p != c
    requires Copied(s, m, p, c, k, t, t + 1) && Copied(m, r, p, c, k, t + 1, n)
    ensures Copied(s, r, p, c, k, t, n)
  {
    forall i, d, e | 0 <= i < NR_TASKS && 0 <= d < 16 && 0 <= e < 1024 && !(i == c && d == k && t <= e < n)
      ensures Softened(s, r, i, d, e) && (i > 0 ==> Seen(r, i, d, e) == Seen(s, i, d, e))
    {
      assert Softened(s, m, i, d, e) && Softened(m, r, i, d, e);
    }
    forall e | t <= e < n ensures Seen(r, c, k, e) == ParentSeen(s, p, k, e) {
      if e == t {
        assert Softened(m, r, c, k, e);
      } else {
        assert Softened(s, m, p, k, e);
      }
    }
  }

  /** Copied, for whole tables: (c, k) up to (c, n) come from p, all else is the same. */
  ghost predicate CopiedTables(s: State, r: State, p: nat, c: nat, k: nat, n: nat)
    requires Shape(s) && Shape(r) && p < NR_TASKS && c < NR_TASKS
  {
    && r.task == s.task && r.held == s.held && r.reserved == s.reserved && r.high == s.high
    && (forall i, d | 0 <= i < NR_TASKS && 0 <= d < 16 && !(i == c && k <= d < n) :: Dir(r, i, d) == Dir(s, i, d))
    && (forall i, d, e | 0 <= i < NR_TASKS && 0 <= d < 16 && 0 <= e < 1024 && !(i == c && k <= d < n) ::
         Softened(s, r, i, d, e) && (i > 0 ==> Seen(r, i, d, e) == Seen(s, i, d, e)))
  }

  ghost predicate SeesParent(s: State, r: State, p: nat, c: nat, k: nat, n: nat)
    requires Shape(s) && Shape(r) && p < NR_TASKS && c < NR_TASKS && n <= 16
  {
    forall d, e | k <= d < n && 0 <= e < 1024 :: Seen(r, c, d, e) == ParentSeen(s, p, d, e)
  }

  /** Get a page table for (nr, k): only the kernel's bookkeeping changes. */
  lemma NewTableStep(s: State, nr: nat, k: nat)
    requires Inv(s) && 0 < nr < NR_TASKS && k < 16 && Alive(s, nr) && k < Dirs(s.task[nr].value.limit)
    requires !Dir(s, nr, k).present
    ensures var (s1, f) := Alloc(s);
      if f == 0 then s1 == s else
        var r := SetDir(s1, nr, k, UserEntry(f)).(held := s1.held - {f});
        Inv(r) && SamePtes(s, r) && SameViews(s, r) && AllKept(s, r) && Dir(r, nr, k).present &&
        r.task == s.task && r.held == s.held && r.reserved == s.reserved && r.high == s.high &&
        (forall g | g in s.held :: r.mem[g] == s.mem[g]) &&
        (forall i, d | 0 <= i < NR_TASKS && 0 <= d < 16 && (i, d) != (nr, k) :: Dir(r, i, d) == Dir(s, i, d))
  {
    var (s1, f) := Alloc(s);
    AllocStep(s);
    if f != 0 {
      assert !TaskPage(s1, f);
      InstallDirStep(s1, nr, k, f);
      var r := SetDir(s1, nr, k, UserEntry(f)).(held := s1.held - {f});
      KeptChain(s, s1, r);
      assert r.held == s.held;
    }
  }

  // ----- the child's entries --------------------------------------------------------------

  /** The child's entry is the parent's, write-protected; there is one exactly when the parent has one. */
  predicate Inherits(s: State, r: State, p: nat, c: nat, k: nat, e: nat)
    requires Shape(s) && Shape(r) && p < NR_TASKS && c < NR_TASKS && k < 16 && e < 1024
  {
    if Pte(s, p, k, e).present then Pte(r, c, k, e) == Protect(Pte(s, p, k, e)) else !Pte(r, c, k, e).present
  }

  /** Every page of the parent, low frames included, is inherited; of task 0 those below its limit,
      and nothing beyond the first 160 pages, where the kernel's tables go on. */
  ghost predicate InheritsParent(s: State, r: State, p: nat, c: nat, k: nat, n: nat)
    requires Shape(s) && Shape(r) && p < NR_TASKS && c < NR_TASKS && n <= 16 && s.task[p].Some?
  {
    forall d, e | k <= d < n && 0 <= e < 1024 :: InheritsAt(s, r, p, c, d, e)
  }

  predicate InheritsAt(s: State, r: State, p: nat, c: nat, d: nat, e: nat)
    requires Shape(s) && Shape(r) && p < NR_TASKS && c < NR_TASKS && d < 16 && e < 1024 && s.task[p].Some?
  {
    && (p > 0 || d * 1024 + e < s.task[p].value.limit ==> Inherits(s, r, p, c, d, e))
    && (p == 0 && d * 1024 + e >= 160 ==> !Pte(r, c, d, e).present)
  }

  lemma CopyEntryInherits(s: State, files: Files, p: nat, c: nat, k: nat, t: nat)
    requires CanCopy(s, p, c, k) && t < CopyLength(p) && !Pte(s, c, k, t).present
    ensures Inherits(s, CopyEntry(s, p, c, k, t), p, c, k, t)
  {
    var w := Pte(s, p, k, t);
    if !w.present {
    } else if w.frame < LOW {
      InstallLowStep(s, files, c, k, t, Protect(w));
    } else {
      ShareStep(s, p, c, k, t);
      SharesCommute(s, p, c, k, t);
    }
  }

  lemma CanCopyShape(s: State, p: nat, c: nat, k: nat)
    requires CanCopy(s, p, c, k)
    ensures Shape(s) && p < NR_TASKS && 0 < c < NR_TASKS && p != c && k < 16
  {
  }

  lemma SoftenedInherits(s: State, m: State, r: State, p: nat, c: nat, k: nat, e: nat)
    requires Shape(s) && Shape(m) && Shape(r) && p < NR_TASKS && c < NR_TASKS && k < 16 && e < 1024
    ensures Inherits(s, m, p, c, k, e) && Softened(m, r, c, k, e) ==> Inherits(s, r, p, c, k, e)
    ensures Softened(s, m, p, k, e) && Inherits(m, r, p, c, k, e) ==> Inherits(s, r, p, c, k, e)
    ensures Softened(s, m, p, k, e) ==> Pte(m, p, k, e).present == Pte(s, p, k, e).present
    ensures Softened(s, m, c, k, e) ==> Pte(m, c, k, e).present == Pte(s, c, k, e).present
  {
  }

  lemma {:induction false} CopyEntriesInherit(s: State, files: Files, p: nat, c: nat, k: nat, t: nat, n: nat, e: nat)
    requires CanCopy(s, p, c, k) && t <= e < n <= CopyLength(p)
    requires forall e | t <= e < n :: !Pte(s, c, k, e).present
    ensures Inherits(s, CopyEntries(s, p, c, k, t, n), p, c, k, e)
    decreases n - t
  {
    CanCopyShape(s, p, c, k);
    hide CopyEntry, CanCopy, Inv, Pte, Inherits, Softened, SameDirs, Clean, Shape;
    var m := CopyEntry(s, p, c, k, t);
    CopyEntryStep(s, files, p, c, k, t);
    CanCopyShape(m, p, c, k);
    forall i | t + 1 <= i < n ensures !Pte(m, c, k, i).present { assert Softened(s, m, c, k, i); SoftenedInherits(s, m, m, p, c, k, i); }
    var r := CopyEntries(m, p, c, k, t + 1, n);
    if e == t {
      CopyEntryInherits(s, files, p, c, k, t);
      CopyEntriesSteps(m, files, p, c, k, t + 1, n);
      assert Softened(m, r, c, k, e);
    } else {
      assert Softened(s, m, p, k, e);
      SoftenedInherits(s, m, m, p, c, k, e);
      CopyEntriesInherit(m, files, p, c, k, t + 1, n, e);
    }
    SoftenedInherits(s, m, r, p, c, k, e);
  }

  lemma SameInherits(s: State, m: State, r: State, p: nat, c: nat, k: nat, e: nat)
    requires Shape(s) && Shape(m) && Shape(r) && p < NR_TASKS && c < NR_TASKS && k < 16 && e < 1024
    requires Pte(m, p, k, e) == Pte(s, p, k, e) && Inherits(m, r, p, c, k, e)
    ensures Inherits(s, r, p, c, k, e)
  {
  }

  /** The entries of one table, copied into the table `m` made for them. */
  lemma TableInherits(s: State, m: State, r: State, files: Files, p: nat, c: nat, k: nat)
    requires Inv(s) && CanCopy(m, p, c, k) && SamePtes(s, m) && m.task == s.task && (forall e | 0 <= e < 1024 :: !Pte(m, c, k, e).present)
    requires Shape(r) && r == CopyEntries(m, p, c, k, 0, CopyLength(p))
    ensures InheritsParent(s, r, p, c, k, k + 1)
  {
    CanCopyShape(m, p, c, k);
    assert p == 0 ==> k == 0 && s.task[p].value.limit == 160;
    CopyEntriesSteps(m, files, p, c, k, 0, CopyLength(p));
    hide Inv, CanCopy, CopyEntries, Inherits, Pte, Softened, Clean, Shape;
    forall e | 0 <= e < 1024 ensures InheritsAt(s, r, p, c, k, e) {
      assert Pte(m, p, k, e) == Pte(s, p, k, e);
      if e < CopyLength(p) {
        CopyEntriesInherit(m, files, p, c, k, 0, CopyLength(p), e);
        SameInherits(s, m, r, p, c, k, e);
      } else {
        assert Softened(m, r, c, k, e);
        SoftenedInherits(m, m, r, p, c, k, e);
        SoftenedInherits(m, r, r, p, c, k, e);
      }
    }
  }

  lemma InheritChain(s: State, m: State, r: State, p: nat, c: nat, k: nat, n: nat)
    requires Shape(s) && Shape(m) && Shape(r) && p < NR_TASKS && 0 < c < NR_TASKS && p != c && k < n <= 16
    requires CopiedTables(s, m, p, c, k, k + 1) && CopiedTables(m, r, p, c, k + 1, n)
    requires s.task[p].Some? && m.task == s.task && InheritsParent(s, m, p, c, k, k + 1) && InheritsParent(m, r, p, c, k + 1, n)
    ensures InheritsParent(s, r, p, c, k, n)
  {
    hide Pte, Inherits, Softened;
    forall d, e | k <= d < n && 0 <= e < 1024 ensures InheritsAt(s, r, p, c, d, e) {
      if d == k {
        assert Softened(m, r, c, d, e) && InheritsAt(s, m, p, c, d, e);
        SoftenedInherits(m, m, r, p, c, d, e);
      } else {
        assert Softened(s, m, p, d, e) && InheritsAt(m, r, p, c, d, e);
      }
      SoftenedInherits(s, m, r, p, c, d, e);
      SoftenedInherits(m, r, r, p, c, d, e);
    }
  }

  lemma CopyDirSteps(s: State, files: Files, p: nat, c: nat, k: nat)
    requires Inv(s) && p < NR_TASKS && 0 < c < NR_TASKS && p != c && k < 16 && (p == 0 ==> k == 0)
    requires Alive(s, c) && k < Dirs(s.task[c].value.limit) && s.task[p].Some? && s.task[c].value.exe == s.task[p].value.exe
    requires !Dir(s, c, k).present
    ensures var (r, ok) := CopyDir(s, p, c, k);
      Inv(r) && CopiedTables(s, r, p, c, k, k + 1) && (Clean(s, files) ==> Clean(r, files)) &&
      (ok ==> SeesParent(s, r, p, c, k, k + 1) && InheritsParent(s, r, p, c, k, k + 1)) && (!ok ==> r == s)
  {
    if Dir(s, p, k).present {
      NewTableStep(s, c, k);
      var (s1, f) := Alloc(s);
      if f != 0 {
        var m := SetDir(s1, c, k, UserEntry(f)).(held := s1.held - {f});
        CleanKept(s, m, files);
        forall e | 0 <= e < 1024 ensures !Pte(m, c, k, e).present { assert Pte(m, c, k, e) == Pte(s, c, k, e); }
        assert Dir(m, p, k) == Dir(s, p, k);
        CopyEntriesSteps(m, files, p, c, k, 0, CopyLength(p));
        var r := CopyEntries(m, p, c, k, 0, CopyLength(p));
        CopyDirResult(s, m, r, p, c, k);
        TableInherits(s, m, r, files, p, c, k);
      }
    } else {
      forall e | 0 <= e < 1024 ensures Seen(s, c, k, e) == ParentSeen(s, p, k, e) {}
    }
  }

  lemma CopyDirResult(s: State, m: State, r: State, p: nat, c: nat, k: nat)
    requires Shape(s) && Shape(m) && Shape(r) && p < NR_TASKS && 0 < c < NR_TASKS && p != c && k < 16 && Kernel(s) && (p == 0 ==> k == 0)
    requires SamePtes(s, m) && SameViews(s, m) && m.task == s.task && m.held == s.held && m.reserved == s.reserved && m.high == s.high
    requires !Dir(s, c, k).present
    requires forall i, d | 0 <= i < NR_TASKS && 0 <= d < 16 && (i, d) != (c, k) :: Dir(m, i, d) == Dir(s, i, d)
    requires Copied(m, r, p, c, k, 0, CopyLength(p)) && SameDirs(m, r)
    ensures CopiedTables(s, r, p, c, k, k + 1) && SeesParent(s, r, p, c, k, k + 1)
  {
    forall e | 0 <= e < 1024 ensures Seen(r, c, k, e) == ParentSeen(s, p, k, e) {
      if e < CopyLength(p) {
        assert ParentSeen(m, p, k, e) == ParentSeen(s, p, k, e);
      } else {
        assert Softened(m, r, c, k, e);
        assert Pte(m, c, k, e) == Pte(s, c, k, e);
      }
    }
    forall i, d, e | 0 <= i < NR_TASKS && 0 <= d < 16 && 0 <= e < 1024 && !(i == c && k <= d < k + 1)
      ensures Softened(s, r, i, d, e) && (i > 0 ==> Seen(r, i, d, e) == Seen(s, i, d, e))
    {
      assert Softened(m, r, i, d, e);
    }
  }

  ghost predicate CanCopyTables(s: State, p: nat, c: nat, k: nat, n: nat) {
    && Inv(s) && p < NR_TASKS && 0 < c < NR_TASKS && p != c && k <= n <= 16 && (p == 0 ==> n <= 1)
    && Alive(s, c) && n <= Dirs(s.task[c].value.limit) && s.task[p].Some? && s.task[c].value.exe == s.task[p].value.exe
    && NoDirs(s, c, k, n)
  }

  lemma CopyReady(s: State, m: State, p: nat, c: nat, k: nat, n: nat)
    requires CanCopyTables(s, p, c, k, n) && k < n && Inv(m) && CopiedTables(s, m, p, c, k, k + 1)
    ensures CanCopyTables(m, p, c, k + 1, n)
  {
    forall d | k + 1 <= d < n ensures !Dir(m, c, d).present { assert Dir(m, c, d) == Dir(s, c, d); }
  }

  /** copy_page_tables: the child sees the parent's bytes, and nobody else sees a difference. */
  lemma {:induction false} CopyTablesSteps(s: State, files: Files, p: nat, c: nat, k: nat, n: nat)
    requires CanCopyTables(s, p, c, k, n)
    ensures var (r, ok) := CopyTables(s, p, c, k, n);
      Inv(r) && CopiedTables(s, r, p, c, k, n) && (Clean(s, files) ==> Clean(r, files)) &&
      (ok ==> SeesParent(s, r, p, c, k, n) && InheritsParent(s, r, p, c, k, n))
    decreases n - k
  {
    if k < n {
      CopyDirSteps(s, files, p, c, k);
      var (m, ok) := CopyDir(s, p, c, k);
      var (r, all) := CopyTables(s, p, c, k, n);
      if ok {
        CopyReady(s, m, p, c, k, n);
        CopyTablesSteps(m, files, p, c, k + 1, n);
        CopiedTablesChain(s, m, r, p, c, k, n, all);
        if all { InheritChain(s, m, r, p, c, k, n); }
      } else {
        WidenCopied(s, m, p, c, k, n);
      }
    } else {
      WidenCopied(s, s, p, c, k, n);
    }
  }

  lemma WidenCopied(s: State, r: State, p: nat, c: nat, k: nat, n: nat)
    requires Shape(s) && p < NR_TASKS && c < NR_TASKS && k <= n <= 16
    requires r == s
    ensures CopiedTables(s, r, p, c, k, n)
  {
  }

  lemma CopiedTablesChain(s: State, m: State, r: State, p: nat, c: nat, k: nat, n: nat, ok: bool)
    requires Shape(s) && Shape(m) && Shape(r) && p < NR_TASKS && 0 < c < NR_TASKS && p != c && k < n <= 16
    requires CopiedTables(s, m, p, c, k, k + 1) && CopiedTables(m, r, p, c, k + 1, n)
    requires SeesParent(s, m, p, c, k, k + 1) && (ok ==> SeesParent(m, r, p, c, k + 1, n))
    ensures CopiedTables(s, r, p, c, k, n) && (ok ==> SeesParent(s, r, p, c, k, n))
  {
    forall i, d, e | 0 <= i < NR_TASKS && 0 <= d < 16 && 0 <= e < 1024 && !(i == c && k <= d < n)
      ensures Softened(s, r, i, d, e) && (i > 0 ==> Seen(r, i, d, e) == Seen(s, i, d, e))
    {
      assert Softened(s, m, i, d, e) && Softened(m, r, i, d, e);
    }
    forall d, e | k <= d < n && 0 <= e < 1024 && ok ensures Seen(r, c, d, e) == ParentSeen(s, p, d, e) {
      if d == k {
        assert Softened(m, r, c, d, e);
      } else {
        assert Softened(s, m, p, d, e);
      }
    }
  }
}
