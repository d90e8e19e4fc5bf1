// Every single change the pager makes keeps the invariant, and what it does to the views.

module PageSteps {
  import opened Common
  import opened PageModel
  import opened PageInvariant

  ghost predicate SameDirs(s: State, r: State)
    requires Shape(s) && Shape(r)
  {
    forall i, d | 0 <= i < NR_TASKS && 0 <= d < 16 :: Dir(r, i, d) == Dir(s, i, d)
  }

  ghost predicate SamePtes(s: State, r: State)
    requires Shape(s) && Shape(r)
  {
    forall i, d, e | 0 <= i < NR_TASKS && 0 <= d < 16 && 0 <= e < 1024 :: Pte(r, i, d, e) == Pte(s, i, d, e)
  }

  ghost predicate SamePtesBut(s: State, r: State, nr: nat, k: nat, t: nat)
    requires Shape(s) && Shape(r)
  {
    forall i, d, e | 0 <= i < NR_TASKS && 0 <= d < 16 && 0 <= e < 1024 && (i, d, e) != (nr, k, t) ::
      Pte(r, i, d, e) == Pte(s, i, d, e)
  }

  // ----- tables are private, so an update shows only where it is made ---------------------

  /** Distinct page directories entries never share a table. */
  lemma DistinctTables(s: State, i: nat, d: nat, nr: nat, k: nat)
    requires Shape(s) && Exclusive(s) && Tables(s) && Kernel(s)
    requires i < NR_TASKS && d < 16 && 0 < nr < NR_TASKS && k < 16
    requires Dir(s, i, d).present && Dir(s, nr, k).present && Dir(s, i, d).frame == Dir(s, nr, k).frame
    ensures i == nr && d == k
  {
    var f := Dir(s, nr, k).frame;
    if i > 0 {
      assert Refers(s, DirRef(i, d), f) && Refers(s, DirRef(nr, k), f);
      assert Compatible(s, DirRef(i, d), DirRef(nr, k));
    }
  }

  lemma PteChange(s: State, nr: nat, k: nat, t: nat, w: Word)
    requires Shape(s) && Exclusive(s) && Tables(s) && Kernel(s)
    requires 0 < nr < NR_TASKS && k < 16 && t < 1024 && Dir(s, nr, k).present
    ensures var r := SetPte(s, nr, k, t, w);
      SameDirs(s, r) && SamePtesBut(s, r, nr, k, t) && Pte(r, nr, k, t) == w &&
      (forall f | 0 <= f < TOP && f != Dir(s, nr, k).frame :: r.mem[f] == s.mem[f])
  {
    var r := SetPte(s, nr, k, t, w);
    forall i, d, e | 0 <= i < NR_TASKS && 0 <= d < 16 && 0 <= e < 1024 && (i, d, e) != (nr, k, t)
      ensures Pte(r, i, d, e) == Pte(s, i, d, e)
    {
      assert Dir(r, i, d) == Dir(s, i, d);
      if Dir(s, i, d).present && Dir(s, i, d).frame == Dir(s, nr, k).frame {
        DistinctTables(s, i, d, nr, k);
      }
    }
  }

  /** Rewriting a frame that is no page table leaves all tables alone. */
  lemma FrameChange(s: State, f: nat, page: Page)
    requires Shape(s) && Tables(s) && Kernel(s) && LOW <= f < TOP
    requires forall i, d :: !Refers(s, DirRef(i, d), f)
    ensures var r := s.(mem := s.mem[f := page]); SameDirs(s, r) && SamePtes(s, r)
  {
    var r := s.(mem := s.mem[f := page]);
    forall i, d, e | 0 <= i < NR_TASKS && 0 <= d < 16 && 0 <= e < 1024
      ensures Pte(r, i, d, e) == Pte(s, i, d, e)
    {
      assert Dir(r, i, d) == Dir(s, i, d);
      assert !Refers(s, DirRef(i, d), f);
    }
  }

  lemma DirChange(s: State, nr: nat, k: nat, w: Word)
    requires Shape(s) && Tables(s) && Kernel(s)
    requires 0 < nr < NR_TASKS && k < 16
    ensures var r := SetDir(s, nr, k, w);
      (forall i, d | 0 <= i < NR_TASKS && 0 <= d < 16 && (i, d) != (nr, k) :: Dir(r, i, d) == Dir(s, i, d)) &&
      (forall i, d, e | 0 <= i < NR_TASKS && 0 <= d < 16 && 0 <= e < 1024 && (i, d) != (nr, k) :: Pte(r, i, d, e) == Pte(s, i, d, e)) &&
      Dir(r, nr, k) == w
  {
    var r := SetDir(s, nr, k, w);
    forall i, d | 0 <= i < NR_TASKS && 0 <= d < 16 && (i, d) != (nr, k)
      ensures Dir(r, i, d) == Dir(s, i, d)
      ensures forall e | 0 <= e < 1024 :: Pte(r, i, d, e) == Pte(s, i, d, e)
    {
      assert 16 * i + d != 16 * nr + k;
    }
  }

  /** Counts survive a step that touches the references to one frame only. */
  lemma KeepCounts(s: State, r: State, f: nat)
    requires Shape(s) && Shape(r) && Counts(s)
    requires r.reserved == s.reserved && r.high == s.high
    requires LOW <= f < TOP && f !in s.reserved && f < s.high && Count(r, f) == |Refs(r, f)|
    requires forall g | LOW <= g < TOP && g != f :: Count(r, g) == Count(s, g)
    requires forall g, q | LOW <= g < TOP && g != f :: Refers(s, q, g) <==> Refers(r, q, g)
    ensures Counts(r)
  {
    forall g | LOW <= g < TOP ensures Counted(r, g) {
      assert Counted(s, g);
      if g != f { SameRefs(s, r, g); }
    }
  }

  lemma KeepAllCounts(s: State, r: State)
    requires Shape(s) && Shape(r) && Counts(s)
    requires r.reserved == s.reserved && r.high == s.high && r.count == s.count
    requires forall g, q | LOW <= g < TOP :: Refers(s, q, g) <==> Refers(r, q, g)
    ensures Counts(r)
  {
    forall g | LOW <= g < TOP ensures Counted(r, g) {
      assert Counted(s, g);
      SameRefs(s, r, g);
    }
  }

  /** A frame that something refers to was made available by mem_init and is counted. */
  lemma ReferredIsCounted(s: State, r: Ref, f: nat)
    requires Shape(s) && Counts(s) && Refers(s, r, f) && LOW <= f < TOP
    ensures f !in s.reserved && f < s.high && Count(s, f) == |Refs(s, f)| > 0
  {
    assert Counted(s, f);
    InRefs(s, r, f);
  }

  // ----- steps that leave every table alone -----------------------------------------------

  lemma KeepExclusive(s: State, r: State)
    requires Shape(s) && Shape(r) && SameDirs(s, r) && SamePtes(s, r) && Exclusive(s)
    requires forall f, q | LOW <= f && f in r.held && f !in s.held :: !Refers(s, q, f)
    ensures Exclusive(r)
  {
    forall f, p, q | LOW <= f && Refers(r, p, f) && Refers(r, q, f) ensures Compatible(r, p, q) {
      if f in r.held && f !in s.held {
        assert !Refers(s, p, f) && !Refers(s, q, f);
      } else {
        assert Refers(s, p, f) && Refers(s, q, f);
        assert Compatible(s, p, q);
      }
    }
  }

  lemma KeepTables(s: State, r: State)
    requires Shape(s) && Shape(r) && SameDirs(s, r) && SamePtes(s, r)
    requires Tables(s) && Kernel(s) && r.task == s.task && r.high == s.high
    ensures Tables(r) && Kernel(r)
  {
    forall i, d | 0 < i < NR_TASKS && 0 <= d < 16 && Dir(r, i, d).present
      ensures LOW <= Dir(r, i, d).frame < r.high && Alive(r, i) && d < Dirs(r.task[i].value.limit)
    {
      assert Dir(s, i, d).present;
    }
    forall t | 0 <= t < 160 ensures Pte(r, 0, 0, t).frame < LOW { assert Pte(r, 0, 0, t) == Pte(s, 0, 0, t); }
    forall d | 0 <= d < 16 && Dir(r, 0, d).present ensures 0 < Dir(r, 0, d).frame < LOW {
      assert Dir(r, 0, d) == Dir(s, 0, d);
    }
  }

  /** Pages that look the same are as clean as before. */
  lemma KeepViews(s: State, r: State)
    requires Shape(s) && Shape(r) && SamePtes(s, r) && r.task == s.task
    requires forall i, d, e | 0 < i < NR_TASKS && 0 <= d < 16 && 0 <= e < 1024 && Pte(s, i, d, e).present ::
      Seen(r, i, d, e) == Seen(s, i, d, e)
    ensures SameViews(s, r) && AllKept(s, r)
  {
    forall i, d, e | 0 < i < NR_TASKS && 0 <= d < 16 && 0 <= e < 1024
      ensures Seen(r, i, d, e) == Seen(s, i, d, e) && Kept(s, r, i, d, e)
    {
    }
  }

  /** A frame no page-table entry refers to can change unseen. */
  lemma UnseenFrame(s: State, r: State, f: nat)
    requires Shape(s) && Shape(r) && SamePtes(s, r) && LOW <= f < TOP
    requires forall i, d, e :: !Refers(s, PteRef(i, d, e), f)
    requires forall g | 0 <= g < TOP && g != f :: r.mem[g] == s.mem[g]
    ensures forall i, d, e | 0 < i < NR_TASKS && 0 <= d < 16 && 0 <= e < 1024 && Pte(s, i, d, e).present ::
      Seen(r, i, d, e) == Seen(s, i, d, e)
  {
    forall i, d, e | 0 < i < NR_TASKS && 0 <= d < 16 && 0 <= e < 1024 && Pte(s, i, d, e).present
      ensures Seen(r, i, d, e) == Seen(s, i, d, e)
    {
      assert !Refers(s, PteRef(i, d, e), f);
    }
  }

  // ----- frames in the hands of the kernel ------------------------------------------------

  lemma AllocTables(s: State, r: State, f: nat)
    requires Shape(s) && LOW <= f < TOP && r == Claim(s, f)
    requires var m := s.(mem := s.mem[f := ZeroPage()]); SameDirs(s, m) && SamePtes(s, m)
    ensures SameDirs(s, r) && SamePtes(s, r)
  {
    var m := s.(mem := s.mem[f := ZeroPage()]);
    forall i, d | 0 <= i < NR_TASKS && 0 <= d < 16
      ensures Dir(r, i, d) == Dir(s, i, d)
      ensures forall e | 0 <= e < 1024 :: Pte(r, i, d, e) == Pte(s, i, d, e)
    {
      assert Dir(m, i, d) == Dir(s, i, d);
      assert forall e | 0 <= e < 1024 :: Pte(m, i, d, e) == Pte(s, i, d, e);
    }
  }

  lemma AllocCounts(s: State, r: State, f: nat)
    requires Shape(s) && LOW <= f < TOP && r == Claim(s, f) && Counts(s)
    requires SameDirs(s, r) && SamePtes(s, r)
    requires f !in s.reserved && forall q :: !Refers(s, q, f)
    ensures Counts(r)
  {
    assert Counted(s, f);
    forall q ensures Refers(r, q, f) <==> q == KernelRef { assert !Refers(s, q, f); }
    SoleRef(r, f, KernelRef);
    KeepCounts(s, r, f);
  }

  lemma AllocStep(s: State)
    requires Inv(s)
    ensures var (r, f) := Alloc(s);
      Inv(r) && SameDirs(s, r) && SamePtes(s, r) && SameViews(s, r) && AllKept(s, r) && r.task == s.task &&
      (f == 0 ==> r == s && forall i :: 0 <= i < PAGES ==> s.count[i] != 0) &&
      (f != 0 ==> LOW <= f < s.high && f !in s.held && r.held == s.held + {f} && r.mem[f] == ZeroPage())
  {
    var (r, f) := Alloc(s);
    if f != 0 {
      assert Counted(s, f) && Count(s, f) == 0;
      NoRefs(s, f);
      FrameChange(s, f, ZeroPage());
      AllocTables(s, r, f);
      KeepExclusive(s, r);
      KeepTables(s, r);
      UnseenFrame(s, r, f);
      KeepViews(s, r);
      AllocCounts(s, r, f);
    }
  }

  /** Only the kernel sees the contents of a frame it holds. */
  lemma FillHeldStep(s: State, f: nat, page: Page)
    requires Inv(s) && f in s.held
    ensures var r := s.(mem := s.mem[f := page]);
      Inv(r) && SameDirs(s, r) && SamePtes(s, r) && SameViews(s, r) && AllKept(s, r)
  {
    var r := s.(mem := s.mem[f := page]);
    HeldAlone(s, f);
    FrameChange(s, f, page);
    KeepExclusive(s, r);
    KeepTables(s, r);
    UnseenFrame(s, r, f);
    KeepViews(s, r);
    KeepAllCounts(s, r);
  }

  lemma HeldAlone(s: State, f: nat)
    requires Inv(s) && f in s.held
    ensures forall q :: Refers(s, q, f) <==> q == KernelRef
    ensures Refs(s, f) == {KernelRef} && Count(s, f) == 1 && f !in s.reserved && LOW <= f < s.high
  {
    assert Refers(s, KernelRef, f);
    forall q | Refers(s, q, f) ensures q == KernelRef { assert Compatible(s, KernelRef, q); }
    SoleRef(s, f, KernelRef);
    ReferredIsCounted(s, KernelRef, f);
  }

  predicate TaskPage(s: State, f: nat)
    requires Shape(s)
  {
    exists nr :: 0 < nr < NR_TASKS && s.task[nr].Some? && s.task[nr].value.page == f
  }

  /** free_page panics for a page beyond memory and for one that is free already, and otherwise takes one off
      the count of a paged frame and does nothing for a low one. */
  lemma FreePageMeaning(s: State, f: nat)
    requires Shape(s) && !s.panic
    ensures FreePage(s, f).panic <==> f >= 256 && (f >= s.high || Count(s, f) == 0)
    ensures !FreePage(s, f).panic ==>
      FreePage(s, f) == if f < 256 then s else s.(count := s.count[f - 256 := s.count[f - 256] - 1])
  {
  }

  lemma DropHeldStep(s: State, f: nat)
    requires Inv(s) && f in s.held && !TaskPage(s, f)
    ensures var r := FreeHeld(s, f);
      Inv(r) && SameDirs(s, r) && SamePtes(s, r) && SameViews(s, r) && AllKept(s, r) && r.held == s.held - {f} && r.task == s.task
  {
    var r := FreeHeld(s, f);
    HeldAlone(s, f);
    assert SameDirs(s, r) && SamePtes(s, r);
    KeepExclusive(s, r);
    KeepTables(s, r);
    KeepViews(s, r);
    forall q ensures !Refers(r, q, f) { assert Refers(s, q, f) <==> q == KernelRef; }
    NoRefs(r, f);
    KeepCounts(s, r, f);
  }

  // ----- page tables ---------------------------------------------------------------------

  /** Exclusive survives a step that touches the references to one frame only. */
  lemma ExclusiveBut(s: State, r: State, f: nat)
    requires Shape(s) && Shape(r) && Exclusive(s)
    requires forall g, q | LOW <= g && g != f && Refers(r, q, g) :: Refers(s, q, g)
    requires forall i, d, e | 0 < i < NR_TASKS && 0 <= d < 16 && 0 <= e < 1024 && Pte(r, i, d, e).present && Pte(r, i, d, e).frame != f ::
      Pte(r, i, d, e) == Pte(s, i, d, e)
    requires forall p, q | Refers(r, p, f) && Refers(r, q, f) :: Compatible(r, p, q)
    ensures Exclusive(r)
  {
    forall g, p, q | LOW <= g && Refers(r, p, g) && Refers(r, q, g) ensures Compatible(r, p, q) {
      if g != f {
        assert Refers(s, p, g) && Refers(s, q, g);
        assert Compatible(s, p, q);
        if p != q {
          assert Pte(r, p.nr, p.k, p.t) == Pte(s, p.nr, p.k, p.t);
          assert Pte(r, q.nr, q.k, q.t) == Pte(s, q.nr, q.k, q.t);
        }
      }
    }
  }

  /** How the tables look once the held frame f has become the table at (nr, k). */
  lemma InstallDirTables(s: State, nr: nat, k: nat, f: nat)
    requires Shape(s) && Tables(s) && Kernel(s) && LOW <= f < TOP && s.mem[f] == ZeroPage()
    requires 0 < nr < NR_TASKS && k < 16 && !Dir(s, nr, k).present
    ensures var r := SetDir(s, nr, k, UserEntry(f)).(held := s.held - {f});
      SamePtes(s, r) && Dir(r, nr, k) == UserEntry(f) &&
      (forall i, d | 0 <= i < NR_TASKS && 0 <= d < 16 && (i, d) != (nr, k) :: Dir(r, i, d) == Dir(s, i, d))
  {
    var m := SetDir(s, nr, k, UserEntry(f));
    var r := m.(held := s.held - {f});
    DirChange(s, nr, k, UserEntry(f));
    forall i, d | 0 <= i < NR_TASKS && 0 <= d < 16
      ensures Dir(r, i, d) == Dir(m, i, d)
      ensures forall e | 0 <= e < 1024 :: Pte(r, i, d, e) == Pte(s, i, d, e)
    {
      assert Dir(r, i, d) == Dir(m, i, d);
      if (i, d) == (nr, k) {
        assert forall e | 0 <= e < 1024 :: Pte(r, i, d, e) == ZERO;
      } else {
        assert forall e | 0 <= e < 1024 :: Pte(r, i, d, e) == Pte(m, i, d, e);
      }
    }
  }

  lemma InstallDirStep(s: State, nr: nat, k: nat, f: nat)
    requires Inv(s) && f in s.held && !TaskPage(s, f) && s.mem[f] == ZeroPage()
    requires 0 < nr < NR_TASKS && k < 16 && !Dir(s, nr, k).present
    requires Alive(s, nr) && k < Dirs(s.task[nr].value.limit)
    ensures var r := SetDir(s, nr, k, UserEntry(f)).(held := s.held - {f});
      Inv(r) && SamePtes(s, r) && SameViews(s, r) && AllKept(s, r) && Dir(r, nr, k) == UserEntry(f) &&
      (forall i, d | 0 <= i < NR_TASKS && 0 <= d < 16 && (i, d) != (nr, k) :: Dir(r, i, d) == Dir(s, i, d))
  {
    var r := SetDir(s, nr, k, UserEntry(f)).(held := s.held - {f});
    HeldAlone(s, f);
    InstallDirTables(s, nr, k, f);
    forall q, g | LOW <= g < TOP && g != f ensures Refers(s, q, g) <==> Refers(r, q, g) {}
    forall q ensures Refers(r, q, f) <==> q == DirRef(nr, k) {
      assert Refers(s, q, f) <==> q == KernelRef;
    }
    SoleRef(r, f, DirRef(nr, k));
    KeepCounts(s, r, f);
    ExclusiveBut(s, r, f);
    InstallDirKeeps(s, r, nr, k, f);
  }

  lemma InstallDirKeeps(s: State, r: State, nr: nat, k: nat, f: nat)
    requires Inv(s) && LOW <= f < s.high && 0 < nr < NR_TASKS && k < 16
    requires Alive(s, nr) && k < Dirs(s.task[nr].value.limit)
    requires !TaskPage(s, f)
    requires r == SetDir(s, nr, k, UserEntry(f)).(held := s.held - {f}) && SamePtes(s, r) && Dir(r, nr, k) == UserEntry(f)
    requires forall i, d | 0 <= i < NR_TASKS && 0 <= d < 16 && (i, d) != (nr, k) :: Dir(r, i, d) == Dir(s, i, d)
    ensures Tables(r) && Kernel(r) && SameViews(s, r) && AllKept(s, r) && TaskPages(r)
  {
    KernelKept(s, r);
    forall i, d | 0 < i < NR_TASKS && 0 <= d < 16 && Dir(r, i, d).present
      ensures LOW <= Dir(r, i, d).frame < r.high && Alive(r, i) && d < Dirs(r.task[i].value.limit)
    {
      if (i, d) != (nr, k) { assert Dir(r, i, d) == Dir(s, i, d); }
    }
    KeepViews(s, r);
  }

  lemma KernelKept(s: State, r: State)
    requires Shape(s) && Shape(r) && Kernel(s) && r.task[0] == s.task[0]
    requires forall d | 0 <= d < 16 :: Dir(r, 0, d) == Dir(s, 0, d)
    requires forall e | 0 <= e < 1024 :: Pte(r, 0, 0, e) == Pte(s, 0, 0, e)
    ensures Kernel(r)
  {
    forall t | 0 <= t < 160 ensures Pte(r, 0, 0, t).frame < LOW { assert Pte(r, 0, 0, t) == Pte(s, 0, 0, t); }
    forall d | 0 <= d < 16 && Dir(r, 0, d).present ensures 0 < Dir(r, 0, d).frame < LOW {
      assert Dir(r, 0, d) == Dir(s, 0, d);
    }
  }

  lemma DropDirTables(s: State, nr: nat, k: nat)
    requires Shape(s) && Tables(s) && Kernel(s) && 0 < nr < NR_TASKS && k < 16
    ensures var m := FreePage(s, Dir(s, nr, k).frame); var r := SetDir(m, nr, k, ZERO);
      !Dir(r, nr, k).present && (forall e | 0 <= e < 1024 :: Pte(r, nr, k, e) == ZERO) && r.mem[1..] == s.mem[1..] &&
      (forall i, d | 0 <= i < NR_TASKS && 0 <= d < 16 && (i, d) != (nr, k) :: Dir(r, i, d) == Dir(s, i, d)) &&
      (forall i, d, e | 0 <= i < NR_TASKS && 0 <= d < 16 && 0 <= e < 1024 && (i, d) != (nr, k) :: Pte(r, i, d, e) == Pte(s, i, d, e))
  {
    var r := SetDir(FreePage(s, Dir(s, nr, k).frame), nr, k, ZERO);
    var m := SetDir(s, nr, k, ZERO);
    DirChange(s, nr, k, ZERO);
    assert m.mem == r.mem;
    forall i, d | 0 <= i < NR_TASKS && 0 <= d < 16 && (i, d) != (nr, k)
      ensures Dir(r, i, d) == Dir(s, i, d)
      ensures forall e | 0 <= e < 1024 :: Pte(r, i, d, e) == Pte(s, i, d, e)
    {
      assert Dir(m, i, d) == Dir(s, i, d) && Dir(r, i, d) == Dir(m, i, d);
      assert forall e | 0 <= e < 1024 :: Pte(m, i, d, e) == Pte(s, i, d, e);
    }
    assert Dir(r, nr, k) == ZERO;
  }

  lemma DropDirStep(s: State, nr: nat, k: nat)
    requires Inv(s)
    requires 0 < nr < NR_TASKS && k < 16 && Dir(s, nr, k).present
    requires forall e | 0 <= e < 1024 :: !Pte(s, nr, k, e).present
    ensures var r := SetDir(FreePage(s, Dir(s, nr, k).frame), nr, k, ZERO);
      Inv(r) && SameViews(s, r) && AllKept(s, r) && !Dir(r, nr, k).present && r.held == s.held && r.task == s.task &&
      (forall i, d | 0 <= i < NR_TASKS && 0 <= d < 16 && (i, d) != (nr, k) :: Dir(r, i, d) == Dir(s, i, d)) &&
      (forall i, d, e | 0 <= i < NR_TASKS && 0 <= d < 16 && 0 <= e < 1024 && (i, d) != (nr, k) :: Pte(r, i, d, e) == Pte(s, i, d, e))
  {
    var f := Dir(s, nr, k).frame;
    var r := SetDir(FreePage(s, f), nr, k, ZERO);
    DirAlone(s, nr, k);
    DropDirTables(s, nr, k);
    forall q, g | LOW <= g < TOP && g != f ensures Refers(s, q, g) <==> Refers(r, q, g) {}
    forall q ensures !Refers(r, q, f) { assert Refers(s, q, f) ==> q == DirRef(nr, k); }
    NoRefs(r, f);
    KeepCounts(s, r, f);
    ExclusiveBut(s, r, f);
    DropDirKeeps(s, r, nr, k);
  }

  lemma DirAlone(s: State, nr: nat, k: nat)
    requires Inv(s) && 0 < nr < NR_TASKS && k < 16 && Dir(s, nr, k).present
    ensures var f := Dir(s, nr, k).frame;
      LOW <= f < s.high && f !in s.reserved && Count(s, f) == 1 && forall q | Refers(s, q, f) :: q == DirRef(nr, k)
  {
    var f := Dir(s, nr, k).frame;
    assert Refers(s, DirRef(nr, k), f);
    forall q | Refers(s, q, f) ensures q == DirRef(nr, k) { assert Compatible(s, DirRef(nr, k), q); }
    ReferredIsCounted(s, DirRef(nr, k), f);
    SoleRef(s, f, DirRef(nr, k));
  }

  lemma DropDirKeeps(s: State, r: State, nr: nat, k: nat)
    requires Inv(s) && Shape(r) && 0 < nr < NR_TASKS && k < 16
    requires r.task == s.task && r.held == s.held && r.high == s.high && !Dir(r, nr, k).present && r.mem[1..] == s.mem[1..]
    requires forall e | 0 <= e < 1024 :: !Pte(s, nr, k, e).present && Pte(r, nr, k, e) == ZERO
    requires forall i, d | 0 <= i < NR_TASKS && 0 <= d < 16 && (i, d) != (nr, k) :: Dir(r, i, d) == Dir(s, i, d)
    requires forall i, d, e | 0 <= i < NR_TASKS && 0 <= d < 16 && 0 <= e < 1024 && (i, d) != (nr, k) :: Pte(r, i, d, e) == Pte(s, i, d, e)
    ensures Tables(r) && Kernel(r) && SameViews(s, r) && AllKept(s, r) && TaskPages(r)
  {
    KernelKept(s, r);
    forall i, d | 0 < i < NR_TASKS && 0 <= d < 16 && Dir(r, i, d).present
      ensures LOW <= Dir(r, i, d).frame < r.high && Alive(r, i) && d < Dirs(r.task[i].value.limit)
    {
      assert (i, d) != (nr, k) && Dir(r, i, d) == Dir(s, i, d);
    }
    SameFrames(s, r);
    forall i, d, e | 0 < i < NR_TASKS && 0 <= d < 16 && 0 <= e < 1024
      ensures Seen(r, i, d, e) == Seen(s, i, d, e)
      ensures Kept(s, r, i, d, e)
    {
      if (i, d) == (nr, k) {
        assert !Pte(s, i, d, e).present && Pte(r, i, d, e) == ZERO;
      } else {
        assert Pte(r, i, d, e) == Pte(s, i, d, e);
      }
    }
  }

  lemma SameFrames(s: State, r: State)
    requires Shape(s) && Shape(r) && r.mem[1..] == s.mem[1..]
    ensures forall f | 0 < f < TOP :: r.mem[f] == s.mem[f]
  {
    forall f | 0 < f < TOP ensures r.mem[f] == s.mem[f] {
      assert r.mem[1..][f - 1] == r.mem[f] && s.mem[1..][f - 1] == s.mem[f];
    }
  }
}
