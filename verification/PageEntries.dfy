// The steps that change one page-table entry: installing, dropping, sharing, un-protecting
// and copying a page, and the user's own write to a page.

module PageEntries {
  import opened Common
  import opened PageModel
  import opened PageInvariant
  import opened PageSteps

  /** Only the entry (nr, k, t) of the tables changed, and of memory only the table it is in. */
  ghost predicate OneEntry(s: State, r: State, nr: nat, k: nat, t: nat)
    requires Shape(s) && Shape(r) && nr < NR_TASKS && k < 16
  {
    && SameDirs(s, r) && SamePtesBut(s, r, nr, k, t)
    && r.task == s.task && r.high == s.high && r.reserved == s.reserved
    && (forall f | 0 <= f < TOP && f != Dir(s, nr, k).frame :: r.mem[f] == s.mem[f])
  }

  lemma OneEntryByPteChange(s: State, r: State, nr: nat, k: nat, t: nat, w: Word)
    requires Inv(s) && Shape(r)
    requires 0 < nr < NR_TASKS && k < 16 && t < 1024 && Dir(s, nr, k).present
    requires r.mem == SetPte(s, nr, k, t, w).mem
    requires r.task == s.task && r.high == s.high && r.reserved == s.reserved
    ensures OneEntry(s, r, nr, k, t) && Pte(r, nr, k, t) == w
  {
    PteChange(s, nr, k, t, w);
    var m := SetPte(s, nr, k, t, w);
    forall i, d | 0 <= i < NR_TASKS && 0 <= d < 16
      ensures Dir(r, i, d) == Dir(m, i, d)
      ensures forall e | 0 <= e < 1024 :: Pte(r, i, d, e) == Pte(m, i, d, e)
    {}
  }

  lemma OneEntryKeeps(s: State, r: State, nr: nat, k: nat, t: nat)
    requires Inv(s) && Shape(r)
    requires 0 < nr < NR_TASKS && k < 16 && t < 1024 && Dir(s, nr, k).present
    requires OneEntry(s, r, nr, k, t)
    requires var w := Pte(r, nr, k, t); w.present ==> w.frame < s.high && (w.rw ==> LOW <= w.frame)
    ensures Tables(r) && Kernel(r) && SameBut(s, r, nr, k, t) && KeptBut(s, r, nr, k, t) && KeptBut(s, r, nr, k, t)
  {
    KernelKept(s, r);
    OneEntrySeen(s, r, nr, k, t);
    forall i, d | 0 < i < NR_TASKS && 0 <= d < 16 && Dir(r, i, d).present
      ensures LOW <= Dir(r, i, d).frame < r.high && Alive(r, i) && d < Dirs(r.task[i].value.limit)
    {
      assert Dir(r, i, d) == Dir(s, i, d);
    }
    forall i, d, e | 0 < i < NR_TASKS && 0 <= d < 16 && 0 <= e < 1024 && Pte(r, i, d, e).present
      ensures Pte(r, i, d, e).frame < r.high && (Pte(r, i, d, e).rw ==> LOW <= Pte(r, i, d, e).frame)
    {
      if (i, d, e) != (nr, k, t) { assert Pte(r, i, d, e) == Pte(s, i, d, e); }
    }
    forall i, d, e | 0 < i < NR_TASKS && 0 <= d < 16 && 0 <= e < 1024 && (i, d, e) != (nr, k, t)
      ensures Kept(s, r, i, d, e)
    {
      assert Pte(r, i, d, e) == Pte(s, i, d, e);
      assert Seen(r, i, d, e) == Seen(s, i, d, e);
    }
  }

  lemma OneEntrySeen(s: State, r: State, nr: nat, k: nat, t: nat)
    requires Inv(s) && Shape(r)
    requires 0 < nr < NR_TASKS && k < 16 && t < 1024 && Dir(s, nr, k).present
    requires OneEntry(s, r, nr, k, t)
    ensures SameBut(s, r, nr, k, t)
    ensures forall f, q | LOW <= f < TOP && Refers(s, q, f) && !q.DirRef? :: r.mem[f] == s.mem[f]
  {
    var table := Dir(s, nr, k).frame;
    DirAlone(s, nr, k);
    forall i, d, e | 0 < i < NR_TASKS && 0 <= d < 16 && 0 <= e < 1024 && (i, d, e) != (nr, k, t)
      ensures Seen(r, i, d, e) == Seen(s, i, d, e)
    {
      assert Pte(r, i, d, e) == Pte(s, i, d, e);
      assert !Refers(s, PteRef(i, d, e), table);
    }
  }

  // ----- the kernel maps a page it holds --------------------------------------------------

  lemma InstallPteStep(s: State, nr: nat, k: nat, t: nat, f: nat)
    requires Inv(s) && f in s.held && !TaskPage(s, f)
    requires 0 < nr < NR_TASKS && k < 16 && t < 1024 && Dir(s, nr, k).present && !Pte(s, nr, k, t).present
    ensures var r := SetPte(s, nr, k, t, UserEntry(f)).(held := s.held - {f});
      Inv(r) && OneEntry(s, r, nr, k, t) && SameBut(s, r, nr, k, t) && KeptBut(s, r, nr, k, t) &&
      Pte(r, nr, k, t) == UserEntry(f) && Seen(r, nr, k, t) == Some(s.mem[f]) && r.mem[f] == s.mem[f]
  {
    var r := SetPte(s, nr, k, t, UserEntry(f)).(held := s.held - {f});
    OneEntryByPteChange(s, r, nr, k, t, UserEntry(f));
    OneEntrySeen(s, r, nr, k, t);
    HeldAlone(s, f);
    assert Refers(s, KernelRef, f);
    OneEntryKeeps(s, r, nr, k, t);
    InstallPteRefs(s, r, nr, k, t, f);
  }

  lemma InstallPteRefs(s: State, r: State, nr: nat, k: nat, t: nat, f: nat)
    requires Inv(s) && f in s.held && Shape(r)
    requires 0 < nr < NR_TASKS && k < 16 && t < 1024 && !Pte(s, nr, k, t).present
    requires OneEntry(s, r, nr, k, t) && Pte(r, nr, k, t) == UserEntry(f) && r.held == s.held - {f} && r.count == s.count
    ensures Counts(r) && Exclusive(r)
  {
    HeldAlone(s, f);
    forall q, g | LOW <= g < TOP && g != f ensures Refers(s, q, g) <==> Refers(r, q, g) {}
    forall q ensures Refers(r, q, f) <==> q == PteRef(nr, k, t) {
      assert Refers(s, q, f) <==> q == KernelRef;
    }
    SoleRef(r, f, PteRef(nr, k, t));
    KeepCounts(s, r, f);
    ExclusiveBut(s, r, f);
  }

  // ----- an entry is cleared --------------------------------------------------------------

  lemma DropPteStep(s: State, nr: nat, k: nat, t: nat)
    requires Inv(s)
    requires 0 < nr < NR_TASKS && k < 16 && t < 1024 && Dir(s, nr, k).present
    ensures var r := FreeEntry(s, nr, k, t);
      Inv(r) && OneEntry(s, r, nr, k, t) && SameBut(s, r, nr, k, t) && KeptBut(s, r, nr, k, t) && Pte(r, nr, k, t) == ZERO && r.held == s.held
  {
    var w := Pte(s, nr, k, t);
    var r := FreeEntry(s, nr, k, t);
    if w.present && LOW <= w.frame {
      ReferredIsCounted(s, PteRef(nr, k, t), w.frame);
    }
    OneEntryByPteChange(s, r, nr, k, t, ZERO);
    OneEntryKeeps(s, r, nr, k, t);
    DropPteRefs(s, r, nr, k, t);
  }

  lemma DropPteCounts(s: State, r: State, nr: nat, k: nat, t: nat)
    requires Inv(s) && Shape(r)
    requires 0 < nr < NR_TASKS && k < 16 && t < 1024 && Dir(s, nr, k).present
    requires r.high == s.high && r.reserved == s.reserved && Pte(r, nr, k, t) == ZERO
    requires r.count == if Pte(s, nr, k, t).present then FreePage(s, Pte(s, nr, k, t).frame).count else s.count
    requires forall q, g | LOW <= g < TOP && (q, g) != (PteRef(nr, k, t), Pte(s, nr, k, t).frame) :: Refers(s, q, g) <==> Refers(r, q, g)
    ensures Counts(r)
  {
    hide Exclusive, Kernel, TaskPages, Refs, Counted;
    var w := Pte(s, nr, k, t);
    var q0 := PteRef(nr, k, t);
    if w.present && LOW <= w.frame {
      ReferredIsCounted(s, q0, w.frame);
      OneMoreRef(r, s, w.frame, q0);
      KeepCounts(s, r, w.frame);
    } else {
      assert forall g | LOW <= g < TOP :: !Refers(s, q0, g);
      KeepAllCounts(s, r);
    }
  }

  lemma DropPteRefs(s: State, r: State, nr: nat, k: nat, t: nat)
    requires Inv(s) && Shape(r)
    requires 0 < nr < NR_TASKS && k < 16 && t < 1024 && Dir(s, nr, k).present
    requires OneEntry(s, r, nr, k, t) && Pte(r, nr, k, t) == ZERO && r.held == s.held
    requires r.count == if Pte(s, nr, k, t).present then FreePage(s, Pte(s, nr, k, t).frame).count else s.count
    ensures Counts(r) && Exclusive(r)
  {
    hide Tables, Kernel, TaskPages, Counts;
    forall q, g | LOW <= g < TOP && (q, g) != (PteRef(nr, k, t), Pte(s, nr, k, t).frame)
      ensures Refers(s, q, g) <==> Refers(r, q, g)
    {
    }
    DropPteCounts(s, r, nr, k, t);
    forall f, p, q | LOW <= f && Refers(r, p, f) && Refers(r, q, f) ensures Compatible(r, p, q) {
      assert Refers(s, p, f) && Refers(s, q, f);
      assert Compatible(s, p, q);
    }
  }

  // ----- a page is shared -----------------------------------------------------------------

  /** The entry (c, k, t) becomes a read-only copy of (p, k, t), which is write-protected too. */
  lemma ShareStep(s: State, p: nat, c: nat, k: nat, t: nat)
    requires Inv(s)
    requires 0 < p < NR_TASKS && 0 < c < NR_TASKS && p != c && k < 16 && t < 1024
    requires Pte(s, p, k, t).present && LOW <= Pte(s, p, k, t).frame
    requires Dir(s, c, k).present && !Pte(s, c, k, t).present
    requires s.task[c].value.exe == s.task[p].value.exe
    ensures var w := Pte(s, p, k, t);
      var r := Bump(SetPte(SetPte(s, p, k, t, Protect(w)), c, k, t, Protect(w)), w.frame);
      Inv(r) && SameBut(s, r, c, k, t) && KeptBut(s, r, c, k, t) && Seen(r, c, k, t) == Seen(s, p, k, t) && SharedEntry(s, r, p, c, k, t) &&
      Pte(r, c, k, t) == Protect(w)
  {
    var w := Pte(s, p, k, t);
    var m := SetPte(s, p, k, t, Protect(w));
    ProtectStep(s, p, k, t);
    AddShareStep(m, p, c, k, t);
    var r := Bump(SetPte(m, c, k, t, Protect(w)), w.frame);
    forall i, d, e | 0 < i < NR_TASKS && 0 <= d < 16 && 0 <= e < 1024 && (i, d, e) != (c, k, t)
      ensures Seen(r, i, d, e) == Seen(s, i, d, e) && Kept(s, r, i, d, e)
    {
      assert Seen(r, i, d, e) == Seen(m, i, d, e) && Kept(m, r, i, d, e) && Kept(s, m, i, d, e);
    }
    assert Seen(m, p, k, t) == Seen(s, p, k, t);
  }

  /** One more read-only entry for the frame of the read-only entry (p, k, t). */
  lemma AddShareStep(m: State, p: nat, c: nat, k: nat, t: nat)
    requires Inv(m)
    requires 0 < p < NR_TASKS && 0 < c < NR_TASKS && p != c && k < 16 && t < 1024
    requires Pte(m, p, k, t).present && LOW <= Pte(m, p, k, t).frame && !Pte(m, p, k, t).rw
    requires Dir(m, c, k).present && !Pte(m, c, k, t).present
    requires m.task[c].value.exe == m.task[p].value.exe
    ensures var w := Pte(m, p, k, t);
      var r := Bump(SetPte(m, c, k, t, w), w.frame);
      Inv(r) && SameBut(m, r, c, k, t) && KeptBut(m, r, c, k, t) && Seen(r, c, k, t) == Seen(m, p, k, t) && OneEntry(m, r, c, k, t) && Pte(r, c, k, t) == w
  {
    var w := Pte(m, p, k, t);
    var r := Bump(SetPte(m, c, k, t, w), w.frame);
    OneEntryByPteChange(m, r, c, k, t, w);
    OneEntrySeen(m, r, c, k, t);
    ShareSeen(m, r, p, c, k, t);
    OneEntryKeeps(m, r, c, k, t);
    ShareCounts(m, r, p, c, k, t);
    ShareExclusive(m, r, p, c, k, t);
  }

  /** Only (c, k, t) is new, and other entries differ at most in their write bit. */
  ghost predicate SharedEntry(s: State, r: State, p: nat, c: nat, k: nat, t: nat)
    requires Shape(s) && Shape(r)
  {
    && SameDirs(s, r) && r.task == s.task && r.held == s.held && r.reserved == s.reserved && r.high == s.high
    && (forall i, d, e | 0 <= i < NR_TASKS && 0 <= d < 16 && 0 <= e < 1024 && (i, d, e) != (c, k, t) ::
         Pte(r, i, d, e) == Pte(s, i, d, e) || Pte(r, i, d, e) == Protect(Pte(s, i, d, e)))
  }

  lemma ProtectStep(s: State, p: nat, k: nat, t: nat)
    requires Inv(s)
    requires 0 < p < NR_TASKS && k < 16 && t < 1024 && Pte(s, p, k, t).present && LOW <= Pte(s, p, k, t).frame
    ensures var w := Pte(s, p, k, t); var r := SetPte(s, p, k, t, Protect(w));
      Inv(r) && SameViews(s, r) && AllKept(s, r) && OneEntry(s, r, p, k, t) && Pte(r, p, k, t) == Protect(w)
  {
    var w := Pte(s, p, k, t);
    var r := SetPte(s, p, k, t, Protect(w));
    OneEntryByPteChange(s, r, p, k, t, Protect(w));
    OneEntrySeen(s, r, p, k, t);
    assert Refers(s, PteRef(p, k, t), w.frame);
    OneEntryKeeps(s, r, p, k, t);
    assert Seen(r, p, k, t) == Seen(s, p, k, t);
    SameReferences(s, r, p, k, t);
    forall f, a, b | LOW <= f && Refers(r, a, f) && Refers(r, b, f) ensures Compatible(r, a, b) {
      assert Refers(s, a, f) && Refers(s, b, f);
      assert Compatible(s, a, b);
    }
  }

  lemma SameReferences(s: State, r: State, p: nat, k: nat, t: nat)
    requires Shape(s) && Shape(r) && p < NR_TASKS && k < 16 && t < 1024 && OneEntry(s, r, p, k, t)
    requires Pte(r, p, k, t).frame == Pte(s, p, k, t).frame && Pte(r, p, k, t).present == Pte(s, p, k, t).present
    requires r.held == s.held && r.count == s.count && Counts(s)
    ensures forall q, f :: Refers(s, q, f) <==> Refers(r, q, f)
    ensures Counts(r)
  {
    forall q, f ensures Refers(s, q, f) <==> Refers(r, q, f) {
      if q != PteRef(p, k, t) {}
    }
    KeepAllCounts(s, r);
  }

  lemma ShareSeen(m: State, r: State, p: nat, c: nat, k: nat, t: nat)
    requires Inv(m) && Shape(r) && 0 < p < NR_TASKS && 0 < c < NR_TASKS && k < 16 && t < 1024
    requires Pte(m, p, k, t).present && Pte(r, c, k, t) == Pte(m, p, k, t) && LOW <= Pte(m, p, k, t).frame
    requires r.task == m.task && m.task[c].Some? && m.task[p].Some? && m.task[c].value.exe == m.task[p].value.exe
    requires forall f, q | LOW <= f < TOP && Refers(m, q, f) && !q.DirRef? :: r.mem[f] == m.mem[f]
    ensures Seen(r, c, k, t) == Seen(m, p, k, t)
  {
    assert Refers(m, PteRef(p, k, t), Pte(m, p, k, t).frame);
    assert Dir(m, p, k).present;
  }

  lemma ShareCounts(m: State, r: State, p: nat, c: nat, k: nat, t: nat)
    requires Inv(m) && Shape(r) && 0 < p < NR_TASKS && 0 < c < NR_TASKS && p != c && k < 16 && t < 1024
    requires Pte(m, p, k, t).present && LOW <= Pte(m, p, k, t).frame < m.high && !Pte(m, c, k, t).present
    requires OneEntry(m, r, c, k, t) && Pte(r, c, k, t) == Pte(m, p, k, t) && r.held == m.held
    requires r.count == Bump(m, Pte(m, p, k, t).frame).count
    ensures Counts(r)
  {
    var f := Pte(m, p, k, t).frame;
    CountBound(m, f);
    ReferredIsCounted(m, PteRef(p, k, t), f);
    BumpCount(m, r, f);
    ShareReferences(m, r, c, k, t);
    OneMoreRef(m, r, f, PteRef(c, k, t));
    KeepCounts(m, r, f);
  }

  lemma BumpCount(m: State, r: State, f: nat)
    requires Shape(m) && Shape(r) && LOW <= f < TOP && r.count == Bump(m, f).count && Count(m, f) <= USED
    ensures Count(r, f) == Count(m, f) + 1
    ensures forall g | LOW <= g < TOP && g != f :: Count(r, g) == Count(m, g)
  {
    assert Count(m, f) == m.count[f - LOW];
    assert (Count(m, f) + 1) % 256 == Count(m, f) + 1;
  }

  lemma ShareReferences(m: State, r: State, c: nat, k: nat, t: nat)
    requires Shape(m) && Shape(r) && 0 < c < NR_TASKS && k < 16 && t < 1024 && OneEntry(m, r, c, k, t)
    requires !Pte(m, c, k, t).present && Pte(r, c, k, t).present && r.held == m.held
    ensures forall q, g :: Refers(r, q, g) <==> Refers(m, q, g) || (q == PteRef(c, k, t) && g == Pte(r, c, k, t).frame)
    ensures forall g :: !Refers(m, PteRef(c, k, t), g)
  {
  }

  lemma ShareExclusive(m: State, r: State, p: nat, c: nat, k: nat, t: nat)
    requires Inv(m) && Shape(r) && 0 < p < NR_TASKS && 0 < c < NR_TASKS && p != c && k < 16 && t < 1024
    requires Pte(m, p, k, t).present && LOW <= Pte(m, p, k, t).frame && !Pte(m, p, k, t).rw && !Pte(m, c, k, t).present
    requires OneEntry(m, r, c, k, t) && Pte(r, c, k, t) == Pte(m, p, k, t) && r.held == m.held
    ensures Exclusive(r)
  {
    var f := Pte(m, p, k, t).frame;
    var q0 := PteRef(c, k, t);
    var p0 := PteRef(p, k, t);
    forall q, g | LOW <= g && (q, g) != (q0, f) ensures Refers(m, q, g) <==> Refers(r, q, g) {}
    forall a | Refers(r, a, f) ensures a.PteRef? && a.k == k && a.t == t && 0 < a.nr < NR_TASKS && !Pte(r, a.nr, k, t).rw {
      if a != q0 {
        assert Refers(m, a, f) && Refers(m, p0, f);
        assert Compatible(m, a, p0);
      }
    }
    ExclusiveBut(m, r, f);
  }

  // ----- writing --------------------------------------------------------------------------

  /** un_wp_page when nobody else uses the page. */
  lemma UnprotectStep(s: State, nr: nat, k: nat, t: nat)
    requires Inv(s)
    requires 0 < nr < NR_TASKS && k < 16 && t < 1024
    requires var w := Pte(s, nr, k, t); w.present && LOW <= w.frame < TOP && Count(s, w.frame) == 1
    ensures var w := Pte(s, nr, k, t); var r := SetPte(s, nr, k, t, Unprotect(w));
      Inv(r) && SameViews(s, r) && AllKept(s, r) && OneEntry(s, r, nr, k, t) && Pte(r, nr, k, t) == Unprotect(w)
  {
    var w := Pte(s, nr, k, t);
    var q0 := PteRef(nr, k, t);
    var r := SetPte(s, nr, k, t, Unprotect(w));
    ReferredIsCounted(s, q0, w.frame);
    OneEntryByPteChange(s, r, nr, k, t, Unprotect(w));
    OneEntrySeen(s, r, nr, k, t);
    assert Refers(s, q0, w.frame);
    OneEntryKeeps(s, r, nr, k, t);
    assert Seen(r, nr, k, t) == Seen(s, nr, k, t);
    SameReferences(s, r, nr, k, t);
    OnlyRef(s, w.frame, q0);
    ExclusiveBut(s, r, w.frame);
  }

  lemma OnlyRef(s: State, f: nat, r: Ref)
    requires Shape(s) && Refers(s, r, f) && |Refs(s, f)| == 1
    ensures forall q | Refers(s, q, f) :: q == r
  {
    InRefs(s, r, f);
    var rest := Refs(s, f) - {r};
    assert Refs(s, f) == rest + {r};
    assert |rest| == 0;
    forall q | Refers(s, q, f) ensures q == r {
      InRefs(s, q, f);
      assert q !in rest;
    }
  }

  /** A writable page has no other user. */
  lemma WritableAlone(s: State, nr: nat, k: nat, t: nat)
    requires Inv(s)
    requires 0 < nr < NR_TASKS && k < 16 && t < 1024 && Pte(s, nr, k, t).present && Pte(s, nr, k, t).rw
    ensures var f := Pte(s, nr, k, t).frame;
      LOW <= f < s.high && Count(s, f) == 1 && forall q | Refers(s, q, f) :: q == PteRef(nr, k, t)
  {
    var f := Pte(s, nr, k, t).frame;
    var q0 := PteRef(nr, k, t);
    assert Refers(s, q0, f);
    forall q | Refers(s, q, f) ensures q == q0 { assert Compatible(s, q0, q); }
    ReferredIsCounted(s, q0, f);
    SoleRef(s, f, q0);
  }

  /** A write changes the writer's page and nothing else anybody sees. */
  lemma StoreStep(s: State, nr: nat, k: nat, t: nat, i: nat, v: Word)
    requires Inv(s) && i < 1024
    requires 0 < nr < NR_TASKS && k < 16 && t < 1024 && Pte(s, nr, k, t).present && Pte(s, nr, k, t).rw
    ensures Pte(s, nr, k, t).frame < TOP
    ensures var f := Pte(s, nr, k, t).frame; var r := Store(s, nr, k, t, i, v);
      Inv(r) && SameBut(s, r, nr, k, t) && KeptBut(s, r, nr, k, t) && Seen(r, nr, k, t) == Some(s.mem[f][i := v]) &&
      Pte(r, nr, k, t).dirty && r.task == s.task
  {
    var w := Pte(s, nr, k, t);
    WritableAlone(s, nr, k, t);
    var d := SetPte(s, nr, k, t, w.(dirty := true));
    MarkDirtyStep(s, nr, k, t);
    WritableAlone(d, nr, k, t);
    var r := d.(mem := d.mem[w.frame := s.mem[w.frame][i := v]]);
    StoreCommutes(s, d, nr, k, t, i, v);
    forall a, b ensures !Refers(d, DirRef(a, b), w.frame) {}
    FrameChange(d, w.frame, s.mem[w.frame][i := v]);
    StoreSeen(d, r, nr, k, t);
    KeepExclusive(d, r);
    KeepTables(d, r);
    KeepAllCounts(d, r);
  }

  lemma MarkDirtyStep(s: State, nr: nat, k: nat, t: nat)
    requires Inv(s)
    requires 0 < nr < NR_TASKS && k < 16 && t < 1024 && Pte(s, nr, k, t).present && Pte(s, nr, k, t).rw
    ensures var w := Pte(s, nr, k, t).(dirty := true); var r := SetPte(s, nr, k, t, w);
      Inv(r) && SameViews(s, r) && AllKept(s, r) && OneEntry(s, r, nr, k, t) && Pte(r, nr, k, t) == w
  {
    var w := Pte(s, nr, k, t).(dirty := true);
    var r := SetPte(s, nr, k, t, w);
    WritableAlone(s, nr, k, t);
    OneEntryByPteChange(s, r, nr, k, t, w);
    OneEntrySeen(s, r, nr, k, t);
    OneEntryKeeps(s, r, nr, k, t);
    assert Refers(s, PteRef(nr, k, t), w.frame);
    assert Seen(r, nr, k, t) == Seen(s, nr, k, t);
    SameReferences(s, r, nr, k, t);
    ExclusiveBut(s, r, w.frame);
  }

  lemma StoreCommutes(s: State, d: State, nr: nat, k: nat, t: nat, i: nat, v: Word)
    requires Inv(s) && i < 1024
    requires 0 < nr < NR_TASKS && k < 16 && t < 1024 && Pte(s, nr, k, t).present && Pte(s, nr, k, t).rw
    requires LOW <= Pte(s, nr, k, t).frame < TOP
    requires d == SetPte(s, nr, k, t, Pte(s, nr, k, t).(dirty := true))
    ensures Store(s, nr, k, t, i, v) == d.(mem := d.mem[Pte(s, nr, k, t).frame := s.mem[Pte(s, nr, k, t).frame][i := v]])
  {
    var w := Pte(s, nr, k, t);
    var table := Dir(s, nr, k).frame;
    DirAlone(s, nr, k);
    assert Refers(s, PteRef(nr, k, t), w.frame);
    assert table != w.frame;
    var m := s.(mem := s.mem[w.frame := s.mem[w.frame][i := v]]);
    assert Dir(m, nr, k) == Dir(s, nr, k);
    assert Store(s, nr, k, t, i, v).mem == d.mem[w.frame := s.mem[w.frame][i := v]];
  }

  lemma StoreSeen(d: State, r: State, nr: nat, k: nat, t: nat)
    requires Inv(d) && Shape(r) && SamePtes(d, r) && r.task == d.task
    requires 0 < nr < NR_TASKS && k < 16 && t < 1024
    requires Pte(d, nr, k, t).present && Pte(d, nr, k, t).dirty && Pte(d, nr, k, t).frame < TOP
    requires forall q | Refers(d, q, Pte(d, nr, k, t).frame) :: q == PteRef(nr, k, t)
    requires forall f | 0 <= f < TOP && f != Pte(d, nr, k, t).frame :: r.mem[f] == d.mem[f]
    ensures SameBut(d, r, nr, k, t) && AllKept(d, r)
  {
    var f := Pte(d, nr, k, t).frame;
    forall a, b, e | 0 < a < NR_TASKS && 0 <= b < 16 && 0 <= e < 1024
      ensures (a, b, e) != (nr, k, t) ==> Seen(r, a, b, e) == Seen(d, a, b, e)
      ensures Kept(d, r, a, b, e)
    {
      assert Pte(r, a, b, e) == Pte(d, a, b, e);
      if (a, b, e) != (nr, k, t) {
        assert !Refers(d, PteRef(a, b, e), f);
      }
    }
  }

  /** un_wp_page when the page is shared or low: the task gets its own copy in the held frame g. */
  lemma CopyPageStep(s: State, nr: nat, k: nat, t: nat, g: nat)
    requires Inv(s) && g in s.held && !TaskPage(s, g)
    requires 0 < nr < NR_TASKS && k < 16 && t < 1024 && Pte(s, nr, k, t).present && !Pte(s, nr, k, t).rw
    ensures Pte(s, nr, k, t).frame < TOP && g < TOP
    ensures var f := Pte(s, nr, k, t).frame; var r := CopyPage(Unshare(s, f), f, g, nr, k, t);
      Inv(r) && SameBut(s, r, nr, k, t) && KeptBut(s, r, nr, k, t) && Pte(r, nr, k, t) == UserEntry(g) && Seen(r, nr, k, t) == Some(s.mem[f]) &&
      r.held == s.held - {g} && r.task == s.task && SameDirs(s, r) && SamePtesBut(s, r, nr, k, t)
  {
    var w := Pte(s, nr, k, t);
    var f := w.frame;
    HeldAlone(s, g);
    assert !Refers(s, PteRef(nr, k, t), g) && f != g;
    DropPteStep(s, nr, k, t);
    var a := FreeEntry(s, nr, k, t);
    FillHeldStep(a, g, s.mem[f]);
    var b := a.(mem := a.mem[g := s.mem[f]]);
    InstallPteStep(b, nr, k, t, g);
    CopyPageIs(s, nr, k, t, g);
    var r := CopyPage(Unshare(s, f), f, g, nr, k, t);
    forall i, d, e | 0 < i < NR_TASKS && 0 <= d < 16 && 0 <= e < 1024 && (i, d, e) != (nr, k, t)
      ensures Seen(r, i, d, e) == Seen(s, i, d, e)
    {
      assert Seen(r, i, d, e) == Seen(b, i, d, e) == Seen(a, i, d, e) == Seen(s, i, d, e);
    }
  }

  /** The kernel's order of doing it, and the order of CopyPageStep, have the same result. */
  lemma CopyPageIs(s: State, nr: nat, k: nat, t: nat, g: nat)
    requires Inv(s) && g in s.held && LOW <= g < TOP
    requires 0 < nr < NR_TASKS && k < 16 && t < 1024 && Pte(s, nr, k, t).present && Pte(s, nr, k, t).frame < s.high
    ensures var f := Pte(s, nr, k, t).frame; var a := FreeEntry(s, nr, k, t);
      var b := a.(mem := a.mem[g := s.mem[f]]);
      CopyPage(Unshare(s, f), f, g, nr, k, t) == SetPte(b, nr, k, t, UserEntry(g)).(held := b.held - {g})
  {
    var f := Pte(s, nr, k, t).frame;
    DirAlone(s, nr, k);
    HeldAlone(s, g);
    assert Refers(s, PteRef(nr, k, t), f);
    assert !Refers(s, DirRef(nr, k), g);
    if LOW <= f { ReferredIsCounted(s, PteRef(nr, k, t), f); }
    CopyPageWords(s, nr, k, t, f, g);
  }

  lemma CopyPageWords(s: State, nr: nat, k: nat, t: nat, f: nat, g: nat)
    requires Shape(s) && nr < NR_TASKS && k < 16 && t < 1024 && g < TOP && Pte(s, nr, k, t).present
    requires f == Pte(s, nr, k, t).frame < s.high && (LOW <= f ==> Count(s, f) != 0)
    requires 0 < Dir(s, nr, k).frame != g && Dir(s, nr, k).frame != f
    ensures var a := FreeEntry(s, nr, k, t); var b := a.(mem := a.mem[g := s.mem[f]]);
      g != 0 ==> CopyPage(Unshare(s, f), f, g, nr, k, t) == SetPte(b, nr, k, t, UserEntry(g)).(held := b.held - {g})
  {
    if g != 0 {
      var table := Dir(s, nr, k).frame;
      assert FreePage(s, f) == Unshare(s, f);
      var a := FreeEntry(s, nr, k, t);
      assert a.mem == s.mem[table := s.mem[table][t := ZERO]];
      var b := a.(mem := a.mem[g := s.mem[f]]);
      assert Dir(b, nr, k) == Dir(s, nr, k);
      var c := SetPte(Unshare(s, f), nr, k, t, UserEntry(g));
      assert c.mem == s.mem[table := s.mem[table][t := UserEntry(g)]];
      assert s.mem[table][t := ZERO][t := UserEntry(g)] == s.mem[table][t := UserEntry(g)];
      assert SetPte(b, nr, k, t, UserEntry(g)).mem == b.mem[table := s.mem[table][t := UserEntry(g)]];
      assert c.mem[g := c.mem[f]] == SetPte(b, nr, k, t, UserEntry(g)).mem;
    }
  }
}
