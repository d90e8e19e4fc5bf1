// The frame-accounting invariant of the pager, and what each single change of a table entry,
// a directory entry or a frame does to it.

module PageInvariant {
  import opened Common
  import opened PageModel

  /** The places that can refer to a frame: a page-table entry, a directory entry, or the kernel. */
  datatype Ref = PteRef(nr: nat, k: nat, t: nat) | DirRef(nr: nat, k: nat) | KernelRef

  predicate Refers(s: State, r: Ref, f: nat)
    requires Shape(s)
  {
    match r
    case PteRef(nr, k, t) =>
      0 < nr < NR_TASKS && k < 16 && t < 1024 && Pte(s, nr, k, t).present && Pte(s, nr, k, t).frame == f
    case DirRef(nr, k) =>
      0 < nr < NR_TASKS && k < 16 && Dir(s, nr, k).present && Dir(s, nr, k).frame == f
    case KernelRef => f in s.held
  }

  function Refs(s: State, f: nat): set<Ref>
    requires Shape(s)
  {
    (set nr, k, t | 0 <= nr < NR_TASKS && 0 <= k < 16 && 0 <= t < 1024 && Refers(s, PteRef(nr, k, t), f) :: PteRef(nr, k, t)) +
    (set nr, k | 0 <= nr < NR_TASKS && 0 <= k < 16 && Refers(s, DirRef(nr, k), f) :: DirRef(nr, k)) +
    (if f in s.held then {KernelRef} else {})
  }

  /** Two references to one frame are both read-only page-table entries, at the same offset in
      their tasks: page tables, kernel pages and writable pages have one owner. */
  predicate Compatible(s: State, r: Ref, q: Ref)
    requires Shape(s)
  {
    r == q ||
    (r.PteRef? && q.PteRef? && r.k == q.k && r.t == q.t &&
     0 < r.nr < NR_TASKS && 0 < q.nr < NR_TASKS && r.k < 16 && r.t < 1024 &&
     !Pte(s, r.nr, r.k, r.t).rw && !Pte(s, q.nr, q.k, q.t).rw)
  }

  ghost predicate Exclusive(s: State)
    requires Shape(s)
  {
    forall f, r, q | LOW <= f && Refers(s, r, f) && Refers(s, q, f) :: Compatible(s, r, q)
  }

  /** The byte of mem_map for a frame. */
  function Count(s: State, f: nat): nat
    requires Shape(s) && LOW <= f < TOP
  {
    s.count[f - LOW]
  }

  /** The byte is the number of references, if mem_init made the frame available. */
  ghost predicate Counted(s: State, f: nat)
    requires Shape(s) && LOW <= f < TOP
  {
    if f in s.reserved then Count(s, f) == USED && Refs(s, f) == {}
    else f < s.high && Count(s, f) == |Refs(s, f)|
  }

  ghost predicate Counts(s: State)
    requires Shape(s)
  {
    forall f | LOW <= f < TOP :: Counted(s, f)
  }

  predicate Alive(s: State, nr: nat)
    requires Shape(s)
  {
    nr < NR_TASKS && s.task[nr].Some? && !s.task[nr].value.zombie
  }

  /** Page tables lie in paged memory and belong to live tasks, within the data limit; present
      pages lie in physical memory, and the kernel's first megabyte is never user-writable. */
  ghost predicate Tables(s: State)
    requires Shape(s)
  {
    && (forall nr, k | 0 < nr < NR_TASKS && 0 <= k < 16 && Dir(s, nr, k).present ::
         LOW <= Dir(s, nr, k).frame < s.high && Alive(s, nr) && k < Dirs(s.task[nr].value.limit))
    && (forall nr, k, t | 0 < nr < NR_TASKS && 0 <= k < 16 && 0 <= t < 1024 && Pte(s, nr, k, t).present ::
         Pte(s, nr, k, t).frame < s.high && (Pte(s, nr, k, t).rw ==> LOW <= Pte(s, nr, k, t).frame))
  }

  /** Task 0 runs on the kernel's own tables, which map low memory one to one. */
  ghost predicate Kernel(s: State)
    requires Shape(s)
  {
    && (forall k | 0 <= k < 16 && Dir(s, 0, k).present :: 0 < Dir(s, 0, k).frame < LOW)
    && (forall t | 0 <= t < 160 :: Pte(s, 0, 0, t).frame < LOW)
    && s.task[0].Some? && s.task[0].value.limit == 160 && s.task[0].value.exe == 0 && !s.task[0].value.zombie
  }

  ghost predicate TaskPages(s: State)
    requires Shape(s)
  {
    && (forall f | f in s.held :: LOW <= f < s.high)
    && (forall nr | 0 < nr < NR_TASKS && s.task[nr].Some? ::
         s.task[nr].value.page in s.held && s.task[nr].value.limit <= 16 * 1024)
    && (forall i, j | 0 < i < j < NR_TASKS && s.task[i].Some? && s.task[j].Some? ::
         s.task[i].value.page != s.task[j].value.page)
  }

  ghost predicate Inv(s: State) {
    && Shape(s) && !s.panic
    && Exclusive(s) && Counts(s) && Tables(s) && Kernel(s) && TaskPages(s)
  }

  /** What task nr sees at the page (k, t) of its address space, if it is in paged memory. */
  function Seen(s: State, nr: nat, k: nat, t: nat): Option<Page>
    requires Shape(s) && nr < NR_TASKS && k < 16 && t < 1024
  {
    var w := Pte(s, nr, k, t);
    if w.present && LOW <= w.frame < TOP then Some(s.mem[w.frame]) else None
  }

  /** A present page, in paged memory, that the processor has not marked written. */
  predicate Unwritten(s: State, nr: nat, k: nat, t: nat)
    requires Shape(s) && nr < NR_TASKS && k < 16 && t < 1024
  {
    Seen(s, nr, k, t).Some? && !Pte(s, nr, k, t).dirty && s.task[nr].Some?
  }

  /** An unwritten page of the new state was an unwritten page with the same bytes before. */
  predicate Kept(s: State, r: State, nr: nat, k: nat, t: nat)
    requires Shape(s) && Shape(r) && nr < NR_TASKS && k < 16 && t < 1024
  {
    Unwritten(r, nr, k, t) ==>
      && Unwritten(s, nr, k, t) && Seen(r, nr, k, t) == Seen(s, nr, k, t)
      && r.task[nr].value.exe == s.task[nr].value.exe
  }

  ghost predicate AllKept(s: State, r: State)
    requires Shape(s) && Shape(r)
  {
    forall i, d, e | 0 < i < NR_TASKS && 0 <= d < 16 && 0 <= e < 1024 :: Kept(s, r, i, d, e)
  }

  ghost predicate KeptBut(s: State, r: State, nr: nat, k: nat, t: nat)
    requires Shape(s) && Shape(r)
  {
    forall i, d, e | 0 < i < NR_TASKS && 0 <= d < 16 && 0 <= e < 1024 && (i, d, e) != (nr, k, t) :: Kept(s, r, i, d, e)
  }

  /** An unwritten page, at an address that is loaded from the executable, shows its bytes. */
  ghost predicate CleanAt(s: State, files: Files, nr: nat, k: nat, t: nat)
    requires Shape(s) && nr < NR_TASKS && k < 16 && t < 1024
  {
    Unwritten(s, nr, k, t) && FromFile(files, s.task[nr].value.exe, k, t) ==>
      Seen(s, nr, k, t) == Some(files.image(s.task[nr].value.exe, k * 1024 + t))
  }

  ghost predicate Clean(s: State, files: Files)
    requires Shape(s)
  {
    forall nr, k, t | 0 < nr < NR_TASKS && 0 <= k < 16 && 0 <= t < 1024 :: CleanAt(s, files, nr, k, t)
  }

  ghost predicate CleanBut(s: State, files: Files, nr: nat, k: nat, t: nat)
    requires Shape(s)
  {
    forall i, d, e | 0 < i < NR_TASKS && 0 <= d < 16 && 0 <= e < 1024 && (i, d, e) != (nr, k, t) ::
      CleanAt(s, files, i, d, e)
  }

  lemma CleanKept(s: State, r: State, files: Files)
    requires Shape(s) && Shape(r) && AllKept(s, r)
    ensures Clean(s, files) ==> Clean(r, files)
  {
    if Clean(s, files) {
      forall i, d, e | 0 < i < NR_TASKS && 0 <= d < 16 && 0 <= e < 1024 ensures CleanAt(r, files, i, d, e) {
        assert Kept(s, r, i, d, e) && CleanAt(s, files, i, d, e);
      }
    }
  }

  lemma CleanKeptBut(s: State, r: State, files: Files, nr: nat, k: nat, t: nat)
    requires Shape(s) && Shape(r) && KeptBut(s, r, nr, k, t)
    ensures CleanBut(s, files, nr, k, t) ==> CleanBut(r, files, nr, k, t)
    ensures Clean(s, files) ==> CleanBut(r, files, nr, k, t)
  {
    if CleanBut(s, files, nr, k, t) {
      forall i, d, e | 0 < i < NR_TASKS && 0 <= d < 16 && 0 <= e < 1024 && (i, d, e) != (nr, k, t)
        ensures CleanAt(r, files, i, d, e)
      {
        assert Kept(s, r, i, d, e) && CleanAt(s, files, i, d, e);
      }
    }
  }

  /** Everything at or above slot 1 but the page (nr, k, t) looks the same in both states. */
  ghost predicate SameBut(s: State, r: State, nr: nat, k: nat, t: nat)
    requires Shape(s) && Shape(r)
  {
    forall i, d, e | 0 < i < NR_TASKS && 0 <= d < 16 && 0 <= e < 1024 && (i, d, e) != (nr, k, t) ::
      Seen(r, i, d, e) == Seen(s, i, d, e)
  }

  ghost predicate SameViews(s: State, r: State)
    requires Shape(s) && Shape(r)
  {
    forall i, d, e | 0 < i < NR_TASKS && 0 <= d < 16 && 0 <= e < 1024 ::
      Seen(r, i, d, e) == Seen(s, i, d, e)
  }

  // ----- references ----------------------------------------------------------------------

  lemma InRefs(s: State, r: Ref, f: nat)
    requires Shape(s)
    ensures r in Refs(s, f) <==> Refers(s, r, f)
  {
  }

  /** Two states with the same references to a frame count it alike. */
  lemma SameRefs(s: State, r: State, f: nat)
    requires Shape(s) && Shape(r)
    requires forall q :: Refers(s, q, f) <==> Refers(r, q, f)
    ensures Refs(s, f) == Refs(r, f)
  {
    forall q ensures q in Refs(s, f) <==> q in Refs(r, f) {
      InRefs(s, q, f); InRefs(r, q, f);
    }
  }

  lemma OneMoreRef(s: State, r: State, f: nat, q: Ref)
    requires Shape(s) && Shape(r)
    requires !Refers(s, q, f)
    requires forall p :: Refers(r, p, f) <==> Refers(s, p, f) || p == q
    ensures Refs(r, f) == Refs(s, f) + {q}
    ensures |Refs(r, f)| == |Refs(s, f)| + 1
  {
    hide Refs, Refers;
    forall p ensures p in Refs(r, f) <==> p in Refs(s, f) + {q} {
      InRefs(s, p, f); InRefs(r, p, f);
    }
    InRefs(s, q, f);
  }

  /** The only reference to a frame. */
  lemma SoleRef(s: State, f: nat, r: Ref)
    requires Shape(s) && Refers(s, r, f)
    requires forall q :: Refers(s, q, f) ==> q == r
    ensures Refs(s, f) == {r}
  {
    forall q ensures q in Refs(s, f) <==> q in {r} { InRefs(s, q, f); }
  }

  lemma NoRefs(s: State, f: nat)
    requires Shape(s)
    ensures Refs(s, f) == {} <==> forall q :: !Refers(s, q, f)
  {
    forall q ensures q in Refs(s, f) <==> Refers(s, q, f) { InRefs(s, q, f); }
  }

  /** The references at the offset of r in the tasks 1 .. n-1. */
  function Siblings(r: Ref, n: nat): (a: set<Ref>)
    requires n > 0
    ensures |a| < n
    ensures r.PteRef? ==> forall i :: 0 < i < n ==> PteRef(i, r.k, r.t) in a
  {
    if n == 1 then {} else Siblings(r, n - 1) + (if r.PteRef? then {PteRef(n - 1, r.k, r.t)} else {r})
  }

  /** Shared frames are shared at one task-relative offset, so a count never exceeds the number
      of task slots and the unsigned char cannot wrap. */
  lemma CountBound(s: State, f: nat)
    requires Inv(s) && LOW <= f < TOP
    ensures |Refs(s, f)| < NR_TASKS
    ensures Count(s, f) <= USED
  {
    assert Counted(s, f);
    if Refs(s, f) != {} {
      var r :| r in Refs(s, f);
      InRefs(s, r, f);
      var all := Siblings(r, NR_TASKS);
      if r.PteRef? {
        forall q | q in Refs(s, f) ensures q in all {
          InRefs(s, q, f);
          assert Compatible(s, r, q);
        }
        SubsetSize(Refs(s, f), all);
      } else {
        forall q | q in Refs(s, f) ensures q == r {
          InRefs(s, q, f);
          assert Compatible(s, r, q);
        }
        assert Refs(s, f) == {r};
      }
    }
  }

  lemma SubsetSize<T>(a: set<T>, b: set<T>)
    requires a <= b
    ensures |a| <= |b|
  {
    assert b == a + (b - a);
  }
}
