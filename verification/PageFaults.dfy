// The page-fault paths: demand filling, sharing between tasks that run the same executable,
// and copying on a write.

module PageFaults {
  import opened Common
  import opened PageModel
  import opened PageInvariant
  import opened PageSteps
  import opened PageEntries
  import opened PageTables

  /** The task can fault at (k, t). */
  predicate InSpace(s: State, nr: nat, k: nat, t: nat) {
    Shape(s) && 0 < nr < NR_TASKS && k < 16 && t < 1024 && Alive(s, nr) && k < Dirs(s.task[nr].value.limit)
  }

  /** A live task can fault at the pages of every table that its data limit reaches into, so at every page below it. */
  lemma SpaceMeaning(s: State, nr: nat, d: nat, e: nat)
    requires Shape(s) && 0 < nr < NR_TASKS && Alive(s, nr) && s.task[nr].value.limit <= 16 * 1024 && e < 1024
    ensures InSpace(s, nr, d, e) <==> d * 1024 < s.task[nr].value.limit
    ensures d * 1024 + e < s.task[nr].value.limit ==> InSpace(s, nr, d, e)
  {
  }

  /** Tables, tasks and kernel pages are the same, and so is everything tasks see. */
  ghost predicate Unnoticed(s: State, r: State)
    requires Shape(s) && Shape(r)
  {
    Inv(r) && SameViews(s, r) && AllKept(s, r) && r.task == s.task && r.held == s.held && r.reserved == s.reserved && r.high == s.high
  }

  /** Only the page (nr, k, t) looks different. */
  ghost predicate OnlyPage(s: State, r: State, nr: nat, k: nat, t: nat)
    requires Shape(s) && Shape(r)
  {
    Inv(r) && SameBut(s, r, nr, k, t) && KeptBut(s, r, nr, k, t) && r.task == s.task && r.held == s.held && r.reserved == s.reserved && r.high == s.high
  }

  lemma SelfUnnoticed(s: State)
    requires Inv(s)
    ensures Unnoticed(s, s)
  {
    SelfKept(s);
  }

  lemma NeedTableSteps(s: State, nr: nat, k: nat, t: nat)
    requires Inv(s) && InSpace(s, nr, k, t)
    ensures var (r, ok) := NeedTable(s, nr, k);
      Unnoticed(s, r) && SamePtes(s, r) && (ok ==> Dir(r, nr, k).present) && (!ok ==> r == s) &&
      (forall g | g in s.held :: r.mem[g] == s.mem[g])
  {
    SelfUnnoticed(s);
    if !Dir(s, nr, k).present {
      NewTableStep(s, nr, k);
    }
  }

  lemma PutSteps(s: State, f: nat, nr: nat, k: nat, t: nat)
    requires Inv(s) && InSpace(s, nr, k, t) && f in s.held && !TaskPage(s, f) && !Pte(s, nr, k, t).present
    ensures var (r, ok) := Put(s, f, nr, k, t);
      if ok then
        Inv(r) && SameBut(s, r, nr, k, t) && KeptBut(s, r, nr, k, t) && r.task == s.task && r.held == s.held - {f} &&
        r.reserved == s.reserved && r.high == s.high &&
        Pte(r, nr, k, t) == UserEntry(f) == Word(f, 1, false, true, true) && Seen(r, nr, k, t) == Some(s.mem[f])
      else r == s
  {
    NeedTableSteps(s, nr, k, t);
    var (m, ok) := NeedTable(s, nr, k);
    if ok {
      assert Pte(m, nr, k, t) == Pte(s, nr, k, t);
      InstallPteStep(m, nr, k, t, f);
      var r := Put(s, f, nr, k, t).0;
      HeldAlone(s, f);
      ChainBut(s, m, r, nr, k, t);
    }
  }

  lemma ChainBut(s: State, m: State, r: State, nr: nat, k: nat, t: nat)
    requires Shape(s) && Shape(m) && Shape(r)
    requires SameBut(s, m, nr, k, t) && KeptBut(s, m, nr, k, t) && SameBut(m, r, nr, k, t) && KeptBut(m, r, nr, k, t)
    ensures SameBut(s, r, nr, k, t) && KeptBut(s, r, nr, k, t)
  {
    forall i, d, e | 0 < i < NR_TASKS && 0 <= d < 16 && 0 <= e < 1024 && (i, d, e) != (nr, k, t)
      ensures Seen(r, i, d, e) == Seen(s, i, d, e) && Kept(s, r, i, d, e)
    {
      assert Seen(m, i, d, e) == Seen(s, i, d, e) && Kept(s, m, i, d, e) && Kept(m, r, i, d, e);
    }
  }

  // ----- un_wp_page ----------------------------------------------------------------------

  /** The frame's contents, for the page the entry names. */
  function PageOf(s: State, nr: nat, k: nat, t: nat): Page
    requires Shape(s) && nr < NR_TASKS && k < 16 && t < 1024
  {
    if Pte(s, nr, k, t).frame < TOP then s.mem[Pte(s, nr, k, t).frame] else ZeroPage()
  }

  lemma UnWpCopies(s: State, nr: nat, k: nat, t: nat)
    requires Inv(s) && InSpace(s, nr, k, t) && Pte(s, nr, k, t).present && !Pte(s, nr, k, t).rw
    requires LOW <= Pte(s, nr, k, t).frame < TOP ==> Count(s, Pte(s, nr, k, t).frame) != 1
    ensures var (r, ok) := UnWp(s, nr, k, t);
      if ok then
        OnlyPage(s, r, nr, k, t) && Pte(r, nr, k, t).present && Pte(r, nr, k, t).rw && !Pte(r, nr, k, t).dirty &&
        Seen(r, nr, k, t) == Some(PageOf(s, nr, k, t)) && SameDirs(s, r) && SamePtesBut(s, r, nr, k, t)
      else r == s
  {
    var w := Pte(s, nr, k, t);
    var (s1, g) := Alloc(s);
    AllocStep(s);
    if g != 0 {
      assert Pte(s1, nr, k, t) == w;
      HeldAlone(s1, g);
      assert !Refers(s1, PteRef(nr, k, t), g);
      CopyPageStep(s1, nr, k, t, g);
      var r := CopyPage(Unshare(s1, w.frame), w.frame, g, nr, k, t);
      assert UnWp(s, nr, k, t) == (r, true);
      ChainBut(s, s1, r, nr, k, t);
      assert r.held == s.held;
      assert s1.mem[w.frame] == s.mem[w.frame];
    }
  }

  /** After un_wp_page the task has a writable page of its own with the same bytes; without
      memory nothing changed. */
  lemma UnWpSteps(s: State, nr: nat, k: nat, t: nat)
    requires Inv(s) && InSpace(s, nr, k, t) && Pte(s, nr, k, t).present && !Pte(s, nr, k, t).rw
    ensures var (r, ok) := UnWp(s, nr, k, t);
      if ok then
        OnlyPage(s, r, nr, k, t) && Pte(r, nr, k, t).present && Pte(r, nr, k, t).rw &&
        Seen(r, nr, k, t) == Some(PageOf(s, nr, k, t))
      else r == s
  {
    var w := Pte(s, nr, k, t);
    if LOW <= w.frame < TOP && Count(s, w.frame) == 1 {
      UnprotectStep(s, nr, k, t);
    } else {
      UnWpCopies(s, nr, k, t);
    }
  }

  /** write_verify: a present page ends up writable, with the bytes it had; without memory nothing changed. */
  lemma WriteVerifySteps(s: State, nr: nat, k: nat, t: nat)
    requires Inv(s) && InSpace(s, nr, k, t)
    ensures var (r, ok) := WriteVerify(s, nr, k, t);
      if ok then
        OnlyPage(s, r, nr, k, t) && (Seen(s, nr, k, t).Some? ==> Seen(r, nr, k, t) == Seen(s, nr, k, t)) &&
        (Pte(s, nr, k, t).present ==> Pte(r, nr, k, t).present && Pte(r, nr, k, t).rw)
      else r == s
  {
    if Pte(s, nr, k, t).present && !Pte(s, nr, k, t).rw {
      UnWpSteps(s, nr, k, t);
    } else {
      SelfUnnoticed(s);
    }
  }

  // ----- sharing -------------------------------------------------------------------------

  /** Task p has an unwritten page at (k, t), and runs the executable that cur runs. */
  predicate Offers(s: State, cur: nat, p: nat, k: nat, t: nat)
    requires Shape(s) && cur < NR_TASKS && p < NR_TASKS && k < 16 && t < 1024
  {
    p != cur && s.task[p].Some? && s.task[cur].Some? && s.task[p].value.exe == s.task[cur].value.exe && Unwritten(s, p, k, t)
  }

  /** The highest slot up to p that offers the page, or 0. */
  function Sharer(s: State, cur: nat, k: nat, t: nat, p: nat): (q: nat)
    requires Shape(s) && cur < NR_TASKS && p < NR_TASKS && k < 16 && t < 1024
    ensures q <= p
    ensures q > 0 ==> Offers(s, cur, q, k, t)
    ensures forall i | q < i <= p :: !Offers(s, cur, i, k, t)
  {
    if p == 0 || Offers(s, cur, p, k, t) then p else Sharer(s, cur, k, t, p - 1)
  }

  lemma TryToShareSteps(s: State, files: Files, cur: nat, p: nat, k: nat, t: nat)
    requires Inv(s) && InSpace(s, cur, k, t) && 0 < p < NR_TASKS && p != cur && !Pte(s, cur, k, t).present
    requires s.task[p].Some? && s.task[p].value.exe == s.task[cur].value.exe
    ensures var (r, how) := TryToShare(s, cur, p, k, t);
      match how
      case NotShared => r == s && !Offers(s, cur, p, k, t)
      case OutOfMemory => r == s && Offers(s, cur, p, k, t)
      case Shared =>
        Offers(s, cur, p, k, t) && Inv(r) && SameBut(s, r, cur, k, t) && Seen(r, cur, k, t) == Seen(s, p, k, t) &&
        (Clean(s, files) ==> Clean(r, files)) && r.task == s.task && r.held == s.held && r.reserved == s.reserved && r.high == s.high &&
        Pte(r, cur, k, t).present
  {
    var w := Pte(s, p, k, t);
    if w.present && !w.dirty && LOW <= w.frame < s.high {
      NeedTableSteps(s, cur, k, t);
      var (m, ok) := NeedTable(s, cur, k);
      if ok {
        assert Pte(m, cur, k, t) == Pte(s, cur, k, t) && Pte(m, p, k, t) == w;
        ShareStep(m, p, cur, k, t);
        var r := TryToShare(s, cur, p, k, t).0;
        CleanKept(s, m, files);
        SharedClean(m, r, files, p, cur, k, t);
        assert Seen(m, p, k, t) == Seen(s, p, k, t);
        forall i, d, e | 0 < i < NR_TASKS && 0 <= d < 16 && 0 <= e < 1024 && (i, d, e) != (cur, k, t)
          ensures Seen(r, i, d, e) == Seen(s, i, d, e)
        {
          assert Seen(r, i, d, e) == Seen(m, i, d, e);
        }
      }
    }
  }

  /** share_page maps the page of the highest slot that offers one, if any does. */
  lemma {:induction false} ShareSteps(s: State, files: Files, cur: nat, k: nat, t: nat, p: nat)
    requires Inv(s) && InSpace(s, cur, k, t) && p < NR_TASKS && !Pte(s, cur, k, t).present
    ensures var (r, how) := Share(s, cur, k, t, p); var q := Sharer(s, cur, k, t, p);
      match how
      case NotShared => r == s && q == 0
      case OutOfMemory => r == s && q > 0
      case Shared =>
        q > 0 && Inv(r) && SameBut(s, r, cur, k, t) && Seen(r, cur, k, t) == Seen(s, q, k, t) &&
        (Clean(s, files) ==> Clean(r, files)) && r.task == s.task && r.held == s.held && r.reserved == s.reserved && r.high == s.high &&
        Pte(r, cur, k, t).present
    decreases p
  {
    hide Inv, Pte, Seen, Dir, Clean, Unwritten, SameBut;
    if p == 0 {
    } else if s.task[p].None? || s.task[cur].None? || cur == p || s.task[p].value.exe != s.task[cur].value.exe {
      ShareSteps(s, files, cur, k, t, p - 1);
    } else {
      TryToShareSteps(s, files, cur, p, k, t);
      if TryToShare(s, cur, p, k, t).1 == NotShared {
        ShareSteps(s, files, cur, k, t, p - 1);
      }
    }
  }

  // ----- do_no_page ----------------------------------------------------------------------

  lemma PutNewSteps(s: State, nr: nat, k: nat, t: nat, content: Page)
    requires Inv(s) && InSpace(s, nr, k, t) && !Pte(s, nr, k, t).present
    ensures var (r, ok) := PutNew(s, nr, k, t, content);
      if ok then OnlyPage(s, r, nr, k, t) && Seen(r, nr, k, t) == Some(content) && Pte(r, nr, k, t).present
      else Unnoticed(s, r)
  {
    var (a, f) := Alloc(s);
    AllocStep(s);
    SelfUnnoticed(s);
    if f != 0 {
      var b := a.(mem := a.mem[f := content]);
      FillHeldStep(a, f, content);
      assert !TaskPage(b, f);
      assert Pte(b, nr, k, t) == Pte(a, nr, k, t) == Pte(s, nr, k, t);
      PutSteps(b, f, nr, k, t);
      KeptChain(s, a, b);
      var (c, ok) := Put(b, f, nr, k, t);
      var r := PutNew(s, nr, k, t, content).0;
      if ok {
        ChainBut(s, b, r, nr, k, t);
        assert r.held == s.held;
      } else {
        DropHeldStep(b, f);
        KeptChain(s, b, r);
        assert r.held == s.held;
      }
    }
  }

  /** The bytes a page that is faulted in shows. */
  function Arrives(s: State, files: Files, nr: nat, k: nat, t: nat, mayShare: bool): Page
    requires Shape(s) && 0 < nr < NR_TASKS && k < 16 && t < 1024 && s.task[nr].Some?
  {
    var exe := s.task[nr].value.exe;
    var q := Sharer(s, nr, k, t, NR_TASKS - 1);
    if mayShare && FromFile(files, exe, k, t) && q > 0 then Seen(s, q, k, t).value else Fill(files, exe, k, t)
  }

  lemma NoPageSteps(s: State, files: Files, nr: nat, k: nat, t: nat, mayShare: bool)
    requires Inv(s) && InSpace(s, nr, k, t) && !Pte(s, nr, k, t).present
    ensures var (r, ok) := NoPage(s, files, nr, k, t, mayShare);
      if ok then
        Inv(r) && SameBut(s, r, nr, k, t) && Seen(r, nr, k, t) == Some(Arrives(s, files, nr, k, t, mayShare)) &&
        Pte(r, nr, k, t).present && (Clean(s, files) ==> Clean(r, files)) &&
        r.task == s.task && r.held == s.held && r.reserved == s.reserved && r.high == s.high &&
        (!mayShare || Sharer(s, nr, k, t, NR_TASKS - 1) == 0 ==>
          var exe := s.task[nr].value.exe;
          Seen(r, nr, k, t) == Some(if exe != 0 && k * 1024 + t < files.pages(exe) then files.image(exe, k * 1024 + t) else ZeroPage()))
      else Unnoticed(s, r)
  {
    var exe := s.task[nr].value.exe;
    SelfUnnoticed(s);
    if !FromFile(files, exe, k, t) {
      PutNewSteps(s, nr, k, t, ZeroPage());
      FilledClean(s, files, nr, k, t, ZeroPage());
    } else {
      if mayShare { ShareSteps(s, files, nr, k, t, NR_TASKS - 1); }
      PutNewSteps(s, nr, k, t, files.image(exe, k * 1024 + t));
      FilledClean(s, files, nr, k, t, files.image(exe, k * 1024 + t));
    }
  }

  lemma FilledClean(s: State, files: Files, nr: nat, k: nat, t: nat, content: Page)
    requires Inv(s) && InSpace(s, nr, k, t) && !Pte(s, nr, k, t).present
    requires content == Fill(files, s.task[nr].value.exe, k, t)
    ensures var (r, ok) := PutNew(s, nr, k, t, content); Clean(s, files) ==> Clean(r, files)
  {
    var (r, ok) := PutNew(s, nr, k, t, content);
    PutNewSteps(s, nr, k, t, content);
    if ok {
      CleanKeptBut(s, r, files, nr, k, t);
      assert CleanAt(r, files, nr, k, t);
    } else {
      CleanKept(s, r, files);
    }
  }

  /** In a state where unwritten pages show the file, sharing is invisible. */
  lemma SharingIsLoading(s: State, files: Files, nr: nat, k: nat, t: nat, mayShare: bool)
    requires Inv(s) && InSpace(s, nr, k, t) && Clean(s, files)
    ensures Arrives(s, files, nr, k, t, mayShare) == Fill(files, s.task[nr].value.exe, k, t)
  {
    var q := Sharer(s, nr, k, t, NR_TASKS - 1);
    if q > 0 { assert CleanAt(s, files, q, k, t); }
  }
}
