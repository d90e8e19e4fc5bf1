// mm/memory.c on real arrays: each routine does in place what its specification in PageModel
// says of the whole state.

module Memory {
  import opened Common
  import opened PageModel
  import opened PageInvariant
  import opened PageRuns
  import opened PageTheorems

  class PhysicalMemory {
    const mem: array<Page>
    const mem_map: array<nat>
    const task: array<Option<Task>>
    const high: nat
    var panic: bool
    ghost var held: set<nat>
    ghost const reserved: set<nat>

    ghost predicate Valid()
      reads this, mem, mem_map, task
    {
      mem.Length == TOP && mem_map.Length == PAGES && task.Length == NR_TASKS && LOW <= high <= TOP
    }

    ghost function Abs(): State
      reads this, mem, mem_map, task
    {
      State(mem[..], mem_map[..], task[..], held, reserved, high, panic)
    }

    /** The tables head.s sets up, and mem_init for the frames from start to end. */
    constructor (start: nat, end: nat)
      requires LOW <= start <= end <= TOP
      ensures Valid() && Boot(Abs()) && fresh(mem) && fresh(mem_map) && fresh(task)
      ensures high == end && reserved == Between(LOW, start) + Between(end, TOP)
    {
      mem := new Page[TOP](f => KernelPage(f));
      mem_map := new nat[PAGES](_ => USED);
      task := new Option<Task>[NR_TASKS](nr => if nr == 0 then Some(Task(0, 160, 0, false)) else None);
      high := end;
      panic := false;
      held := {};
      reserved := Between(LOW, start) + Between(end, TOP);
      new;
      for i := start - LOW to end - LOW
        invariant Valid() && Abs() == Abs().(count := mem_map[..]) && held == {} && !panic
        invariant forall f | 0 <= f < TOP :: mem[f] == KernelPage(f)
        invariant forall nr | 0 <= nr < NR_TASKS :: task[nr] == if nr == 0 then Some(Task(0, 160, 0, false)) else None
        invariant forall j | 0 <= j < PAGES :: mem_map[j] == if start - LOW <= j < i then 0 else USED
      {
        mem_map[i] := 0;
      }
      BootTables(Abs());
    }

    /** get_free_page: the byte scan from the top, then the claim. */
    method GetFreePage() returns (f: nat)
      requires Valid()
      modifies this`held, mem, mem_map
      ensures Valid() && (Abs(), f) == Alloc(old(Abs()))
    {
      var i: nat := PAGES;
      while i > 0 && mem_map[i - 1] != 0
        invariant i <= PAGES
        invariant LastFree(mem_map[..], PAGES) == LastFree(mem_map[..], i)
      {
        i := i - 1;
      }
      if i == 0 {
        return 0;
      }
      f := LOW + i - 1;
      mem_map[i - 1] := 1;
      mem[f] := ZeroPage();
      held := held + {f};
    }

    method Free(f: nat)
      requires Valid()
      modifies this`panic, mem_map
      ensures Valid() && Abs() == FreePage(old(Abs()), f)
    {
      if f < LOW {
        return;
      }
      if f >= high {
        panic := true;
        return;
      }
      if mem_map[f - LOW] != 0 {
        mem_map[f - LOW] := mem_map[f - LOW] - 1;
      } else {
        panic := true;
      }
    }

    method WritePte(nr: nat, k: nat, t: nat, w: Word)
      requires Valid() && nr < NR_TASKS && k < 16 && t < 1024
      modifies mem
      ensures Valid() && Abs() == SetPte(old(Abs()), nr, k, t, w)
    {
      var d := mem[0][16 * nr + k];
      if d.present && d.frame < TOP {
        mem[d.frame] := mem[d.frame][t := w];
      }
    }

    method ReadPte(nr: nat, k: nat, t: nat) returns (w: Word)
      requires Valid() && nr < NR_TASKS && k < 16 && t < 1024
      ensures w == Pte(Abs(), nr, k, t)
    {
      var d := mem[0][16 * nr + k];
      w := if d.present && d.frame < TOP then mem[d.frame][t] else ZERO;
    }

    /** The inner loop of free_page_tables, over the entries of one page table. */
    method FreeTableEntries(nr: nat, k: nat)
      requires Valid() && nr < NR_TASKS && k < 16
      modifies this`panic, mem, mem_map
      ensures Valid() && Abs() == FreeEntries(old(Abs()), nr, k, 0)
    {
      ghost var before := Abs();
      var t := 0;
      while t < 1024
        invariant t <= 1024 && Valid()
        invariant FreeEntries(Abs(), nr, k, t) == FreeEntries(before, nr, k, 0)
      {
        var w := ReadPte(nr, k, t);
        if w.present {
          Free(w.frame);
        }
        WritePte(nr, k, t, ZERO);
        t := t + 1;
      }
    }

    /** One round of the outer loop. */
    method FreeTable(nr: nat, k: nat)
      requires Valid() && nr < NR_TASKS && k < 16
      modifies this`panic, mem, mem_map
      ensures Valid() && Abs() == FreeDir(old(Abs()), nr, k)
    {
      var d := mem[0][16 * nr + k];
      if d.present {
        FreeTableEntries(nr, k);
        Free(d.frame);
        mem[0] := mem[0][16 * nr + k := ZERO];
      }
    }

    /** free_page_tables */
    method FreePageTables(nr: nat, n: nat)
      requires Valid() && nr < NR_TASKS && n <= 16
      modifies this`panic, mem, mem_map
      ensures Valid() && Abs() == FreeTables(old(Abs()), nr, 0, n)
    {
      hide FreeDir;
      var k := 0;
      while k < n
        invariant k <= n && Valid()
        invariant FreeTables(Abs(), nr, k, n) == FreeTables(old(Abs()), nr, 0, n)
      {
        FreeTable(nr, k);
        k := k + 1;
      }
    }

    /** A new page table at (nr, k), from get_free_page. */
    method NewTable(nr: nat, k: nat) returns (ok: bool)
      requires Valid() && nr < NR_TASKS && k < 16
      modifies this`held, mem, mem_map
      ensures Valid()
      ensures var (s1, f) := Alloc(old(Abs()));
        ok == (f != 0) && Abs() == if f == 0 then s1 else SetDir(s1, nr, k, UserEntry(f)).(held := s1.held - {f})
    {
      var f := GetFreePage();
      if f == 0 {
        return false;
      }
      mem[0] := mem[0][16 * nr + k := UserEntry(f)];
      held := held - {f};
      ok := true;
    }

    method Increment(f: nat)
      requires Valid()
      modifies this`panic, mem_map
      ensures Valid() && Abs() == Bump(old(Abs()), f)
    {
      if LOW <= f < TOP {
        mem_map[f - LOW] := (mem_map[f - LOW] + 1) % 256;
      } else {
        panic := true;
      }
    }

    /** The inner loop of copy_page_tables, over the entries of one page table. */
    method CopyTableEntries(p: nat, c: nat, k: nat)
      requires Valid() && p < NR_TASKS && c < NR_TASKS && k < 16
      modifies this`panic, this`held, mem, mem_map
      ensures Valid() && Abs() == CopyEntries(old(Abs()), p, c, k, 0, CopyLength(p))
    {
      ghost var before := Abs();
      var t := 0;
      while t < CopyLength(p)
        invariant t <= CopyLength(p) && Valid()
        invariant CopyEntries(Abs(), p, c, k, t, CopyLength(p)) == CopyEntries(before, p, c, k, 0, CopyLength(p))
      {
        ghost var now := Abs();
        var w := ReadPte(p, k, t);
        if w.present {
          WritePte(c, k, t, Protect(w));
          if w.frame >= LOW {
            WritePte(p, k, t, Protect(w));
            Increment(w.frame);
          }
        }
        assert Abs() == CopyEntry(now, p, c, k, t);
        t := t + 1;
      }
    }

    /** copy_page_tables */
    method CopyPageTables(p: nat, c: nat, n: nat) returns (ok: bool)
      requires Valid() && p < NR_TASKS && c < NR_TASKS && n <= 16
      modifies this`panic, this`held, mem, mem_map
      ensures Valid() && (Abs(), ok) == CopyTables(old(Abs()), p, c, 0, n)
    {
      var k := 0;
      while k < n
        invariant k <= n && Valid()
        invariant CopyTables(Abs(), p, c, k, n) == CopyTables(old(Abs()), p, c, 0, n)
      {
        ghost var now := Abs();
        if mem[0][16 * c + k].present {
          panic := true;
        } else if mem[0][16 * p + k].present {
          var made := NewTable(c, k);
          if !made {
            return false;
          }
          CopyTableEntries(p, c, k);
        }
        assert (Abs(), true) == CopyDir(now, p, c, k);
        k := k + 1;
      }
      ok := true;
    }

    method EnsureTable(nr: nat, k: nat) returns (ok: bool)
      requires Valid() && nr < NR_TASKS && k < 16
      modifies this`held, mem, mem_map
      ensures Valid() && (Abs(), ok) == NeedTable(old(Abs()), nr, k)
    {
      if mem[0][16 * nr + k].present {
        return true;
      }
      ok := NewTable(nr, k);
    }

    method PutPage(f: nat, nr: nat, k: nat, t: nat) returns (ok: bool)
      requires Valid() && nr < NR_TASKS && k < 16 && t < 1024
      modifies this`held, mem, mem_map
      ensures Valid() && (Abs(), ok) == Put(old(Abs()), f, nr, k, t)
    {
      ok := EnsureTable(nr, k);
      if ok {
        WritePte(nr, k, t, UserEntry(f));
        held := held - {f};
      }
    }

    method UnWpPage(nr: nat, k: nat, t: nat) returns (ok: bool)
      requires Valid() && nr < NR_TASKS && k < 16 && t < 1024
      modifies this`panic, this`held, mem, mem_map
      ensures Valid() && (Abs(), ok) == UnWp(old(Abs()), nr, k, t)
    {
      var w := ReadPte(nr, k, t);
      if LOW <= w.frame < TOP && mem_map[w.frame - LOW] == 1 {
        WritePte(nr, k, t, Unprotect(w));
        return true;
      }
      var g := GetFreePage();
      if g == 0 {
        return false;
      }
      if LOW <= w.frame < TOP {
        mem_map[w.frame - LOW] := Decrement(mem_map[w.frame - LOW]);
      }
      WritePte(nr, k, t, UserEntry(g));
      if w.frame < TOP {
        mem[g] := mem[w.frame];
        held := held - {g};
      } else {
        panic := true;
      }
      ok := true;
    }

    method VerifyWrite(nr: nat, k: nat, t: nat) returns (ok: bool)
      requires Valid() && nr < NR_TASKS && k < 16 && t < 1024
      modifies this`panic, this`held, mem, mem_map
      ensures Valid() && (Abs(), ok) == WriteVerify(old(Abs()), nr, k, t)
    {
      var w := ReadPte(nr, k, t);
      ok := true;
      if w.present && !w.rw {
        ok := UnWpPage(nr, k, t);
      }
    }

    method Try(cur: nat, p: nat, k: nat, t: nat) returns (how: Sharing)
      requires Valid() && cur < NR_TASKS && p < NR_TASKS && k < 16 && t < 1024
      modifies this`panic, this`held, mem, mem_map
      ensures Valid() && (Abs(), how) == TryToShare(old(Abs()), cur, p, k, t)
    {
      var w := ReadPte(p, k, t);
      if !w.present || w.dirty || w.frame >= high || w.frame < LOW {
        return NotShared;
      }
      var ok := EnsureTable(cur, k);
      if !ok {
        return OutOfMemory;
      }
      var there := ReadPte(cur, k, t);
      if there.present {
        panic := true;
        return Shared;
      }
      WritePte(p, k, t, Protect(w));
      WritePte(cur, k, t, Protect(w));
      Increment(w.frame);
      how := Shared;
    }

    method SharePage(cur: nat, k: nat, t: nat) returns (how: Sharing)
      requires Valid() && cur < NR_TASKS && k < 16 && t < 1024
      modifies this`panic, this`held, mem, mem_map
      ensures Valid() && (Abs(), how) == Share(old(Abs()), cur, k, t, NR_TASKS - 1)
    {
      var p: nat := NR_TASKS - 1;
      while p > 0
        invariant p < NR_TASKS && Valid()
        invariant Share(Abs(), cur, k, t, p) == Share(old(Abs()), cur, k, t, NR_TASKS - 1)
      {
        if task[p].Some? && task[cur].Some? && cur != p && task[p].value.exe == task[cur].value.exe {
          how := Try(cur, p, k, t);
          if how != NotShared {
            return;
          }
        }
        p := p - 1;
      }
      how := NotShared;
    }

    /** get_free_page, the contents, put_page, and free_page again when that fails. */
    method PutNewPage(nr: nat, k: nat, t: nat, content: Page) returns (ok: bool)
      requires Valid() && nr < NR_TASKS && k < 16 && t < 1024
      modifies this`panic, this`held, mem, mem_map
      ensures Valid() && (Abs(), ok) == PutNew(old(Abs()), nr, k, t, content)
    {
      var f := GetFreePage();
      if f == 0 {
        return false;
      }
      mem[f] := content;
      ok := PutPage(f, nr, k, t);
      if !ok {
        Free(f);
        held := held - {f};
      }
    }

    method DoNoPage(files: Files, nr: nat, k: nat, t: nat, mayShare: bool) returns (ok: bool)
      requires Valid() && nr < NR_TASKS && k < 16 && t < 1024 && task[nr].Some?
      modifies this`panic, this`held, mem, mem_map
      ensures Valid() && (Abs(), ok) == NoPage(old(Abs()), files, nr, k, t, mayShare)
    {
      var exe := task[nr].value.exe;
      if !FromFile(files, exe, k, t) {
        ok := PutNewPage(nr, k, t, ZeroPage());
        return;
      }
      if mayShare {
        var how := SharePage(nr, k, t);
        if how == Shared { return true; }
        if how == OutOfMemory { return false; }
      }
      ok := PutNewPage(nr, k, t, files.image(exe, k * 1024 + t));
    }

    /** find_empty_process and copy_process; the child's slot, or 0. */
    method CopyProcess(p: nat) returns (c: nat)
      requires Valid() && Limited(Abs(), p)
      modifies this`panic, this`held, mem, mem_map, task
      ensures Valid() && (Abs(), c) == Fork(old(Abs()), p)
    {
      var i := 1;
      while i < NR_TASKS && task[i].Some?
        invariant 1 <= i <= NR_TASKS
        invariant EmptySlot(task[..], 1) == EmptySlot(task[..], i)
      {
        i := i + 1;
      }
      if i == NR_TASKS {
        return 0;
      }
      var parent := task[p].value;
      var f := GetFreePage();
      if f == 0 {
        return 0;
      }
      task[i] := Some(parent.(page := f));
      var ok := CopyPageTables(p, i, Dirs(parent.limit));
      if ok {
        return i;
      }
      FreePageTables(i, Dirs(parent.limit));
      task[i] := None;
      Free(f);
      held := held - {f};
      c := 0;
    }

    method DoExit(nr: nat)
      requires Valid() && Limited(Abs(), nr)
      modifies this`panic, mem, mem_map, task
      ensures Valid() && Abs() == Exit(old(Abs()), nr)
    {
      var t := task[nr].value;
      FreePageTables(nr, Dirs(t.limit));
      task[nr] := Some(t.(exe := 0, zombie := true));
    }
  }

  ghost function Between(a: nat, b: nat): (r: set<nat>)
    requires a <= b
    ensures forall f :: f in r <==> a <= f < b
    decreases b
  {
    if a == b then {} else Between(a, b - 1) + {b - 1}
  }

  /** Frames 1 to 4 map the first 16 MB one to one; frame 0 is the directory. */
  function KernelPage(f: int): Page {
    if f == 0 then seq(1024, i => KernelDirectory(i))
    else if 1 <= f <= 4 then seq(1024, t => IdentityEntry(f, t))
    else ZeroPage()
  }

  function KernelDirectory(i: int): Word {
    if 0 <= i < 4 then UserEntry(1 + i) else ZERO
  }

  function IdentityEntry(f: int, t: int): Word {
    if 1 <= f <= 4 && 0 <= t < 1024 then UserEntry(1024 * (f - 1) + t) else ZERO
  }

  lemma BootTables(s: State)
    requires Shape(s) && !s.panic && s.held == {}
    requires forall f | 0 <= f < TOP :: s.mem[f] == KernelPage(f)
    requires forall nr | 0 <= nr < NR_TASKS :: s.task[nr] == if nr == 0 then Some(Task(0, 160, 0, false)) else None
    requires forall f | LOW <= f < TOP :: Count(s, f) == if f in s.reserved then USED else 0
    requires forall f | s.high <= f < TOP :: f in s.reserved
    ensures Boot(s)
  {
    forall nr, k | 0 <= nr < NR_TASKS && 0 <= k < 16
      ensures Dir(s, nr, k) == if nr == 0 && k < 4 then UserEntry(1 + k) else ZERO
    {
      assert s.mem[0] == KernelPage(0);
    }
    assert s.mem[1] == KernelPage(1);
    forall t | 0 <= t < 160 ensures Pte(s, 0, 0, t).frame < LOW { assert Pte(s, 0, 0, t) == UserEntry(t); }
  }
}
