// The paging state of the kernel and the operations of mm/memory.c on it.
//
// All of physical memory is one sequence of page frames, each of 1024 words: the page
// directory is frame 0 and page tables are ordinary frames, as in the kernel, so nothing in
// the types keeps a user page from being a page table.  Addresses are split the way the code
// splits them: task slot nr owns the 16 directory entries 16*nr .. 16*nr+15, and (k, t) is
// the task-relative directory index and table index of a page.

module PageModel {
  import opened Common

  const LOW: nat := 256          // LOW_MEM >> 12
  const PAGES: nat := 3840       // PAGING_PAGES
  const TOP: nat := 4096         // frames below 16 MB
  const NR_TASKS: nat := 64
  const USED: nat := 100

  /** A 32-bit word, split into the bit fields that the code masks: bits 31-12, bit 6 (dirty),
      bit 1 (read/write), bit 0 (present), and the other nine flag bits together. */
  datatype Word = Word(frame: nat, rest: nat, dirty: bool, rw: bool, present: bool)

  const ZERO: Word := Word(0, 0, false, false, false)

  /** `page | 7`: present, writable, user. */
  function UserEntry(f: nat): Word { Word(f, 1, false, true, true) }

  /** `entry & ~2` */
  function Protect(w: Word): Word { w.(rw := false) }

  /** `entry | 2` */
  function Unprotect(w: Word): Word { w.(rw := true) }

  type Page = p: seq<Word> | |p| == 1024 witness seq(1024, _ => ZERO)

  function ZeroPage(): (p: Page)
    ensures forall i :: 0 <= i < 1024 ==> p[i] == ZERO
  {
    seq(1024, _ => ZERO)
  }

  /** What the pager needs of a task: the frame of its task_struct, its data limit in pages,
      the executable it pages from (0 for none), and whether it is a zombie. */
  datatype Task = Task(page: nat, limit: nat, exe: nat, zombie: bool)

  /** The executables: the number of pages below end_data, and each such page as it is after
      loading and after the bytes beyond end_data are zeroed. */
  datatype Files = Files(pages: nat -> nat, image: (nat, nat) -> Page)

  /** `held` are the frames that kernel variables refer to (task structures, pipe buffers,
      pages in transit); `reserved` are those mem_init never made available. */
  datatype State = State(
    mem: seq<Page>, count: seq<nat>, task: seq<Option<Task>>,
    held: set<nat>, reserved: set<nat>, high: nat, panic: bool)

  predicate Shape(s: State) {
    && |s.mem| == TOP && |s.count| == PAGES && |s.task| == NR_TASKS && LOW <= s.high <= TOP
  }

  function Dir(s: State, nr: nat, k: nat): Word
    requires Shape(s) && nr < NR_TASKS && k < 16
  {
    s.mem[0][16 * nr + k]
  }

  /** The page-table entry, or zero where there is no page table. */
  function Pte(s: State, nr: nat, k: nat, t: nat): Word
    requires Shape(s) && nr < NR_TASKS && k < 16 && t < 1024
  {
    var d := Dir(s, nr, k);
    if d.present && d.frame < TOP then s.mem[d.frame][t] else ZERO
  }

  function SetDir(s: State, nr: nat, k: nat, w: Word): State
    requires Shape(s) && nr < NR_TASKS && k < 16
  {
    s.(mem := s.mem[0 := s.mem[0][16 * nr + k := w]])
  }

  function SetPte(s: State, nr: nat, k: nat, t: nat, w: Word): State
    requires Shape(s) && nr < NR_TASKS && k < 16 && t < 1024
  {
    var d := Dir(s, nr, k);
    if d.present && d.frame < TOP then s.(mem := s.mem[d.frame := s.mem[d.frame][t := w]]) else s
  }

  /** The number of page-directory entries a limit of so many pages spans. */
  function Dirs(limit: nat): nat { (limit + 1023) / 1024 }

  // ----- allocation ----------------------------------------------------------------------

  /** One more than the highest index below n whose count is zero, or 0. */
  function LastFree(count: seq<nat>, n: nat): (i: nat)
    requires n <= |count|
    ensures i <= n
    ensures i > 0 ==> count[i - 1] == 0
    ensures forall j :: i <= j < n ==> count[j] != 0
  {
    if n == 0 then 0 else if count[n - 1] == 0 then n else LastFree(count, n - 1)
  }

  /** `movb $1` into the byte of the frame and `rep; stosl` over the frame. */
  function Claim(s: State, f: nat): State
    requires Shape(s) && LOW <= f < TOP
  {
    s.(mem := s.mem[f := ZeroPage()], count := s.count[f - LOW := 1], held := s.held + {f})
  }

  /** get_free_page: the frame, or 0. */
  function Alloc(s: State): (r: (State, nat))
    requires Shape(s)
    ensures Shape(r.0) && r.1 < TOP
  {
    var i := LastFree(s.count, PAGES);
    if i == 0 then (s, 0) else (Claim(s, LOW + i - 1), LOW + i - 1)
  }

  /** free_page */
  function FreePage(s: State, f: nat): State
    requires Shape(s)
  {
    if f < LOW then s
    else if f >= s.high then s.(panic := true)
    else if s.count[f - LOW] != 0 then s.(count := s.count[f - LOW := s.count[f - LOW] - 1])
    else s.(panic := true)
  }

  function FreeHeld(s: State, f: nat): State
    requires Shape(s)
  {
    FreePage(s, f).(held := s.held - {f})
  }

  /** `mem_map[f]++` on an unsigned char; an index outside the array is a panic here. */
  function Bump(s: State, f: nat): State
    requires Shape(s)
  {
    if LOW <= f < TOP then s.(count := s.count[f - LOW := (s.count[f - LOW] + 1) % 256])
    else s.(panic := true)
  }

  // ----- free_page_tables ----------------------------------------------------------------

  function FreeEntry(s: State, nr: nat, k: nat, t: nat): State
    requires Shape(s) && nr < NR_TASKS && k < 16 && t < 1024
  {
    var w := Pte(s, nr, k, t);
    var s1 := if w.present then FreePage(s, w.frame) else s;
    SetPte(s1, nr, k, t, ZERO)
  }

  function FreeEntries(s: State, nr: nat, k: nat, t: nat): (r: State)
    requires Shape(s) && nr < NR_TASKS && k < 16 && t <= 1024
    ensures Shape(r)
    decreases 1024 - t
  {
    if t == 1024 then s else FreeEntries(FreeEntry(s, nr, k, t), nr, k, t + 1)
  }

  function FreeDir(s: State, nr: nat, k: nat): (r: State)
    requires Shape(s) && nr < NR_TASKS && k < 16
    ensures Shape(r)
  {
    if !Dir(s, nr, k).present then s
    else
      var s1 := FreeEntries(s, nr, k, 0);
      SetDir(FreePage(s1, Dir(s, nr, k).frame), nr, k, ZERO)
  }

  function FreeTables(s: State, nr: nat, k: nat, n: nat): (r: State)
    requires Shape(s) && nr < NR_TASKS && k <= n <= 16
    ensures Shape(r)
    decreases n - k
  {
    if k == n then s else FreeTables(FreeDir(s, nr, k), nr, k + 1, n)
  }

  // ----- copy_page_tables ----------------------------------------------------------------

  function CopyEntry(s: State, p: nat, c: nat, k: nat, t: nat): (r: State)
    requires Shape(s) && p < NR_TASKS && c < NR_TASKS && k < 16 && t < 1024
    ensures Shape(r)
  {
    var w := Pte(s, p, k, t);
    if !w.present then s
    else
      var s1 := SetPte(s, c, k, t, Protect(w));
      if w.frame >= LOW then Bump(SetPte(s1, p, k, t, Protect(w)), w.frame) else s1
  }

  function CopyEntries(s: State, p: nat, c: nat, k: nat, t: nat, n: nat): (r: State)
    requires Shape(s) && p < NR_TASKS && c < NR_TASKS && k < 16 && t <= n <= 1024
    ensures Shape(r)
    decreases n - t
  {
    if t == n then s else CopyEntries(CopyEntry(s, p, c, k, t), p, c, k, t + 1, n)
  }

  /** Task 0 shares the kernel's tables: only the first 160 pages of it are copied. */
  function CopyLength(p: nat): nat { if p == 0 then 160 else 1024 }

  function CopyDir(s: State, p: nat, c: nat, k: nat): (r: (State, bool))
    requires Shape(s) && p < NR_TASKS && c < NR_TASKS && k < 16
    ensures Shape(r.0)
  {
    if Dir(s, c, k).present then (s.(panic := true), true)
    else if !Dir(s, p, k).present then (s, true)
    else
      var (s1, f) := Alloc(s);
      if f == 0 then (s1, false)
      else
        (CopyEntries(SetDir(s1, c, k, UserEntry(f)).(held := s1.held - {f}),
                     p, c, k, 0, CopyLength(p)), true)
  }

  /** copy_page_tables; false when it returned -1 for lack of memory. */
  function CopyTables(s: State, p: nat, c: nat, k: nat, n: nat): (r: (State, bool))
    requires Shape(s) && p < NR_TASKS && c < NR_TASKS && k <= n <= 16
    ensures Shape(r.0)
    decreases n - k
  {
    if k == n then (s, true)
    else
      var (s1, ok) := CopyDir(s, p, c, k);
      if ok then CopyTables(s1, p, c, k + 1, n) else (s1, false)
  }

  // ----- put_page, un_wp_page ------------------------------------------------------------

  /** The part of put_page and try_to_share that finds or makes the page table. */
  function NeedTable(s: State, nr: nat, k: nat): (r: (State, bool))
    requires Shape(s) && nr < NR_TASKS && k < 16
    ensures Shape(r.0)
  {
    if Dir(s, nr, k).present then (s, true)
    else
      var (s1, f) := Alloc(s);
      if f == 0 then (s1, false)
      else (SetDir(s1, nr, k, UserEntry(f)).(held := s1.held - {f}), true)
  }

  function Put(s: State, f: nat, nr: nat, k: nat, t: nat): (r: (State, bool))
    requires Shape(s) && nr < NR_TASKS && k < 16 && t < 1024
    ensures Shape(r.0)
  {
    var (s1, ok) := NeedTable(s, nr, k);
    if ok then (SetPte(s1, nr, k, t, UserEntry(f)).(held := s1.held - {f}), true)
    else (s1, false)
  }

  function UnWp(s: State, nr: nat, k: nat, t: nat): (r: (State, bool))
    requires Shape(s) && nr < NR_TASKS && k < 16 && t < 1024
    ensures Shape(r.0)
  {
    var w := Pte(s, nr, k, t);
    if LOW <= w.frame < TOP && s.count[w.frame - LOW] == 1 then
      (SetPte(s, nr, k, t, Unprotect(w)), true)
    else
      var (s1, g) := Alloc(s);
      if g == 0 then (s1, false) else (CopyPage(Unshare(s1, w.frame), w.frame, g, nr, k, t), true)
  }

  /** `if (old_page >= LOW_MEM) mem_map[MAP_NR(old_page)]--` */
  function Unshare(s: State, f: nat): State
    requires Shape(s)
  {
    if LOW <= f < TOP then s.(count := s.count[f - LOW := Decrement(s.count[f - LOW])]) else s
  }

  /** `*table_entry = new_page | 7; copy_page(old_page, new_page)` */
  function CopyPage(s: State, f: nat, g: nat, nr: nat, k: nat, t: nat): (r: State)
    requires Shape(s) && nr < NR_TASKS && k < 16 && t < 1024 && g < TOP
    ensures Shape(r)
  {
    var s1 := SetPte(s, nr, k, t, UserEntry(g));
    if f < TOP then s1.(mem := s1.mem[g := s1.mem[f]], held := s1.held - {g})
    else s1.(panic := true)
  }

  /** `--` on an unsigned char */
  function Decrement(b: nat): nat { if b == 0 then 255 else b - 1 }

  function WriteVerify(s: State, nr: nat, k: nat, t: nat): (r: (State, bool))
    requires Shape(s) && nr < NR_TASKS && k < 16 && t < 1024
    ensures Shape(r.0)
  {
    var w := Pte(s, nr, k, t);
    if w.present && !w.rw then UnWp(s, nr, k, t) else (s, true)
  }

  // ----- try_to_share, share_page, do_no_page --------------------------------------------

  datatype Sharing = NotShared | Shared | OutOfMemory

  function TryToShare(s: State, cur: nat, p: nat, k: nat, t: nat): (r: (State, Sharing))
    requires Shape(s) && cur < NR_TASKS && p < NR_TASKS && k < 16 && t < 1024
    ensures Shape(r.0)
  {
    var w := Pte(s, p, k, t);
    if !w.present || w.dirty || w.frame >= s.high || w.frame < LOW then (s, NotShared)
    else
      var (s1, ok) := NeedTable(s, cur, k);
      if !ok then (s1, OutOfMemory)
      else if Pte(s1, cur, k, t).present then (s1.(panic := true), Shared)
      else
        var s2 := SetPte(s1, p, k, t, Protect(w));
        (Bump(SetPte(s2, cur, k, t, Protect(w)), w.frame), Shared)
  }

  /** The walk of share_page from slot p down to slot 1. */
  function Share(s: State, cur: nat, k: nat, t: nat, p: nat): (r: (State, Sharing))
    requires Shape(s) && cur < NR_TASKS && k < 16 && t < 1024 && p < NR_TASKS
    ensures Shape(r.0)
    decreases p
  {
    if p == 0 then (s, NotShared)
    else if s.task[p].None? || s.task[cur].None? || cur == p || s.task[p].value.exe != s.task[cur].value.exe then
      Share(s, cur, k, t, p - 1)
    else
      var (s1, r) := TryToShare(s, cur, p, k, t);
      if r == NotShared then Share(s1, cur, k, t, p - 1) else (s1, r)
  }

  /** get_free_page, fill with the given content, put_page; undone when put_page fails. */
  function PutNew(s: State, nr: nat, k: nat, t: nat, content: Page): (r: (State, bool))
    requires Shape(s) && nr < NR_TASKS && k < 16 && t < 1024
    ensures Shape(r.0)
  {
    var (s1, f) := Alloc(s);
    if f == 0 then (s1, false)
    else
      var (s2, ok) := Put(s1.(mem := s1.mem[f := content]), f, nr, k, t);
      if ok then (s2, true) else (FreeHeld(s2, f), false)
  }

  /** Whether the page is one that is loaded from the executable. */
  predicate FromFile(files: Files, exe: nat, k: nat, t: nat) {
    exe != 0 && k * 1024 + t < files.pages(exe)
  }

  /** The bytes a demand-filled page must show. */
  function Fill(files: Files, exe: nat, k: nat, t: nat): Page {
    if FromFile(files, exe, k, t) then files.image(exe, k * 1024 + t) else ZeroPage()
  }

  /** do_no_page; `mayShare` is the outcome of the test of the executable's i_count.
      False when the task ran out of memory. */
  function NoPage(s: State, files: Files, nr: nat, k: nat, t: nat, mayShare: bool): (r: (State, bool))
    requires Shape(s) && nr < NR_TASKS && k < 16 && t < 1024 && s.task[nr].Some?
    ensures Shape(r.0)
  {
    var exe := s.task[nr].value.exe;
    if !FromFile(files, exe, k, t) then PutNew(s, nr, k, t, ZeroPage())
    else
      var (s1, r) := if mayShare then Share(s, nr, k, t, NR_TASKS - 1) else (s, NotShared);
      match r
      case Shared => (s1, true)
      case OutOfMemory => (s1, false)
      case NotShared => PutNew(s1, nr, k, t, files.image(exe, k * 1024 + t))
  }

  /** A store by the task's own instructions to a present, writable page: the processor writes
      the word and sets the dirty bit. */
  function Store(s: State, nr: nat, k: nat, t: nat, i: nat, v: Word): (r: State)
    requires Shape(s) && nr < NR_TASKS && k < 16 && t < 1024 && i < 1024
    ensures Shape(r)
  {
    var w := Pte(s, nr, k, t);
    if w.frame < TOP then
      SetPte(s.(mem := s.mem[w.frame := s.mem[w.frame][i := v]]), nr, k, t, w.(dirty := true))
    else s.(panic := true)
  }
}
