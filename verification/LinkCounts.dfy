// Counting the entries that name an inode.

module LinkCounts {
  import opened Common
  import opened LinkModel

  function One(b: bool): nat { if b then 1 else 0 }

  function CountIn(l: seq<Entry>, i: nat): nat
    decreases |l|
  {
    if l == [] then 0 else One(Names(l[0], i)) + CountIn(l[1..], i)
  }

  /** The live entries of the directories below n that name i. */
  function Count(s: Table, i: nat, n: nat): nat
    decreases n
  {
    if n == 0 then 0 else Count(s, i, n - 1) + CountIn(Entries(s, n - 1), i)
  }

  lemma {:induction false} CountSet(l: seq<Entry>, k: nat, e: Entry, i: nat)
    requires k < |l|
    ensures CountIn(l[k := e], i) == CountIn(l, i) - One(Names(l[k], i)) + One(Names(e, i))
    ensures Names(l[k], i) ==> CountIn(l, i) > 0
    decreases |l|
  {
    var m := l[k := e];
    if k > 0 {
      CountSet(l[1..], k - 1, e, i);
      assert m[1..] == l[1..][k - 1 := e];
    } else {
      assert m[1..] == l[1..];
    }
  }

  lemma {:induction false} CountAppend(l: seq<Entry>, e: Entry, i: nat)
    ensures CountIn(l + [e], i) == CountIn(l, i) + One(Names(e, i))
    decreases |l|
  {
    if l != [] {
      CountAppend(l[1..], e, i);
      assert (l + [e])[1..] == l[1..] + [e];
    } else {
      assert (l + [e])[1..] == [];
    }
  }

  lemma CountAdd(l: seq<Entry>, n: seq<Byte>, j: nat, i: nat)
    requires j != 0
    ensures CountIn(AddEntry(l, n, j), i) == CountIn(l, i) + One(i == j)
  {
    var k := FreeSlot(l, 0);
    if k == |l| { CountAppend(l, Entry(j, Padded(n)), i); } else { CountSet(l, k, Entry(j, Padded(n)), i); }
  }

  lemma {:induction false} CountNone(l: seq<Entry>, i: nat)
    requires forall k | 0 <= k < |l| :: !Names(l[k], i)
    ensures CountIn(l, i) == 0
    decreases |l|
  {
    if l != [] {
      forall k | 0 <= k < |l[1..]| ensures !Names(l[1..][k], i) { assert l[1..][k] == l[k + 1]; }
      CountNone(l[1..], i);
    }
  }

  lemma {:induction false} CountSame(s: Table, t: Table, i: nat, n: nat)
    requires forall x | 0 <= x < n :: Entries(t, x) == Entries(s, x)
    ensures Count(t, i, n) == Count(s, i, n)
    decreases n
  {
    if n > 0 { CountSame(s, t, i, n - 1); }
  }

  /** One directory changed. */
  lemma {:induction false} CountChange(s: Table, t: Table, d: nat, i: nat, n: nat)
    requires d < n && forall x | 0 <= x < n && x != d :: Entries(t, x) == Entries(s, x)
    ensures Count(t, i, n) == Count(s, i, n) - CountIn(Entries(s, d), i) + CountIn(Entries(t, d), i)
    decreases n
  {
    if d == n - 1 { CountSame(s, t, i, n - 1); } else { CountChange(s, t, d, i, n - 1); }
  }

  lemma {:induction false} CountZero(s: Table, i: nat, n: nat)
    requires forall d, k | 0 <= d < n && 0 <= k < |Entries(s, d)| :: !Names(Entries(s, d)[k], i)
    ensures Count(s, i, n) == 0
    decreases n
  {
    if n > 0 {
      CountZero(s, i, n - 1);
      CountNone(Entries(s, n - 1), i);
    }
  }

  lemma {:induction false} CountSome(s: Table, i: nat, n: nat, d: nat, k: nat)
    requires d < n && k < |Entries(s, d)| && Names(Entries(s, d)[k], i)
    ensures Count(s, i, n) > 0
    decreases n
  {
    if d == n - 1 {
      CountSet(Entries(s, d), k, Entries(s, d)[k], i);
    } else {
      CountSome(s, i, n - 1, d, k);
    }
  }
}
