// Lists of numbers without repetition, and taking one out.

module NumberLists {

  function Without(s: seq<nat>, x: nat): (r: seq<nat>)
    ensures forall y :: y in r <==> y in s && y != x
  {
    if s == [] then [] else if s[0] == x then Without(s[1..], x) else [s[0]] + Without(s[1..], x)
  }

  ghost predicate Distinct(s: seq<nat>) {
    forall i, j | 0 <= i < j < |s| :: s[i] != s[j]
  }

  function RemoveAt(s: seq<nat>, i: nat): (r: seq<nat>)
    requires i < |s|
    ensures |r| == |s| - 1 && forall j | 0 <= j < |r| :: r[j] == if j < i then s[j] else s[j + 1]
  {
    s[..i] + s[i + 1..]
  }

  lemma {:induction false} WithoutAt(s: seq<nat>, i: nat)
    requires Distinct(s) && i < |s|
    ensures Without(s, s[i]) == RemoveAt(s, i)
  {
    if i == 0 {
      WithoutAbsent(s[1..], s[0]);
    } else {
      assert s[1..][i - 1] == s[i] && s[0] != s[i];
      WithoutAt(s[1..], i - 1);
      assert RemoveAt(s, i) == [s[0]] + RemoveAt(s[1..], i - 1);
    }
  }

  lemma {:induction false} WithoutAbsent(s: seq<nat>, x: nat)
    requires forall i | 0 <= i < |s| :: s[i] != x
    ensures Without(s, x) == s
  {
    if s != [] { WithoutAbsent(s[1..], x); }
  }

  lemma Apart(r: seq<nat>, i: nat, j: nat)
    requires Distinct(r) && i < |r| && j < |r|
    ensures r[i] == r[j] <==> i == j
  {
  }

  lemma RemoveDistinct(c: seq<nat>, i: nat)
    requires Distinct(c) && i < |c|
    ensures Distinct(RemoveAt(c, i))
  {
    var r := RemoveAt(c, i);
    forall a, b | 0 <= a < b < |r| ensures r[a] != r[b] {
      Apart(c, if a < i then a else a + 1, if b < i then b else b + 1);
    }
  }

  /** Taking an element out of a list takes it out, and nothing else. */
  lemma WithoutDistinct(s: seq<nat>, x: nat)
    requires x in s && Distinct(s)
    ensures |Without(s, x)| == |s| - 1 && Distinct(Without(s, x))
  {
    var i :| 0 <= i < |s| && s[i] == x;
    WithoutAt(s, i);
    RemoveDistinct(s, i);
  }
}
