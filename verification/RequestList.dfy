// The request queue as it is linked: add_request walks and splices the list through request[],
// end_request pops its head.

module RequestList {
  import opened Elevator

  const NONE: int := -1

  /** The elements of `list`, in order, linked through `nx` from `head` on. */
  ghost predicate Linked(list: seq<nat>, nx: seq<int>, head: int) {
    && (forall i | 0 <= i < |list| :: list[i] < |nx|)
    && (forall i, j | 0 <= i < j < |list| :: list[i] != list[j])
    && head == Link(list, 0)
    && (forall i {:trigger nx[list[i]]} | 0 <= i < |list| :: nx[list[i]] == Link(list, i + 1))
  }

  /** The link to the element at i, or none. */
  function Link(list: seq<nat>, i: nat): int { if i < |list| then list[i] else NONE }

  function InsertAfter(list: seq<nat>, i: nat, req: nat): (r: seq<nat>)
    requires i < |list|
    ensures |r| == |list| + 1
    ensures forall j | 0 <= j < |r| :: r[j] == if j <= i then list[j] else if j == i + 1 then req else list[j - 1]
  {
    list[..i + 1] + [req] + list[i + 1..]
  }

  lemma InsertLink(list: seq<nat>, nx: seq<int>, head: int, i: nat, req: nat, j: nat)
    requires Linked(list, nx, head) && i < |list| && req < |nx| && req !in list && j < |list| + 1
    ensures var r := InsertAfter(list, i, req); nx[req := nx[list[i]]][list[i] := req][r[j]] == Link(r, j + 1)
  {
    var k := if j <= i then j else if j == i + 1 then i else j - 1;
    assert list[k] in list && list[i] in list;
    assert nx[list[k]] == Link(list, k + 1) && nx[list[i]] == Link(list, i + 1);
    assert k != i ==> list[k] != list[i];
  }

  lemma InsertLinked(list: seq<nat>, nx: seq<int>, head: int, i: nat, req: nat)
    requires Linked(list, nx, head) && i < |list| && req < |nx| && req !in list
    ensures Linked(InsertAfter(list, i, req), nx[req := nx[list[i]]][list[i] := req], head)
  {
    var r := InsertAfter(list, i, req);
    forall j | 0 <= j < |r| ensures nx[req := nx[list[i]]][list[i] := req][r[j]] == Link(r, j + 1) {
      InsertLink(list, nx, head, i, req, j);
    }
    InsertDistinct(list, i, req);
  }

  lemma InsertDistinct(list: seq<nat>, i: nat, req: nat)
    requires i < |list| && req !in list && forall a, b | 0 <= a < b < |list| :: list[a] != list[b]
    ensures var r := InsertAfter(list, i, req); forall a, b | 0 <= a < b < |r| :: r[a] != r[b]
  {
    forall j | 0 <= j < |list| ensures list[j] != req { assert list[j] in list; }
  }

  lemma TailLinked(list: seq<nat>, nx: seq<int>, head: int)
    requires Linked(list, nx, head) && list != []
    ensures Linked(list[1..], nx, nx[list[0]])
  {
    forall i | 0 <= i < |list[1..]| ensures nx[list[1..][i]] == Link(list[1..], i + 1) {
      assert list[1..][i] == list[i + 1];
    }
  }

  /** The requests of the elements of a list. */
  ghost function Gather(list: seq<nat>, request: seq<Req>): (q: seq<Req>)
    requires forall i | 0 <= i < |list| :: list[i] < |request|
    ensures |q| == |list| && forall i | 0 <= i < |q| :: q[i] == request[list[i]]
  {
    seq(|list|, i requires 0 <= i < |list| => request[list[i]])
  }

  lemma InsertMultiset(list: seq<nat>, i: nat, req: nat)
    requires i < |list|
    ensures multiset(InsertAfter(list, i, req)) == multiset(list) + multiset{req}
  {
    assert list == list[..i + 1] + list[i + 1..];
    assert InsertAfter(list, i, req) == list[..i + 1] + [req] + list[i + 1..];
  }

  lemma InsertGather(list: seq<nat>, request: seq<Req>, i: nat, req: nat)
    requires i < |list| && req < |request| && forall j | 0 <= j < |list| :: list[j] < |request|
    ensures var q := Gather(list, request); var r := InsertAfter(list, i, req);
      (forall j | 0 <= j < |r| :: r[j] < |request|) &&
      Gather(r, request) == q[..i + 1] + [request[req]] + q[i + 1..] && multiset(r) == multiset(list) + multiset{req}
  {
    InsertMultiset(list, i, req);
    var q := Gather(list, request);
    var r := InsertAfter(list, i, req);
    hide InsertAfter, Gather;
    var g, e := Gather(r, request), q[..i + 1] + [request[req]] + q[i + 1..];
    forall j | 0 <= j < |r| ensures g[j] == e[j] {
      assert g[j] == request[r[j]];
      if j > i + 1 { assert e[j] == q[j - 1]; }
    }
    assert g == e;
  }

  class RequestQueue {
    const request: array<Req>
    const next: array<int>
    var current: int
    ghost var list: seq<nat>

    ghost predicate Valid()
      reads this, next
    {
      request.Length == next.Length && Linked(list, next[..], current)
    }

    /** The queue from current_request on. */
    ghost function Contents(): seq<Req>
      requires Valid()
      reads this, next, request
    {
      Gather(list, request[..])
    }

    /** blk_dev_init */
    constructor (n: nat)
      ensures Valid() && Contents() == [] && request.Length == n && fresh(request) && fresh(next)
    {
      request := new Req[n](_ => Req(0, 0, 0, 0, 0, 0));
      next := new int[n](_ => NONE);
      current := NONE;
      list := [];
    }

    /** add_request for the element `req` of request[], already filled in. */
    method AddRequest(req: nat)
      requires Valid() && req < request.Length && req !in list
      modifies this, next
      ensures Valid() && Contents() == Insert(old(Contents()), request[req])
      ensures multiset(list) == multiset(old(list)) + multiset{req}
    {
      ghost var q := Contents();
      ghost var was := list;
      if current == NONE {
        next[req] := NONE;
        current := req;
        list := [req];
        return;
      }
      var tmp, i := Walk(req);
      ghost var nx := next[..];
      InsertLinked(was, nx, current, i, req);
      next[req] := next[tmp];
      next[tmp] := req;
      assert next[..] == nx[req := nx[was[i]]][was[i] := req];
      list := InsertAfter(was, i, req);
      InsertGather(was, request[..], i, req);
    }

    /** The loop of add_request: the element after which the request goes. */
    method Walk(req: nat) returns (tmp: nat, ghost i: nat)
      requires Valid() && req < request.Length && current != NONE
      ensures i < |list| && tmp == list[i] && Position(Contents(), request[req], 0) == i + 1
    {
      ghost var q := Contents();
      tmp := current;
      i := 0;
      while next[tmp] != NONE
        invariant i < |list| && tmp == list[i] && next[tmp] == Link(list, i + 1)
        invariant Position(q, request[req], 0) == Position(q, request[req], i)
        decreases |list| - i
      {
        var after := next[tmp];
        assert q[i] == request[tmp] && q[i + 1] == request[after];
        if (InOrder(request[tmp], request[req]) || !InOrder(request[tmp], request[after])) && InOrder(request[req], request[after]) {
          return;
        }
        tmp := after;
        i := i + 1;
        assert next[..][list[i]] == Link(list, i + 1);
      }
    }

    /** `CURRENT = CURRENT->next` */
    method EndRequest() returns (served: nat)
      requires Valid() && current != NONE
      modifies this
      ensures Valid() && Contents() == old(Contents())[1..] && served == old(list)[0] && list == old(list)[1..]
    {
      TailLinked(list, next[..], current);
      served := current;
      assert next[..][list[0]] == next[served];
      current := next[current];
      list := list[1..];
    }
  }
}
