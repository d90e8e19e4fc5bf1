// A pipe: a page used as a ring, with head and tail masked to the page.

module Pipe {
  import opened Common

  const PAGE_SIZE: nat := 4096

  /** i_zone[0], i_zone[1] and the page behind i_size. */
  datatype Ring = Ring(head: nat, tail: nat, page: seq<Byte>)

  predicate Ok(r: Ring) { r.head < PAGE_SIZE && r.tail < PAGE_SIZE && |r.page| == PAGE_SIZE }

  /** PIPE_SIZE: (head - tail) & (PAGE_SIZE - 1) */
  function Size(r: Ring): nat { (r.head - r.tail) % PAGE_SIZE }

  /** The bytes in the pipe, oldest first. */
  function Contents(r: Ring): (c: seq<Byte>)
    requires Ok(r)
    ensures |c| == Size(r) < PAGE_SIZE
  {
    if r.tail <= r.head then r.page[r.tail..r.head] else r.page[r.tail..] + r.page[..r.head]
  }

  function Min(a: nat, b: nat): nat { if a < b then a else b }

  /** How much one round of write_pipe takes: no further than the end of the page, and never the last byte. */
  function Room(r: Ring, count: nat): (n: nat)
    requires Ok(r)
    ensures n <= count
  {
    Min(Min(PAGE_SIZE - r.head, count), PAGE_SIZE - 1 - Size(r))
  }

  function Available(r: Ring, count: nat): (n: nat)
    requires Ok(r)
    ensures n <= count
  {
    Min(Min(PAGE_SIZE - r.tail, count), Size(r))
  }

  /** One round of write_pipe. */
  function Put(r: Ring, data: seq<Byte>): (s: Ring)
    requires Ok(r)
    ensures Ok(s)
  {
    var n := Room(r, |data|);
    r.(head := (r.head + n) % PAGE_SIZE, page := r.page[..r.head] + data[..n] + r.page[r.head + n..])
  }

  /** One round of read_pipe: the ring it leaves and the bytes it hands over. */
  function Get(r: Ring, count: nat): (x: (Ring, seq<Byte>))
    requires Ok(r)
    ensures Ok(x.0)
  {
    var n := Available(r, count);
    (r.(tail := (r.tail + n) % PAGE_SIZE), r.page[r.tail..r.tail + n])
  }

  /** A round appends what it takes at the end of the queue, and takes something unless the pipe is full. */
  lemma PutAppends(r: Ring, data: seq<Byte>)
    requires Ok(r)
    ensures Contents(Put(r, data)) == Contents(r) + data[..Room(r, |data|)]
    ensures data != [] ==> (Room(r, |data|) == 0 <==> Size(r) == 4095)
  {
    var n, s := Room(r, |data|), Put(r, data);
    if r.head + n < PAGE_SIZE {
      assert s.head == r.head + n;
    } else {
      assert s.head == 0;
    }
    var a, b := Contents(s), Contents(r) + data[..n];
    assert |a| == |b|;
    forall k | 0 <= k < |a| ensures a[k] == b[k] {}
  }

  /** A round takes its bytes from the front of the queue, and takes some unless the pipe is empty. */
  lemma GetTakes(r: Ring, count: nat)
    requires Ok(r)
    ensures var (s, out) := Get(r, count); Contents(r) == out + Contents(s) && |out| == Available(r, count)
    ensures count > 0 ==> (Available(r, count) == 0 <==> Size(r) == 0)
  {
    var n := Available(r, count);
    var (s, out) := Get(r, count);
    if r.tail + n < PAGE_SIZE {
      assert s.tail == r.tail + n;
    } else {
      assert s.tail == 0;
    }
    var a, b := Contents(r), out + Contents(s);
    assert |a| == |b|;
    forall k | 0 <= k < |a| ensures a[k] == b[k] {}
  }

  // ----- any interleaving of readers and writers -----------------------------------------------------

  datatype Step = Write(data: seq<Byte>) | Read(count: nat)

  /** `sent` and `received` are all the bytes that ever went in and came out. */
  datatype History = History(ring: Ring, sent: seq<Byte>, received: seq<Byte>)

  function Next(h: History, s: Step): (g: History)
    requires Ok(h.ring)
    ensures Ok(g.ring)
  {
    match s
    case Write(data) => History(Put(h.ring, data), h.sent + data[..Room(h.ring, |data|)], h.received)
    case Read(count) => var (r, out) := Get(h.ring, count); History(r, h.sent, h.received + out)
  }

  function Run(h: History, steps: seq<Step>): (g: History)
    requires Ok(h.ring)
    ensures Ok(g.ring)
    decreases |steps|
  {
    if steps == [] then h else Run(Next(h, steps[0]), steps[1..])
  }

  /** What is still inside is what was sent and not received, in order. */
  ghost predicate Fifo(h: History) {
    Ok(h.ring) && h.sent == h.received + Contents(h.ring)
  }

  lemma StepFifo(h: History, s: Step)
    requires Fifo(h)
    ensures Fifo(Next(h, s))
  {
    hide Contents, Put, Get, Room, Available;
    match s
    case Write(data) =>
      PutAppends(h.ring, data);
      assert h.received + (Contents(h.ring) + data[..Room(h.ring, |data|)]) == h.received + Contents(h.ring) + data[..Room(h.ring, |data|)];
    case Read(count) =>
      GetTakes(h.ring, count);
      var (r, out) := Get(h.ring, count);
      assert h.received + (out + Contents(r)) == h.received + out + Contents(r);
  }

  /** The main result: at every moment the bytes that came out are the first of those that went in, and
      PIPE_SIZE counts the rest, never more than 4095. */
  lemma {:induction false} FirstInFirstOut(h: History, steps: seq<Step>)
    requires Fifo(h)
    ensures var g := Run(h, steps);
      Fifo(g) && g.received <= g.sent && |g.sent| - |g.received| == Size(g.ring) <= 4095
    decreases |steps|
  {
    if steps != [] {
      StepFifo(h, steps[0]);
      FirstInFirstOut(Next(h, steps[0]), steps[1..]);
    }
  }

  lemma EmptyPipe(page: seq<Byte>)
    requires |page| == PAGE_SIZE
    ensures Fifo(History(Ring(0, 0, page), [], []))
  {
  }

  // ----- the code --------------------------------------------------------------------------------------

  class Inode {
    var head: nat
    var tail: nat
    const page: array<Byte>

    ghost function Abs(): Ring
      reads this, page
    {
      Ring(head, tail, page[..])
    }

    ghost predicate Valid()
      reads this, page
    {
      Ok(Abs())
    }

    constructor ()
      ensures Valid() && Contents(Abs()) == [] && fresh(page)
    {
      head, tail := 0, 0;
      page := new Byte[PAGE_SIZE](_ => 0);
    }

    /** The body of write_pipe's loop, when there is room. */
    method PutChunk(buf: seq<Byte>, from: nat) returns (chars: nat)
      requires Valid() && from <= |buf|
      modifies this, page
      ensures Valid() && Abs() == Put(old(Abs()), buf[from..]) && chars == Room(old(Abs()), |buf| - from)
    {
      var size := PAGE_SIZE - 1 - (head - tail) % PAGE_SIZE;
      chars := PAGE_SIZE - head;
      if chars > |buf| - from { chars := |buf| - from; }
      if chars > size { chars := size; }
      var at := head;
      head := (head + chars) % PAGE_SIZE;
      var i := 0;
      while i < chars
        modifies page
        invariant 0 <= i <= chars
        invariant forall k | 0 <= k < PAGE_SIZE :: page[k] == if at <= k < at + i then buf[from + k - at] else old(page[k])
      {
        page[at + i] := buf[from + i];
        i := i + 1;
      }
      assert page[..] == Put(old(Abs()), buf[from..]).page;
    }

    /** write_pipe from one sleep to the next: rounds until everything is written or the pipe is full. */
    method WritePipe(buf: seq<Byte>, from: nat) returns (written: nat)
      requires Valid() && from <= |buf|
      modifies this, page
      ensures Valid() && written <= |buf| - from && Contents(Abs()) == old(Contents(Abs())) + buf[from..from + written]
      ensures from + written == |buf| || Size(Abs()) == 4095
    {
      hide Put, Contents, Room;
      written := 0;
      assert buf[from..from] == [];
      while from + written < |buf| && (head - tail) % PAGE_SIZE != PAGE_SIZE - 1
        invariant Valid() && written <= |buf| - from && Contents(Abs()) == old(Contents(Abs())) + buf[from..from + written]
        decreases |buf| - from - written
      {
        PutAppends(Abs(), buf[from + written..]);
        var chars := PutChunk(buf, from + written);
        assert buf[from + written..][..chars] == buf[from + written..from + written + chars];
        assert buf[from..from + written + chars] == buf[from..from + written] + buf[from + written..from + written + chars];
        written := written + chars;
      }
    }

    /** The body of read_pipe's loop, when there is something. */
    method GetChunk(count: nat) returns (out: seq<Byte>)
      requires Valid()
      modifies `tail
      ensures Valid() && (Abs(), out) == Get(old(Abs()), count)
    {
      var size := (head - tail) % PAGE_SIZE;
      var chars := PAGE_SIZE - tail;
      if chars > count { chars := count; }
      if chars > size { chars := size; }
      var at := tail;
      tail := (tail + chars) % PAGE_SIZE;
      out := [];
      while |out| < chars
        invariant |out| <= chars && out == page[at..at + |out|]
      {
        out := out + [page[at + |out|]];
      }
    }

    /** read_pipe from one sleep to the next. */
    method ReadPipe(count: nat) returns (out: seq<Byte>)
      requires Valid()
      modifies `tail
      ensures Valid() && |out| <= count && old(Contents(Abs())) == out + Contents(Abs())
      ensures |out| == count || Size(Abs()) == 0
    {
      hide Get, Contents, Available;
      out := [];
      while |out| < count && (head - tail) % PAGE_SIZE != 0
        invariant Valid() && |out| <= count && old(Contents(Abs())) == out + Contents(Abs())
        decreases count - |out|
      {
        GetTakes(Abs(), count - |out|);
        var chunk := GetChunk(count - |out|);
        assert out + (chunk + Contents(Abs())) == out + chunk + Contents(Abs());
        out := out + chunk;
      }
    }
  }
}
