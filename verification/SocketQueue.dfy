// The ring of accepted sockets that the master thread fills and the worker threads empty. Its two indices
// are wrapped late: the tail may reach 20 and the head 40.
module SocketRing {
  type Socket = int

  const SLOTS: nat := 20

  datatype Ring = Ring(slots: seq<Socket>, head: int, tail: int)
  {
    predicate Ok() {
      |slots| == SLOTS && 0 <= tail <= SLOTS && tail <= head <= tail + SLOTS
    }

    function Size(): int { head - tail }

    /** The sockets in the ring, the oldest first. */
    function Contents(): (c: seq<Socket>)
      requires Ok()
      ensures |c| == head - tail
    {
      seq(head - tail, k requires 0 <= k < head - tail => slots[(tail + k) % SLOTS])
    }

    function Put(x: Socket): Ring
      requires Ok() && Size() < SLOTS
    {
      Ring(slots[head % SLOTS := x], head + 1, tail)
    }

    function First(): Socket
      requires Ok() && Size() > 0
    {
      slots[tail % SLOTS]
    }

    function Wrapped(): Ring
      decreases tail
    {
      if tail > SLOTS then Ring(slots, head - SLOTS, tail - SLOTS).Wrapped() else this
    }

    function Take(): Ring
      requires Ok() && Size() > 0
    {
      Ring(slots, head, tail + 1).Wrapped()
    }
  }

  lemma SlotsDiffer(a: int, b: int)
    requires 0 <= a < b < a + SLOTS
    ensures a % SLOTS != b % SLOTS
  {
    assert a == SLOTS * (a / SLOTS) + a % SLOTS;
    assert b == SLOTS * (b / SLOTS) + b % SLOTS;
  }

  /** A socket put into the ring comes last, and no socket in the ring is overwritten. */
  lemma PutIsLast(r: Ring, x: Socket)
    requires r.Ok() && r.Size() < SLOTS
    ensures r.Put(x).Ok() && r.Put(x).Contents() == r.Contents() + [x]
  {
    forall k | 0 <= k < r.head - r.tail ensures r.Put(x).Contents()[k] == r.Contents()[k] {
      SlotsDiffer(r.tail + k, r.head);
    }
  }

  /** Taking removes the oldest socket, whether the indices are wrapped or not. */
  lemma TakeIsFirst(r: Ring)
    requires r.Ok() && r.Size() > 0
    ensures r.Take().Ok() && r.Contents() == [r.First()] + r.Take().Contents()
  {
    var t := r.Take();
    assert t == if r.tail < SLOTS then Ring(r.slots, r.head, r.tail + 1) else Ring(r.slots, r.head - SLOTS, 1) by {
      if r.tail == SLOTS {
        assert Ring(r.slots, r.head, r.tail + 1).Wrapped() == Ring(r.slots, r.head - SLOTS, 1).Wrapped();
      }
    }
    var all := [r.First()] + t.Contents();
    forall k | 0 <= k < r.head - r.tail ensures r.Contents()[k] == all[k] {
      if k > 0 {
        assert (t.tail + k - 1) % SLOTS == (r.tail + k) % SLOTS;
      }
    }
  }
}

module SocketQueueClass {
  import opened SocketRing

  class SocketQueue {
    var queue: array<Socket>
    var sqHead: int
    var sqTail: int

    ghost function Abs(): Ring
      reads this, queue
    {
      Ring(queue[..], sqHead, sqTail)
    }

    ghost predicate Valid()
      reads this, queue
    {
      Abs().Ok()
    }

    constructor ()
      ensures Valid() && fresh(queue) && Abs().Contents() == []
    {
      queue := new Socket[SLOTS](_ => 0);
      sqHead, sqTail := 0, 0;
    }

    /** The critical section of produce_socket, when the queue is not full. */
    method Produce(s: Socket)
      requires Valid() && sqHead - sqTail < SLOTS
      modifies this, queue
      ensures Valid() && queue == old(queue)
      ensures Abs() == old(Abs()).Put(s) && Abs().Contents() == old(Abs().Contents()) + [s]
    {
      PutIsLast(Abs(), s);
      queue[sqHead % SLOTS] := s;
      sqHead := sqHead + 1;
    }

    /** The critical section of consume_socket, when the queue is not empty. */
    method Consume() returns (s: Socket)
      requires Valid() && sqHead > sqTail
      modifies this
      ensures Valid() && queue == old(queue) && queue[..] == old(queue[..])
      ensures Abs() == old(Abs()).Take() && old(Abs().Contents()) == [s] + Abs().Contents()
    {
      TakeIsFirst(Abs());
      s := queue[sqTail % SLOTS];
      sqTail := sqTail + 1;
      // both counters come down together
      while sqTail > SLOTS
        invariant Abs().Wrapped() == old(Abs()).Take() && queue == old(queue)
        decreases sqTail
      {
        sqTail := sqTail - SLOTS;
        sqHead := sqHead - SLOTS;
      }
    }
  }
}
