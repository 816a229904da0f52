/** The bounded ring buffer of src/event_queue.c, first as a value (`Ring`), then as the class
    that updates an array in place. The value form is what the concurrent model runs on; the
    class is proved to compute the same rings. */
module RingBuffer {
  import opened Arithmetic
  import opened EventTypes

  // The remainder of a by n for the sums that occur in the ring, which wrap at most once. It
  // keeps the proofs about positions free of division by a variable; IndexIsRemainder ties it
  // to the `%` of the code.
  function Index(a: nat, n: nat): (r: nat)
    requires a < 2 * n
    ensures r < n
  {
    if a < n then a else a - n
  }

  lemma RemainderIs(a: nat, n: nat, q: nat)
    requires 0 < n && q * n <= a < (q + 1) * n
    ensures a % n == a - q * n
  {
    DivAtLeast(a, n, q);
    DivBelow(a, n, q + 1);
    assert a % n == a - Div(a, n) * n;
  }

  lemma IndexIsRemainder(a: nat, n: nat)
    requires a < 2 * n
    ensures Index(a, n) == a % n
  {
    RemainderIs(a, n, if a < n then 0 else 1);
  }

  datatype Ring = Ring(buffer: seq<Event>, head: nat, tail: nat, size: nat, closed: bool) {
    function Capacity(): nat { |buffer| }

    predicate WellFormed() {
      && 0 < Capacity()
      && head < Capacity()
      && size <= Capacity()
      && tail == Index(head + size, Capacity())
    }

    // The queued events, oldest first.
    function Contents(): (c: seq<Event>)
      requires WellFormed()
      ensures |c| == size
      ensures forall i | 0 <= i < size :: c[i] == buffer[Index(head + i, Capacity())]
    {
      seq(size, i requires 0 <= i < size => buffer[Index(head + i, Capacity())])
    }

    // The three statements of a push, once there is room.
    function Put(e: Event): Ring
      requires WellFormed()
    {
      this.(buffer := buffer[tail := e], tail := Index(tail + 1, Capacity()), size := size + 1)
    }

    function Oldest(): Event
      requires WellFormed()
    {
      buffer[head]
    }

    // The statements of a pop, once there is an event.
    function Drop(): Ring
      requires WellFormed() && 0 < size
    {
      this.(head := Index(head + 1, Capacity()), size := size - 1)
    }
  }

  function EmptyRing(capacity: nat): Ring {
    Ring(seq(capacity, _ => ZERO_EVENT), 0, 0, 0, false)
  }

  lemma EmptyRingContents(capacity: nat)
    requires 0 < capacity
    ensures EmptyRing(capacity).WellFormed()
    ensures EmptyRing(capacity).Contents() == []
    ensures EmptyRing(capacity).Capacity() == capacity && !EmptyRing(capacity).closed
  {
  }

  lemma PutAppends(r: Ring, e: Event)
    requires r.WellFormed() && r.size < r.Capacity()
    ensures r.Put(e).WellFormed()
    ensures r.Put(e).Contents() == r.Contents() + [e]
  {
    var q := r.Put(e);
    forall i | 0 <= i < q.size
      ensures q.Contents()[i] == (r.Contents() + [e])[i]
    {
    }
  }

  lemma DropRemovesOldest(r: Ring)
    requires r.WellFormed() && 0 < r.size
    ensures r.Drop().WellFormed()
    ensures r.Contents() == [r.Oldest()] + r.Drop().Contents()
  {
    var q := r.Drop();
    forall i | 0 <= i < q.size
      ensures q.Contents()[i] == r.Contents()[i + 1]
    {
    }
  }

  // Closing touches no cell.
  lemma CloseKeepsContents(r: Ring)
    requires r.WellFormed()
    ensures r.(closed := true).WellFormed() && r.(closed := true).Contents() == r.Contents()
  {
    assert forall i | 0 <= i < r.size :: r.(closed := true).Contents()[i] == r.Contents()[i];
  }

  // What a call made by the only running thread comes to. `Blocked` is the wait that only
  // another thread can end.
  datatype Outcome = Done | Refused | Blocked

  class EventQueue {
    var buffer: array<Event>
    var head: nat
    var tail: nat
    var size: nat
    var closed: bool
    ghost var contents: seq<Event>

    ghost function View(): Ring
      reads this, buffer
    {
      Ring(buffer[..], head, tail, size, closed)
    }

    ghost predicate Valid()
      reads this, buffer
    {
      View().WellFormed() && contents == View().Contents()
    }

    constructor (capacity: nat)
      requires 0 < capacity
      ensures Valid() && fresh(buffer)
      ensures contents == [] && View() == EmptyRing(capacity)
    {
      buffer := new Event[capacity](_ => ZERO_EVENT);
      head, tail, size, closed := 0, 0, 0, false;
      contents := [];
      new;
      assert buffer[..] == seq(capacity, _ => ZERO_EVENT);
      EmptyRingContents(capacity);
    }

    // yurei_queue_init: a zero capacity is refused.
    static method Init(capacity: nat) returns (q: EventQueue?)
      ensures q == null <==> capacity == 0
      ensures q != null ==> fresh(q) && fresh(q.buffer) && q.Valid()
      ensures q != null ==> q.contents == [] && !q.closed && q.View().Capacity() == capacity
    {
      if capacity == 0 {
        return null;
      }
      q := new EventQueue(capacity);
    }

    method Push(e: Event) returns (r: Outcome)
      requires Valid()
      modifies this, buffer
      ensures Valid() && buffer == old(buffer) && closed == old(closed)
      ensures r == Refused <==> old(closed)
      ensures r == Blocked <==> !old(closed) && |old(contents)| == buffer.Length
      ensures contents == if r == Done then old(contents) + [e] else old(contents)
      ensures View() == if r == Done then old(View()).Put(e) else old(View())
    {
      if size == buffer.Length && !closed {
        return Blocked;
      }
      if closed {
        return Refused;
      }
      PutAppends(View(), e);
      IndexIsRemainder(tail + 1, buffer.Length);
      ghost var was := buffer[..];
      buffer[tail] := e;
      tail := (tail + 1) % buffer.Length;
      size := size + 1;
      contents := contents + [e];
      assert buffer[..] == was[old(tail) := e];
      return Done;
    }

    method Pop() returns (r: Outcome, e: Event)
      requires Valid()
      modifies this
      ensures Valid() && buffer == old(buffer) && closed == old(closed)
      ensures r == Refused <==> old(closed) && old(contents) == []
      ensures r == Blocked <==> !old(closed) && old(contents) == []
      ensures r == Done ==> old(contents) == [e] + contents && View() == old(View()).Drop()
      ensures r != Done ==> contents == old(contents) && View() == old(View())
    {
      e := ZERO_EVENT;
      if size == 0 && !closed {
        return Blocked, e;
      }
      if size == 0 && closed {
        return Refused, e;
      }
      DropRemovesOldest(View());
      IndexIsRemainder(head + 1, buffer.Length);
      e := buffer[head];
      head := (head + 1) % buffer.Length;
      size := size - 1;
      contents := contents[1..];
      return Done, e;
    }

    method Close()
      requires Valid()
      modifies this`closed
      ensures Valid() && closed
      ensures contents == old(contents) && View() == old(View()).(closed := true)
    {
      CloseKeepsContents(View());
      closed := true;
    }
  }
}
