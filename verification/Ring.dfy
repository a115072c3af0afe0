/** The ready queue of chronos_queue.c as a value: a ring of CHRONOS_READY_QUEUE_SIZE slots
    with tickets, and the sequence it stands for. */
module Ring {

  const SIZE: nat := 1024

  datatype Entry<T> = Entry(ticket: nat, body: T)

  datatype Ring<T> = Ring(slots: seq<Entry<T>>, nextin: nat, nextout: nat, occupied: nat, ticketReq: nat)

  /** The slot that holds the i-th oldest entry of a ring whose oldest slot is nextout. */
  function Slot(nextout: nat, i: nat): nat {
    (nextout + i) % SIZE
  }

  ghost predicate Valid<T>(r: Ring<T>) {
    && |r.slots| == SIZE
    && r.nextin < SIZE && r.nextout < SIZE && r.occupied <= SIZE
    && r.nextin == Slot(r.nextout, r.occupied)
    && r.occupied <= r.ticketReq
    && forall i: nat :: i < r.occupied ==> r.slots[Slot(r.nextout, i)].ticket == r.ticketReq - r.occupied + 1 + i
  }

  /** The entries of the ring, oldest first. */
  function Contents<T>(r: Ring<T>): (q: seq<Entry<T>>)
    requires |r.slots| == SIZE
    ensures |q| == r.occupied
  {
    seq(r.occupied, i requires 0 <= i => r.slots[Slot(r.nextout, i)])
  }

  function Empty<T>(slots: seq<Entry<T>>): Ring<T> {
    Ring(slots, 0, 0, 0, 0)
  }

  /** What chronos_enqueue_transaction does once there is room. */
  function Enqueued<T>(r: Ring<T>, body: T): Ring<T>
    requires |r.slots| == SIZE && r.nextin < SIZE
  {
    Ring(r.slots[r.nextin := Entry(r.ticketReq + 1, body)],
         (r.nextin + 1) % SIZE, r.nextout, r.occupied + 1, r.ticketReq + 1)
  }

  /** What chronos_dequeue_transaction does once there is work: the entry copied out is Head. */
  function Head<T>(r: Ring<T>): Entry<T>
    requires |r.slots| == SIZE && r.nextout < SIZE
  {
    r.slots[r.nextout]
  }

  function Dequeued<T>(r: Ring<T>): Ring<T>
    requires r.occupied > 0
  {
    r.(nextout := (r.nextout + 1) % SIZE, occupied := r.occupied - 1)
  }

  lemma SlotIs(nextout: nat, i: nat)
    requires nextout < SIZE && i <= SIZE
    ensures Slot(nextout, i) == if nextout + i < SIZE then nextout + i else nextout + i - SIZE
  {
  }

  lemma SlotsApart(nextout: nat, i: nat, j: nat)
    requires nextout < SIZE && i < j < SIZE
    ensures Slot(nextout, i) != Slot(nextout, j)
  {
    SlotIs(nextout, i);
    SlotIs(nextout, j);
  }

  lemma NextSlot(nextout: nat, i: nat)
    requires nextout < SIZE && i < SIZE
    ensures (Slot(nextout, i) + 1) % SIZE == Slot(nextout, i + 1) == Slot((nextout + 1) % SIZE, i)
  {
    SlotIs(nextout, i);
    SlotIs(nextout, i + 1);
    SlotIs((nextout + 1) % SIZE, i);
  }

  /** Enqueue refines appending the next ticket to the sequence. */
  lemma EnqueuedRefines<T>(r: Ring<T>, body: T)
    requires Valid(r) && r.occupied < SIZE
    ensures Valid(Enqueued(r, body))
    ensures Contents(Enqueued(r, body)) == Contents(r) + [Entry(r.ticketReq + 1, body)]
  {
    var p := Enqueued(r, body);
    forall i: nat | i < r.occupied ensures p.slots[Slot(r.nextout, i)] == r.slots[Slot(r.nextout, i)] {
      SlotsApart(r.nextout, i, r.occupied);
    }
    NextSlot(r.nextout, r.occupied);
    assert Contents(p) == Contents(r) + [Entry(r.ticketReq + 1, body)];
  }

  /** Dequeue refines removing the oldest entry of the sequence. */
  lemma DequeuedRefines<T>(r: Ring<T>)
    requires Valid(r) && r.occupied > 0
    ensures Valid(Dequeued(r))
    ensures Contents(r) == [Head(r)] + Contents(Dequeued(r))
    ensures Head(r).ticket == r.ticketReq - r.occupied + 1
  {
    var t := Dequeued(r);
    forall i: nat | i <= t.occupied ensures Slot(t.nextout, i) == Slot(r.nextout, i + 1) {
      NextSlot(r.nextout, i);
    }
    assert Slot(r.nextout, 0) == r.nextout;
  }
}
