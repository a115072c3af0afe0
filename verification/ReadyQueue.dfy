/** chronos_queue_t: the ready queue of chronos_queue.c as the object whose fields both
    sides of the protocol update in place under its mutex. */
module ReadyQueue {
  import opened Ring

  /** One operation of another thread while the caller is blocked on a condition variable. */
  datatype Op<T> = OtherPut(body: T) | OtherTake

  /** One return from pthread_cond_timedwait: what the others did meanwhile, and what
      timeToDieFp() then answers. */
  datatype Turn<T> = Turn(ops: seq<Op<T>>, die: bool)

  /** Passed is a completed call, Asked one that returns CHRONOS_FAIL because the process was
      asked to die, and Blocked one that is still waiting when the given turns are over. */
  datatype Outcome<R> = Passed(value: R) | Asked | Blocked

  /** An operation of another thread; one that finds no room or no work waits, and changes nothing. */
  function OtherStep<T>(r: Ring<T>, op: Op<T>): (r': Ring<T>)
    requires Valid(r)
    ensures Valid(r')
  {
    match op
    case OtherPut(body) => if r.occupied >= SIZE then r else (EnqueuedRefines(r, body); Enqueued(r, body))
    case OtherTake => if r.occupied <= 0 then r else (DequeuedRefines(r); Dequeued(r))
  }

  function Others<T>(r: Ring<T>, ops: seq<Op<T>>): (r': Ring<T>)
    requires Valid(r)
    ensures Valid(r')
    decreases |ops|
  {
    if ops == [] then r else Others(OtherStep(r, ops[0]), ops[1..])
  }

  /** The dequeue call over the given turns: its outcome and the ring it leaves. */
  function DequeueRun<T>(r: Ring<T>, turns: seq<Turn<T>>): (res: (Outcome<Entry<T>>, Ring<T>))
    requires Valid(r)
    decreases |turns|
  {
    if r.occupied > 0 then (Passed(Head(r)), Dequeued(r))
    else if turns == [] then (Blocked, r)
    else
      var r1 := Others(r, turns[0].ops);
      if turns[0].die then (Asked, r1) else DequeueRun(r1, turns[1..])
  }

  /** The enqueue call over the given turns: its outcome, the ticket, and the ring it leaves. */
  function EnqueueRun<T>(r: Ring<T>, body: T, turns: seq<Turn<T>>): (res: (Outcome<nat>, Ring<T>))
    requires Valid(r)
    decreases |turns|
  {
    if r.occupied < SIZE then (Passed(r.ticketReq + 1), Enqueued(r, body))
    else if turns == [] then (Blocked, r)
    else
      var r1 := Others(r, turns[0].ops);
      if turns[0].die then (Asked, r1) else EnqueueRun(r1, body, turns[1..])
  }

  /** The operations of the others, over all the turns. */
  function AllOps<T>(turns: seq<Turn<T>>): seq<Op<T>> {
    if turns == [] then [] else turns[0].ops + AllOps(turns[1..])
  }

  lemma {:induction false} OthersCompose<T>(r: Ring<T>, a: seq<Op<T>>, b: seq<Op<T>>)
    requires Valid(r)
    ensures Others(r, a + b) == Others(Others(r, a), b)
    decreases |a|
  {
    if a == [] {
      assert a + b == b;
    } else {
      assert (a + b)[1..] == a[1..] + b;
      OthersCompose(OtherStep(r, a[0]), a[1..], b);
    }
  }

  /** A dequeue either takes the head of the ring that the others left after some of the turns,
      which is then nonempty, or leaves exactly what the others left: an aborted wait changes
      nothing. */
  lemma {:induction false} DequeueOutcome<T>(r: Ring<T>, turns: seq<Turn<T>>)
    returns (k: nat)
    requires Valid(r)
    ensures k <= |turns|
    ensures var (out, r') := DequeueRun(r, turns); var seen := Others(r, AllOps(turns[..k]));
            && Valid(r')
            && (out.Passed? ==> Contents(seen) == [out.value] + Contents(r'))
            && (!out.Passed? ==> r' == seen && (out.Asked? ==> k > 0 && turns[k - 1].die))
            && (out.Blocked? ==> k == |turns| && r'.occupied == 0)
    decreases |turns|
  {
    if r.occupied > 0 {
      DequeuedRefines(r);
      k := 0;
    } else if turns == [] {
      k := 0;
    } else {
      var r1 := Others(r, turns[0].ops);
      if turns[0].die {
        k := 1;
        assert turns[..1] == [turns[0]];
        assert AllOps(turns[..1][1..]) == [];
        assert AllOps(turns[..1]) == turns[0].ops;
      } else {
        var j := DequeueOutcome(r1, turns[1..]);
        k := j + 1;
        assert turns[..k][1..] == turns[1..][..j];
        OthersCompose(r, turns[0].ops, AllOps(turns[1..][..j]));
      }
    }
  }

  /** The same for an enqueue: it appends the next ticket after what the others left, or changes nothing. */
  lemma {:induction false} EnqueueOutcome<T>(r: Ring<T>, body: T, turns: seq<Turn<T>>)
    returns (k: nat)
    requires Valid(r)
    ensures k <= |turns|
    ensures var (out, r') := EnqueueRun(r, body, turns); var seen := Others(r, AllOps(turns[..k]));
            && Valid(r')
            && (out.Passed? ==> out.value == seen.ticketReq + 1)
            && (out.Passed? ==> Contents(r') == Contents(seen) + [Entry(out.value, body)])
            && (!out.Passed? ==> r' == seen && (out.Asked? ==> k > 0 && turns[k - 1].die))
            && (out.Blocked? ==> k == |turns| && r'.occupied == SIZE)
    decreases |turns|
  {
    if r.occupied < SIZE {
      EnqueuedRefines(r, body);
      k := 0;
    } else if turns == [] {
      k := 0;
    } else {
      var r1 := Others(r, turns[0].ops);
      if turns[0].die {
        k := 1;
        assert turns[..1] == [turns[0]];
        assert AllOps(turns[..1][1..]) == [];
        assert AllOps(turns[..1]) == turns[0].ops;
      } else {
        var j := EnqueueOutcome(r1, body, turns[1..]);
        k := j + 1;
        assert turns[..k][1..] == turns[1..][..j];
        OthersCompose(r, turns[0].ops, AllOps(turns[1..][..j]));
      }
    }
  }

  class ReadyQueue<T(0)> {
    const txnInfoArr: array<Entry<T>>
    var occupied: nat
    var nextin: nat
    var nextout: nat
    var ticketReq: nat

    /** The ring the fields hold. */
    ghost function View(): Ring<T>
      reads this, txnInfoArr
    {
      Ring(txnInfoArr[..], nextin, nextout, occupied, ticketReq)
    }

    constructor ()
      ensures fresh(txnInfoArr) && Valid(View()) && Contents(View()) == [] && ticketReq == 0
    {
      txnInfoArr := new Entry<T>[SIZE];
      occupied, nextin, nextout, ticketReq := 0, 0, 0, 0;
    }

    /** The critical section after the wait loop of chronos_enqueue_transaction. */
    method Put(body: T) returns (ticket: nat)
      requires Valid(View()) && occupied < SIZE
      modifies this, txnInfoArr
      ensures View() == Enqueued(old(View()), body) && Valid(View())
      ensures ticket == old(ticketReq) + 1
      ensures Contents(View()) == old(Contents(View())) + [Entry(ticket, body)]
    {
      ghost var before := View();
      ticketReq := ticketReq + 1;
      txnInfoArr[nextin] := Entry(ticketReq, body);
      ticket := ticketReq;
      nextin := nextin + 1;
      nextin := nextin % SIZE;
      occupied := occupied + 1;
      assert txnInfoArr[..] == before.slots[before.nextin := Entry(ticket, body)];
      EnqueuedRefines(before, body);
    }

    /** The critical section after the wait loop of chronos_dequeue_transaction. */
    method Take() returns (txn: Entry<T>)
      requires Valid(View()) && occupied > 0
      modifies this
      ensures View() == Dequeued(old(View())) && Valid(View())
      ensures [txn] + Contents(View()) == old(Contents(View()))
      ensures txn == Head(old(View()))
    {
      DequeuedRefines(View());
      txn := txnInfoArr[nextout];
      nextout := nextout + 1;
      nextout := nextout % SIZE;
      occupied := occupied - 1;
    }

    /** What other threads do to the queue while the caller has released the mutex in a wait. */
    method Interfere(ops: seq<Op<T>>)
      requires Valid(View())
      modifies this, txnInfoArr
      ensures View() == Others(old(View()), ops)
    {
      ghost var start := View();
      for i := 0 to |ops|
        invariant Valid(View())
        invariant Others(start, ops) == Others(View(), ops[i..])
      {
        assert ops[i..][1..] == ops[i + 1..];
        match ops[i]
        case OtherPut(body) => if occupied < SIZE { var _ := Put(body); }
        case OtherTake => if occupied > 0 { var _ := Take(); }
      }
      assert ops[|ops|..] == [];
    }

    /** chronos_dequeue_transaction, against the turns its waits take. */
    method Dequeue(turns: seq<Turn<T>>) returns (out: Outcome<Entry<T>>)
      requires Valid(View())
      modifies this, txnInfoArr
      ensures (out, View()) == DequeueRun(old(View()), turns)
    {
      ghost var start := View();
      var k := 0;
      assert turns[0..] == turns;
      while occupied <= 0
        invariant 0 <= k <= |turns|
        invariant Valid(View())
        invariant DequeueRun(start, turns) == DequeueRun(View(), turns[k..])
        decreases |turns| - k
      {
        if k == |turns| {
          return Blocked;
        }
        Interfere(turns[k].ops);
        assert turns[k..][1..] == turns[k + 1..];
        if turns[k].die {
          return Asked;
        }
        k := k + 1;
      }
      var txn := Take();
      return Passed(txn);
    }

    /** chronos_enqueue_transaction, against the turns its waits take. */
    method Enqueue(body: T, turns: seq<Turn<T>>) returns (out: Outcome<nat>)
      requires Valid(View())
      modifies this, txnInfoArr
      ensures (out, View()) == EnqueueRun(old(View()), body, turns)
    {
      ghost var start := View();
      var k := 0;
      assert turns[0..] == turns;
      while occupied >= SIZE
        invariant 0 <= k <= |turns|
        invariant Valid(View())
        invariant EnqueueRun(start, body, turns) == EnqueueRun(View(), body, turns[k..])
        decreases |turns| - k
      {
        if k == |turns| {
          return Blocked;
        }
        Interfere(turns[k].ops);
        assert turns[k..][1..] == turns[k + 1..];
        if turns[k].die {
          return Asked;
        }
        k := k + 1;
      }
      var ticket := Put(body);
      return Passed(ticket);
    }
  }
}
