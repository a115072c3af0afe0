/** What the reply protocol keeps on every run, also on those where a handler returns between the two
    writes of its completion. With txn_done written first, forget the results: a completion is then over
    with its first write, and every run is a run of the protocol that completes in one step. */
module ReplyAlways {
  import opened Ring
  import opened Ledger
  import opened ReplyProtocol
  import L = ReplyLaws

  function Forgotten(at: Hand): Hand {
    match at
    case Ran(txn, _) => Hand.Ran(txn, SUCCESS)
    case Half(_, _) => Hand.Empty
    case _ => at
  }

  function Forget(c: Core): Core {
    c.(cells := map h | h in c.cells :: Cell(c.cells[h].done, SUCCESS),
       hands := map p | p in c.hands :: Forgotten(c.hands[p]),
       outcomes := map t | t in c.outcomes :: SUCCESS)
  }

  /** What every reachable state keeps. */
  ghost predicate Kept(c: Core, order: WriteOrder) {
    if order == DoneFirst then Inv(Forget(c), OneStep) else Inv(c, order)
  }

  function ForgetMove(m: Move): Move {
    if m.Run? then Move.Run(m.p, SUCCESS) else m
  }

  predicate SecondWrite(c: Core, m: Move) {
    m.Write? && m.p in c.hands && c.hands[m.p].Half?
  }

  lemma ForgetCommutes(c: Core, m: Move)
    requires Can(c, m)
    ensures SecondWrite(c, m) ==> Forget(Do(c, m, DoneFirst)) == Forget(c)
    ensures !SecondWrite(c, m) ==> Can(Forget(c), ForgetMove(m))
    ensures !SecondWrite(c, m) ==> Forget(Do(c, m, DoneFirst)) == Do(Forget(c), ForgetMove(m), OneStep)
  {
    match m
    case Call(h, request) => ForgetCall(c, h, request);
    case Put(_) =>
    case Skip(_) =>
    case Take(p) => ForgetTake(c, p);
    case Run(p, rc) => ForgetRun(c, p, rc);
    case Write(p) => ForgetWrite(c, p);
    case Return(_) =>
  }

  lemma ForgetCall(c: Core, h: nat, request: Request)
    requires Can(c, Call(h, request))
    ensures Forget(Do(c, Call(h, request), DoneFirst)) == Do(Forget(c), Call(h, request), OneStep)
  {
  }

  lemma ForgetTake(c: Core, p: nat)
    requires Can(c, Take(p))
    ensures Can(Forget(c), Take(p)) && Forget(Do(c, Take(p), DoneFirst)) == Do(Forget(c), Take(p), OneStep)
  {
  }

  lemma ForgetRun(c: Core, p: nat, rc: int)
    requires Can(c, Move.Run(p, rc))
    ensures Can(Forget(c), Move.Run(p, SUCCESS))
    ensures Forget(Do(c, Move.Run(p, rc), DoneFirst)) == Do(Forget(c), Move.Run(p, SUCCESS), OneStep)
  {
    var f := Forget(Do(c, Move.Run(p, rc), DoneFirst));
    assert f.hands == Forget(c).hands[p := Ran(c.hands[p].txn, SUCCESS)];
    assert f.outcomes == Forget(c).outcomes[c.hands[p].txn.ticket := SUCCESS];
  }

  lemma ForgetWrite(c: Core, p: nat)
    requires Can(c, Write(p))
    ensures c.hands[p].Half? ==> Forget(Do(c, Write(p), DoneFirst)) == Forget(c)
    ensures !c.hands[p].Half? ==> Can(Forget(c), Write(p))
    ensures !c.hands[p].Half? ==> Forget(Do(c, Write(p), DoneFirst)) == Do(Forget(c), Write(p), OneStep)
  {
  }

  /** Every move keeps it, for every write order, wherever handlers return. */
  lemma MoveKept(c: Core, m: Move, order: WriteOrder)
    requires Kept(c, order) && Can(c, m)
    ensures Kept(Do(c, m, order), order)
  {
    if order == DoneFirst {
      ForgetCommutes(c, m);
      if !SecondWrite(c, m) {
        MoveKeptOtherwise(Forget(c), ForgetMove(m), OneStep);
      }
    } else {
      MoveKeptOtherwise(c, m, order);
    }
  }

  lemma MoveKeptOtherwise(c: Core, m: Move, order: WriteOrder)
    requires Inv(c, order) && Can(c, m) && order != DoneFirst
    ensures Inv(Do(c, m, order), order)
  {
    if m.Return? {
      L.NoReturnInWindow(c, order, m.h);
    }
    MoveKeeps(c, m, order);
  }

  /** Exactly once, on every run and for every write order: the txn_done of a waiting handler is pointed to
      from one place in the queue, or by one thread that has yet to set it, and not both; that of any other
      handler from neither. For txn_rc the code's order promises less: see ReplyResults.DanglingIsHalf. */
  lemma ExactlyOnce(c: Core, order: WriteOrder, h: nat)
    requires Kept(c, order)
    ensures L.Waiting(c, h) <==> (exists i :: L.QueuedAt(c, h, i)) || (exists p :: L.HeldBy(c, order, h, p))
    ensures (exists i :: L.QueuedAt(c, h, i)) ==> !exists p :: L.HeldBy(c, order, h, p)
    ensures forall i, j :: L.QueuedAt(c, h, i) && L.QueuedAt(c, h, j) ==> i == j
    ensures forall p, q :: L.HeldBy(c, order, h, p) && L.HeldBy(c, order, h, q) ==> p == q
  {
    if order == DoneFirst {
      L.ExactlyOnce(Forget(c), OneStep, h);
      assert L.Waiting(Forget(c), h) == L.Waiting(c, h);
      assert forall i :: L.QueuedAt(Forget(c), h, i) == L.QueuedAt(c, h, i);
      assert forall p :: L.HeldBy(Forget(c), OneStep, h, p) == L.HeldBy(c, order, h, p);
    } else {
      L.ExactlyOnce(c, order, h);
    }
  }

  /** On every run the queue holds no more user transactions than there are handlers waiting. */
  lemma OccupancyBound(c: Core, order: WriteOrder)
    requires Kept(c, order)
    ensures var waiting := set h | h in c.handlers && L.Waiting(c, h);
            |c.puts| - c.takes <= |waiting| <= |c.handlers|
  {
    if order == DoneFirst {
      L.OccupancyBound(Forget(c), OneStep);
      assert (set h | h in c.handlers && L.Waiting(Forget(c), h)) == (set h | h in c.handlers && L.Waiting(c, h));
    } else {
      L.OccupancyBound(c, order);
    }
  }

  lemma RoomForEntering(c: Core, order: WriteOrder, h: nat)
    requires Kept(c, order) && h in c.handlers && !c.handlers[h].Spinning?
    ensures |c.puts| - c.takes < |c.handlers|
  {
    if order == DoneFirst {
      L.RoomForEntering(Forget(c), OneStep, h);
    } else {
      L.RoomForEntering(c, order, h);
    }
  }

  /** On every run, a handler returns only after its own request met the database. */
  lemma ReturnsOwn(c: Core, order: WriteOrder, h: nat)
    requires Kept(c, order) && Can(c, Return(h))
    ensures var t := c.handlers[h].ticket;
            1 <= t <= c.takes && c.puts[t - 1] == Entry(t, UserTxn(h, c.handlers[h].request)) && t in c.outcomes
  {
    if order == DoneFirst {
      L.CleanVerdict(Forget(c), OneStep, h);
    } else {
      L.CleanVerdict(c, order, h);
    }
  }

  /** The owner of a transaction a thread holds waits for it, unless the code's order let it go between
      the two writes. */
  lemma WaitsForHeld(c: Core, order: WriteOrder, p: nat)
    requires Kept(c, order) && p in c.hands && !c.hands[p].Empty? && (order == DoneFirst ==> !c.hands[p].Half?)
    ensures var txn := c.hands[p].txn; var h := txn.body.owner;
            txn.ticket > 0 && h in c.handlers && c.handlers[h] == Spinning(txn.body.request, txn.ticket)
    ensures c.hands[p].Got? ==> c.hands[p].txn.ticket !in c.outcomes
  {
    if order == DoneFirst {
      assert HandOk(Forget(c), OneStep, p);
    } else {
      assert HandOk(c, order, p);
    }
  }

  lemma EnteringNotDone(c: Core, order: WriteOrder, h: nat)
    requires Kept(c, order) && h in c.handlers && c.handlers[h].Entering?
    ensures h in c.cells && !c.cells[h].done
  {
    if order == DoneFirst {
      assert HandlerOk(Forget(c), h);
    } else {
      assert HandlerOk(c, h);
    }
  }

  /** Only dequeued transactions have results. */
  lemma KnownTickets(c: Core, order: WriteOrder)
    requires Kept(c, order)
    ensures forall t :: t in c.outcomes ==> 1 <= t <= c.takes <= |c.puts|
  {
    assert forall t :: t in c.outcomes ==> t in Forget(c).outcomes;
  }

  lemma TicketsInOrder(c: Core, order: WriteOrder)
    requires Kept(c, order)
    ensures c.takes <= |c.puts| && forall i :: 0 <= i < |c.puts| ==> c.puts[i].ticket == i + 1
  {
    assert Forget(c).puts == c.puts;
  }

  /** A ticket is the number of one transaction. */
  lemma OneOwner(c: Core, order: WriteOrder, h: nat, g: nat)
    requires Kept(c, order) && h in c.handlers && c.handlers[h].Spinning? && g in c.handlers && c.handlers[g].Spinning?
    requires c.handlers[h].ticket == c.handlers[g].ticket > 0
    ensures g == h
  {
  }

  /** A handler whose enqueue failed is never told that it is done. */
  lemma SkippedNeverReturns(c: Core, order: WriteOrder, h: nat)
    requires Kept(c, order) && h in c.handlers && c.handlers[h].Spinning? && c.handlers[h].ticket == 0
    ensures !Can(c, Return(h))
    ensures forall m :: Can(c, m) ==> h in Do(c, m, order).handlers && Do(c, m, order).handlers[h] == c.handlers[h]
  {
    if order == DoneFirst {
      L.SkippedNeverReturns(Forget(c), OneStep, h);
    } else {
      L.SkippedNeverReturns(c, order, h);
    }
  }
}
