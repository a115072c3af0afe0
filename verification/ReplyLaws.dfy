/** What the reply protocol guarantees in every state it keeps. */
module ReplyLaws {
  import opened Ring
  import opened Ledger
  import opened ReplyProtocol

  /** The handler waits for the result of a request that was enqueued. */
  predicate Waiting(c: Core, h: nat) {
    && h in c.handlers && c.handlers[h].Spinning? && c.handlers[h].ticket > 0
    && h in c.cells && !c.cells[h].done
  }

  ghost predicate QueuedAt(c: Core, h: nat, i: int) {
    c.takes <= i < |c.puts| && c.puts[i].body.owner == h
  }

  /** Thread p has yet to tell the handler that its transaction is over: to set its txn_done, which the
      code's order does first. */
  ghost predicate HeldBy(c: Core, order: WriteOrder, h: nat, p: nat) {
    && p in c.hands && !c.hands[p].Empty? && c.hands[p].txn.body.owner == h
    && (order == DoneFirst ==> !c.hands[p].Half?)
  }

  /** Exactly once: the cells of a waiting handler are pointed to from one place in the queue, or by one
      thread, and not both; the cells of any other handler from nowhere. */
  lemma ExactlyOnce(c: Core, order: WriteOrder, h: nat)
    requires Inv(c, order)
    ensures Waiting(c, h) <==> (exists i :: QueuedAt(c, h, i)) || (exists p :: HeldBy(c, order, h, p))
    ensures (exists i :: QueuedAt(c, h, i)) ==> !exists p :: HeldBy(c, order, h, p)
    ensures forall i, j :: QueuedAt(c, h, i) && QueuedAt(c, h, j) ==> i == j
    ensures forall p, q :: HeldBy(c, order, h, p) && HeldBy(c, order, h, q) ==> p == q
  {
    forall i | QueuedAt(c, h, i) ensures Waiting(c, h) && c.handlers[h].ticket == i + 1 {
      assert Awaited(c, c.puts[i], Cell(false, 0));
    }
    forall p | HeldBy(c, order, h, p)
      ensures Waiting(c, h) && 1 <= c.handlers[h].ticket <= c.takes && c.takenBy[c.handlers[h].ticket - 1] == p
    {
      assert HandOk(c, order, p);
    }
    if Waiting(c, h) {
      assert HandlerOk(c, h);
      var t := c.handlers[h].ticket;
      if t > c.takes {
        assert QueuedAt(c, h, t - 1);
      } else {
        assert HandOk(c, order, c.takenBy[t - 1]);
        assert HeldBy(c, order, h, c.takenBy[t - 1]);
      }
    }
  }

  /** The handlers that own the entries of the queue from position n on. */
  ghost function Owners(c: Core, n: nat): set<nat>
    requires n <= |c.puts|
    decreases |c.puts| - n
  {
    if n == |c.puts| then {} else {c.puts[n].body.owner} + Owners(c, n + 1)
  }

  /** The owners from position n on are those of the queue entries there. */
  lemma {:induction false} OwnersAre(c: Core, n: nat, h: nat)
    requires c.takes <= n <= |c.puts|
    ensures h in Owners(c, n) <==> exists i :: n <= i && QueuedAt(c, h, i)
    decreases |c.puts| - n
  {
    if n < |c.puts| {
      OwnersAre(c, n + 1, h);
      assert QueuedAt(c, c.puts[n].body.owner, n);
      if i :| n <= i && QueuedAt(c, h, i) {
        assert i == n || n + 1 <= i;
      }
    }
  }

  lemma {:induction false} OwnersDistinct(c: Core, order: WriteOrder, n: nat)
    requires Inv(c, order) && c.takes <= n <= |c.puts|
    ensures |Owners(c, n)| == |c.puts| - n
    decreases |c.puts| - n
  {
    if n < |c.puts| {
      var g := c.puts[n].body.owner;
      OwnersDistinct(c, order, n + 1);
      OwnersAre(c, n + 1, g);
      ExactlyOnce(c, order, g);
      assert QueuedAt(c, g, n);
    }
  }

  lemma {:induction false} Fewer(a: set<nat>, b: set<nat>)
    requires a <= b
    ensures |a| <= |b|
    ensures |a| == |b| ==> a == b
  {
    if x :| x in a {
      Fewer(a - {x}, b - {x});
    }
  }

  /** The queue never holds more user transactions than there are handlers waiting. */
  lemma OccupancyBound(c: Core, order: WriteOrder)
    requires Inv(c, order)
    ensures var waiting := set h | h in c.handlers && Waiting(c, h);
            |c.puts| - c.takes <= |waiting| <= |c.handlers|
  {
    var waiting := set h | h in c.handlers && Waiting(c, h);
    OwnersDistinct(c, order, c.takes);
    forall h | h in Owners(c, c.takes) ensures h in waiting {
      OwnersAre(c, c.takes, h);
      ExactlyOnce(c, order, h);
    }
    Fewer(Owners(c, c.takes), waiting);
    Fewer(waiting, c.handlers.Keys);
  }

  /** So a handler about to enqueue finds fewer entries than there are handlers. */
  lemma RoomForEntering(c: Core, order: WriteOrder, h: nat)
    requires Inv(c, order) && h in c.handlers && !c.handlers[h].Spinning?
    ensures |c.puts| - c.takes < |c.handlers|
  {
    var waiting := set g | g in c.handlers && Waiting(c, g);
    OccupancyBound(c, order);
    Fewer(waiting, c.handlers.Keys);
    assert h !in waiting;
  }

  /** With the result written first, or both cells written at once, no handler can return inside a
      window: txn_done is still clear. */
  lemma NoReturnInWindow(c: Core, order: WriteOrder, h: nat)
    requires Inv(c, order) && order != DoneFirst && Can(c, Return(h))
    ensures !InWindow(c.hands, h)
  {
  }

  /** As long as no handler has returned between two writes for it, a returning handler reads the result of
      its own request if and only if no thread is still about to write it, or that result is success, the
      value the cell starts with. After an early return this no longer holds; ReplyResults.ReturnVerdict
      says what a handler reads in every reachable state. */
  lemma CleanVerdict(c: Core, order: WriteOrder, h: nat)
    requires Inv(c, order) && Can(c, Return(h))
    ensures var t := c.handlers[h].ticket;
            && 1 <= t <= c.takes && c.puts[t - 1] == Entry(t, UserTxn(h, c.handlers[h].request))
            && t in c.outcomes
            && (c.cells[h].rc == c.outcomes[t] <==> !InWindow(c.hands, h) || c.outcomes[t] == SUCCESS)
  {
  }

  /** A handler whose enqueue failed is never told that it is done. */
  lemma SkippedNeverReturns(c: Core, order: WriteOrder, h: nat)
    requires Inv(c, order) && h in c.handlers && c.handlers[h].Spinning? && c.handlers[h].ticket == 0
    ensures !Can(c, Return(h))
    ensures forall m :: Can(c, m) ==> h in Do(c, m, order).handlers && Do(c, m, order).handlers[h] == c.handlers[h]
  {
  }
}
