/** Which result a handler reads, on every run and for every order of the two writes. */
module ReplyResults {
  import opened Ring
  import opened Ledger
  import opened ReplyProtocol
  import A = ReplyAlways

  /** History: for each handler, the ticket whose result was stored last in its txn_rc since its call, or
      0 if none was. */
  function Landing(c: Core, landed: map<nat, nat>, m: Move, order: WriteOrder): map<nat, nat>
    requires Can(c, m)
  {
    match m
    case Call(h, _) => landed[h := 0]
    case Write(p) =>
      if Stores(order, c.hands[p].Ran?) then landed[c.hands[p].txn.body.owner := c.hands[p].txn.ticket] else landed
    case _ => landed
  }

  /** The value the history gives. */
  function Stored(c: Core, u: nat): int
    requires u > 0 ==> u in c.outcomes
  {
    if u == 0 then SUCCESS else c.outcomes[u]
  }

  /** The txn_rc of a handler holds what was stored in it last. */
  ghost predicate CellOk(c: Core, landed: map<nat, nat>, h: nat) {
    h in c.cells ==>
      && h in landed
      && (landed[h] > 0 ==> landed[h] <= |c.puts| && c.puts[landed[h] - 1].body.owner == h && landed[h] in c.outcomes)
      && c.cells[h].rc == Stored(c, landed[h])
  }

  /** What a thread holds is what it dequeued last, and its result is the one on record. */
  ghost predicate HeldOk(c: Core, p: nat) {
    p in c.hands && !c.hands[p].Empty? ==>
      && 1 <= c.hands[p].txn.ticket <= |c.puts|
      && c.puts[c.hands[p].txn.ticket - 1] == c.hands[p].txn
      && (!c.hands[p].Got? ==> c.hands[p].txn.ticket in c.outcomes)
      && (!c.hands[p].Got? ==> c.outcomes[c.hands[p].txn.ticket] == c.hands[p].rc)
  }

  /** The request a handler waits for is its latest. */
  ghost predicate LatestOk(c: Core, h: nat) {
    h in c.handlers && c.handlers[h].Spinning? && c.handlers[h].ticket > 0 ==>
      forall i :: c.handlers[h].ticket <= i < |c.puts| ==> c.puts[i].body.owner != h
  }

  ghost predicate Recorded(c: Core, landed: map<nat, nat>) {
    && (forall h :: CellOk(c, landed, h))
    && (forall p :: HeldOk(c, p))
    && (forall h :: LatestOk(c, h))
  }

  /** The hand that a move changes has what the move needs. */
  ghost predicate Ready(c: Core, m: Move) {
    && (m.Run? ==> m.p in c.hands && c.hands[m.p].Got? && c.hands[m.p].txn.ticket !in c.outcomes && HeldOk(c, m.p))
    && (m.Write? ==> m.p in c.hands && HeldOk(c, m.p))
    && (m.Take? ==> c.takes < |c.puts| && c.puts[c.takes].ticket == c.takes + 1)
  }

  lemma MoveReady(c: Core, landed: map<nat, nat>, m: Move, order: WriteOrder)
    requires A.Kept(c, order) && Recorded(c, landed) && Can(c, m)
    ensures Ready(c, m)
  {
    if m.Run? {
      A.WaitsForHeld(c, order, m.p);
    } else if m.Take? {
      A.TicketsInOrder(c, order);
    }
  }

  lemma CellKeeps(c: Core, landed: map<nat, nat>, m: Move, order: WriteOrder, h: nat)
    requires Can(c, m) && Ready(c, m) && CellOk(c, landed, h)
    ensures CellOk(Do(c, m, order), Landing(c, landed, m, order), h)
  {
  }

  lemma HeldKeeps(c: Core, m: Move, order: WriteOrder, p: nat)
    requires Can(c, m) && Ready(c, m) && HeldOk(c, p)
    ensures HeldOk(Do(c, m, order), p)
  {
  }

  /** On every run: a txn_rc always holds the result of the transaction that stored into it last since the
      call, and the value it was initialised with if none did. */
  lemma MoveRecorded(c: Core, landed: map<nat, nat>, m: Move, order: WriteOrder)
    requires A.Kept(c, order) && Recorded(c, landed) && Can(c, m)
    ensures Recorded(Do(c, m, order), Landing(c, landed, m, order))
  {
    MoveReady(c, landed, m, order);
    forall h ensures CellOk(Do(c, m, order), Landing(c, landed, m, order), h) {
      CellKeeps(c, landed, m, order, h);
    }
    forall p ensures HeldOk(Do(c, m, order), p) {
      HeldKeeps(c, m, order, p);
    }
    forall h ensures LatestOk(Do(c, m, order), h) {
      assert LatestOk(c, h);
    }
  }

  /** Handler h, about to return for ticket t, reads what ticket u stored last, u being 0 if nothing was
      stored since the call, and the ticket of an earlier request of h, or t, otherwise. That is its own
      result if and only if u is t, or the two values are the same. */
  ghost predicate Verdict(c: Core, landed: map<nat, nat>, h: nat) {
    && h in c.handlers && c.handlers[h].Spinning? && h in c.cells && h in landed
    && var t, u := c.handlers[h].ticket, landed[h];
       && u <= t <= |c.puts| && t in c.outcomes
       && (u > 0 ==> u in c.outcomes && c.puts[u - 1].body.owner == h)
       && (c.cells[h].rc == c.outcomes[t] <==> u == t || c.outcomes[t] == Stored(c, u))
  }

  /** In every reachable state, for every order of the writes. */
  lemma ReturnVerdict(c: Core, landed: map<nat, nat>, order: WriteOrder, h: nat)
    requires A.Kept(c, order) && Recorded(c, landed) && Can(c, Return(h))
    ensures Verdict(c, landed, h)
  {
    A.ReturnsOwn(c, order, h);
    assert CellOk(c, landed, h) && LatestOk(c, h);
  }

  // ---------------------------------------------------------------- handlers that never return early

  /** A thread is between the two writes for this ticket of the handler. */
  ghost predicate Closing(c: Core, h: nat, t: nat) {
    exists p :: p in c.hands && c.hands[p].Half? && c.hands[p].txn.body.owner == h && c.hands[p].txn.ticket == t
  }

  /** A thread between the two writes for handler h writes for the request h waits for. */
  ghost predicate WriterOk(c: Core, landed: map<nat, nat>, order: WriteOrder, h: nat, p: nat) {
    p in c.hands && c.hands[p].Half? && c.hands[p].txn.body.owner == h ==>
      && h in c.handlers && c.handlers[h].Spinning? && c.handlers[h].ticket == c.hands[p].txn.ticket
      && (order == RcFirst ==> h in landed && landed[h] == c.hands[p].txn.ticket)
  }

  /** Once handler h may return, its own result is stored, or about to be. */
  ghost predicate OwnOk(c: Core, landed: map<nat, nat>, order: WriteOrder, h: nat) {
    h in c.handlers && c.handlers[h].Spinning? && h in c.cells && c.cells[h].done ==>
      || (h in landed && landed[h] == c.handlers[h].ticket)
      || (order == DoneFirst && Closing(c, h, c.handlers[h].ticket))
  }

  ghost predicate Prompt(c: Core, landed: map<nat, nat>, order: WriteOrder, h: nat) {
    (forall p :: WriterOk(c, landed, order, h, p)) && OwnOk(c, landed, order, h)
  }

  /** The owner of the transaction a thread is about to write for waits for it. */
  ghost predicate Claimed(c: Core, p: nat) {
    p in c.hands && c.hands[p].Ran? ==>
      && c.hands[p].txn.body.owner in c.handlers
      && c.handlers[c.hands[p].txn.body.owner] == Spinning(c.hands[p].txn.body.request, c.hands[p].txn.ticket)
  }

  lemma WriterKeeps(c: Core, landed: map<nat, nat>, m: Move, order: WriteOrder, h: nat, p: nat)
    requires Can(c, m) && WriterOk(c, landed, order, h, p)
    requires m.Write? ==> WriterOk(c, landed, order, h, m.p) && Claimed(c, m.p)
    requires m == Return(h) ==> !InWindow(c.hands, h)
    ensures WriterOk(Do(c, m, order), Landing(c, landed, m, order), order, h, p)
  {
  }

  lemma OwnKeeps(c: Core, landed: map<nat, nat>, m: Move, order: WriteOrder, h: nat)
    requires Can(c, m) && OwnOk(c, landed, order, h) && !m.Write?
    requires h in c.handlers && c.handlers[h].Entering? ==> h in c.cells && !c.cells[h].done
    ensures OwnOk(Do(c, m, order), Landing(c, landed, m, order), order, h)
  {
    if h in c.handlers && c.handlers[h].Spinning? && Closing(c, h, c.handlers[h].ticket) {
      var p :| p in c.hands && c.hands[p].Half? && c.hands[p].txn.body.owner == h
            && c.hands[p].txn.ticket == c.handlers[h].ticket;
      assert p in Do(c, m, order).hands && Do(c, m, order).hands[p] == c.hands[p];
    }
  }

  lemma OwnWrites(c: Core, landed: map<nat, nat>, p: nat, order: WriteOrder, h: nat)
    requires Can(c, Write(p)) && OwnOk(c, landed, order, h) && WriterOk(c, landed, order, h, p) && Claimed(c, p)
    ensures OwnOk(Do(c, Write(p), order), Landing(c, landed, Write(p), order), order, h)
  {
    var c' := Do(c, Write(p), order);
    if c.hands[p].txn.body.owner == h {
      assert c'.hands[p].Half? ==> c'.hands[p].txn.body.owner == h && c'.hands[p].txn.ticket == c.handlers[h].ticket;
    } else if h in c.handlers && c.handlers[h].Spinning? && Closing(c, h, c.handlers[h].ticket) {
      var q :| q in c.hands && c.hands[q].Half? && c.hands[q].txn.body.owner == h
            && c.hands[q].txn.ticket == c.handlers[h].ticket;
      assert q in c'.hands && c'.hands[q] == c.hands[q];
    }
  }

  /** A handler that has not returned early yet, and does not now, stays prompt, whatever other handlers
      do. */
  lemma MovePrompt(c: Core, landed: map<nat, nat>, m: Move, order: WriteOrder, h: nat)
    requires A.Kept(c, order) && Recorded(c, landed) && Can(c, m) && Prompt(c, landed, order, h)
    requires m == Return(h) ==> !InWindow(c.hands, h)
    ensures Prompt(Do(c, m, order), Landing(c, landed, m, order), order, h)
  {
    if m.Write? && c.hands[m.p].Ran? {
      A.WaitsForHeld(c, order, m.p);
    }
    forall p ensures WriterOk(Do(c, m, order), Landing(c, landed, m, order), order, h, p) {
      WriterKeeps(c, landed, m, order, h, p);
    }
    if m.Write? {
      OwnWrites(c, landed, m.p, order, h);
    } else {
      if h in c.handlers && c.handlers[h].Entering? {
        A.EnteringNotDone(c, order, h);
      }
      OwnKeeps(c, landed, m, order, h);
    }
  }

  /** A prompt handler that returns outside of a window reads its own result. */
  lemma PromptReturn(c: Core, landed: map<nat, nat>, order: WriteOrder, h: nat)
    requires A.Kept(c, order) && Recorded(c, landed) && Can(c, Return(h))
    requires Prompt(c, landed, order, h) && !InWindow(c.hands, h)
    ensures var t := c.handlers[h].ticket; t in c.outcomes && c.cells[h].rc == c.outcomes[t]
  {
    ReturnVerdict(c, landed, order, h);
  }

  // ---------------------------------------------------------------- threads that still point to txn_rc

  /** Thread p holds a pointer to the txn_rc of a handler that does not wait for p's transaction. */
  ghost predicate Dangling(c: Core, p: nat) {
    && p in c.hands && !c.hands[p].Empty?
    && var txn := c.hands[p].txn; var h := txn.body.owner;
       !(h in c.handlers && c.handlers[h] == Spinning(txn.body.request, txn.ticket))
  }

  /** Only the code's write order lets that happen, and only between the two writes. */
  lemma DanglingIsHalf(c: Core, order: WriteOrder, p: nat)
    requires A.Kept(c, order)
    ensures Dangling(c, p) ==> order == DoneFirst && c.hands[p].Half?
  {
    if p in c.hands && !c.hands[p].Empty? && (order == DoneFirst ==> !c.hands[p].Half?) {
      A.WaitsForHeld(c, order, p);
    }
  }
}
