/** The reply protocol between handlers and processing threads, without ring, database or clock: who
    holds which request, which cells are written, and what a handler reads. The queued server is shown
    to follow it. */
module ReplyProtocol {
  import opened Ring
  import opened Ledger

  /** What a user transaction in the queue carries: the handler whose txn_done and txn_rc variables it
      points to, and the request. */
  datatype UserTxn = UserTxn(owner: nat, request: Request)

  /** The txn_done and txn_rc variables of a handler. They sit in the stack frame of dispatchTableFn,
      which the handler enters at the same depth for each request. */
  datatype Cell = Cell(done: bool, rc: int)

  datatype Handler =
    | Idle
    | Entering(request: Request)                 // in chronos_enqueue_user_transaction
    | Spinning(request: Request, ticket: nat)    // in while (!txn_done); ticket 0: nothing was enqueued

  /** The user transaction a processing thread works on. */
  datatype Hand =
    | Empty
    | Got(txn: Entry<UserTxn>)
    | Ran(txn: Entry<UserTxn>, rc: int)
    | Half(txn: Entry<UserTxn>, rc: int)         // one of the two cells is written

  /** The order in which a completion writes the two cells. The code writes txn_done first. */
  datatype WriteOrder = DoneFirst | RcFirst | OneStep

  datatype Core = Core(
    puts: seq<Entry<UserTxn>>, takes: nat, takenBy: seq<nat>,
    handlers: map<nat, Handler>, cells: map<nat, Cell>, hands: map<nat, Hand>,
    outcomes: map<nat, int>)     // the result of each transaction that met the database, by ticket

  datatype Move =
    | Call(h: nat, request: Request)
    | Put(h: nat)
    | Skip(h: nat)               // the enqueue failed, and its result is ignored
    | Take(p: nat)
    | Run(p: nat, rc: int)
    | Write(p: nat)
    | Return(h: nat)

  /** The cell after one of the writes of a completion. */
  function WrittenCell(order: WriteOrder, first: bool, cell: Cell, rc: int): Cell {
    match order
    case OneStep => Cell(true, rc)
    case DoneFirst => if first then cell.(done := true) else cell.(rc := rc)
    case RcFirst => if first then cell.(rc := rc) else cell.(done := true)
  }

  /** This write of a completion is the one that stores the result. */
  predicate Stores(order: WriteOrder, first: bool) {
    match order
    case OneStep => true
    case DoneFirst => !first
    case RcFirst => first
  }

  /** A processing thread is between the two writes of a completion for this handler. */
  ghost predicate InWindow(hands: map<nat, Hand>, h: nat) {
    exists p :: p in hands && hands[p].Half? && hands[p].txn.body.owner == h
  }

  ghost predicate Can(c: Core, m: Move) {
    match m
    case Call(h, _) => h in c.handlers && c.handlers[h].Idle?
    case Put(h) => h in c.handlers && c.handlers[h].Entering?
    case Skip(h) => h in c.handlers && c.handlers[h].Entering?
    case Take(p) => p in c.hands && c.hands[p].Empty? && c.takes < |c.puts|
    case Run(p, _) => p in c.hands && c.hands[p].Got?
    case Write(p) => p in c.hands && (c.hands[p].Ran? || c.hands[p].Half?) && c.hands[p].txn.body.owner in c.cells
    case Return(h) => h in c.handlers && c.handlers[h].Spinning? && h in c.cells && c.cells[h].done
  }

  function Do(c: Core, m: Move, order: WriteOrder): Core
    requires Can(c, m)
  {
    match m
    case Call(h, request) => c.(handlers := c.handlers[h := Entering(request)], cells := c.cells[h := Cell(false, 0)])
    case Put(h) =>
      var t := |c.puts| + 1;
      c.(puts := c.puts + [Entry(t, UserTxn(h, c.handlers[h].request))],
         handlers := c.handlers[h := Spinning(c.handlers[h].request, t)])
    case Skip(h) => c.(handlers := c.handlers[h := Spinning(c.handlers[h].request, 0)])
    case Take(p) => c.(takes := c.takes + 1, takenBy := c.takenBy + [p], hands := c.hands[p := Got(c.puts[c.takes])])
    case Run(p, rc) =>
      c.(hands := c.hands[p := Ran(c.hands[p].txn, rc)], outcomes := c.outcomes[c.hands[p].txn.ticket := rc])
    case Write(p) =>
      var at := c.hands[p];
      var h := at.txn.body.owner;
      c.(cells := c.cells[h := WrittenCell(order, at.Ran?, c.cells[h], at.rc)],
         hands := c.hands[p := if at.Ran? && order != OneStep then Half(at.txn, at.rc) else Empty])
    case Return(h) => c.(handlers := c.handlers[h := Idle])
  }

  /** The handler that owns a transaction waits for it. */
  ghost predicate Awaited(c: Core, txn: Entry<UserTxn>, cell: Cell) {
    var h := txn.body.owner;
    && h in c.handlers && c.handlers[h] == Spinning(txn.body.request, txn.ticket)
    && h in c.cells && c.cells[h] == cell
  }

  ghost predicate Numbered(c: Core) {
    && c.takes <= |c.puts| && |c.takenBy| == c.takes
    && (forall h :: h in c.handlers <==> h in c.cells)
    && (forall t :: t in c.outcomes ==> 1 <= t <= c.takes)
    && forall i :: 0 <= i < |c.puts| ==> c.puts[i].ticket == i + 1
  }

  /** Requests in the queue. */
  ghost predicate QueuedOk(c: Core) {
    forall i :: c.takes <= i < |c.puts| ==> Awaited(c, c.puts[i], Cell(false, 0))
  }

  /** A request in the hands of thread p: the one it dequeued last. */
  ghost predicate HandOk(c: Core, order: WriteOrder, p: nat)
    requires p in c.hands && Numbered(c)
  {
    var at := c.hands[p];
    !at.Empty? ==>
      && 1 <= at.txn.ticket <= c.takes
      && c.puts[at.txn.ticket - 1] == at.txn && c.takenBy[at.txn.ticket - 1] == p
      && (if at.Got? then at.txn.ticket !in c.outcomes
          else at.txn.ticket in c.outcomes && c.outcomes[at.txn.ticket] == at.rc)
      && (at.Half? ==> order != OneStep)
      && Awaited(c, at.txn, if at.Half? then WrittenCell(order, true, Cell(false, 0), at.rc) else Cell(false, 0))
  }

  ghost predicate HandsOk(c: Core, order: WriteOrder)
    requires Numbered(c)
  {
    forall p :: p in c.hands ==> HandOk(c, order, p)
  }

  /** Thread p has the request with this ticket in its hands. */
  ghost predicate Holds(c: Core, p: nat, t: nat) {
    p in c.hands && !c.hands[p].Empty? && c.hands[p].txn.ticket == t
  }

  /** Where the request of a handler is, and what its cells say. */
  ghost predicate HandlerOk(c: Core, h: nat)
    requires h in c.handlers && Numbered(c)
  {
    match c.handlers[h]
    case Idle => true
    case Entering(_) => c.cells[h] == Cell(false, 0)
    case Spinning(request, t) =>
      && t <= |c.puts|
      && (t == 0 ==> !c.cells[h].done)
      && (t > 0 ==> c.puts[t - 1] == Entry(t, UserTxn(h, request)))
      && (t > 0 && !c.cells[h].done ==> t > c.takes || Holds(c, c.takenBy[t - 1], t))
      && (c.cells[h].done ==>
            && t in c.outcomes
            && (c.cells[h].rc == c.outcomes[t] || (Holds(c, c.takenBy[t - 1], t) && c.hands[c.takenBy[t - 1]].Half?)))
  }

  ghost predicate HandlersOk(c: Core)
    requires Numbered(c)
  {
    forall h :: h in c.handlers ==> HandlerOk(c, h)
  }

  ghost predicate Inv(c: Core, order: WriteOrder) {
    Numbered(c) && QueuedOk(c) && HandsOk(c, order) && HandlersOk(c)
  }

  /** A move by, or for, handler h and thread p touches their state and what concerns ticket t only;
      the sequences grow at most. */
  ghost predicate Touches(c: Core, c': Core, h: nat, p: nat, t: nat) {
    && c.puts <= c'.puts && c.takes <= c'.takes && c.takenBy <= c'.takenBy
    && (forall g :: g in c'.handlers <==> g in c.handlers)
    && (forall q :: q in c'.hands <==> q in c.hands)
    && (forall g | g in c.handlers && g in c.cells && g != h ::
          c'.handlers[g] == c.handlers[g] && g in c'.cells && c'.cells[g] == c.cells[g])
    && (forall q :: q in c.hands && q != p ==> c'.hands[q] == c.hands[q])
    && (forall u :: u != t ==> (u in c'.outcomes <==> u in c.outcomes))
    && (forall u :: u != t && u in c.outcomes ==> c'.outcomes[u] == c.outcomes[u])
  }

  /** What a move touches belongs to handler h alone: no entry that stays queued, nothing in the hands of
      another thread, and what p holds or takes is h's. */
  ghost predicate Alone(c: Core, c': Core, h: nat, p: nat, t: nat) {
    && c'.takes <= c.takes + 1
    && (forall i :: c'.takes <= i < |c.puts| ==> c.puts[i].body.owner != h)
    && (forall q :: q in c.hands && q != p && !c.hands[q].Empty? ==> c.hands[q].txn.body.owner != h)
    && (p in c.hands && !c.hands[p].Empty? ==> c.hands[p].txn.body.owner == h)
    && (c'.takes > c.takes ==> c.takes < |c.puts| && c.puts[c.takes].body.owner == h)
    && (1 <= t <= |c.puts| ==> c.puts[t - 1].body.owner == h)
  }

  lemma OtherHand(c: Core, c': Core, order: WriteOrder, h: nat, p: nat, t: nat, q: nat)
    requires Numbered(c) && Numbered(c') && Touches(c, c', h, p, t)
    requires q in c.hands && q != p && HandOk(c, order, q)
    requires !c.hands[q].Empty? ==> c.hands[q].txn.body.owner != h && c.hands[q].txn.ticket != t
    ensures HandOk(c', order, q)
  {
  }

  ghost predicate OwnTxn(c: Core, txn: Entry<UserTxn>, h: nat)
    requires Numbered(c)
  {
    1 <= txn.ticket <= c.takes && c.puts[txn.ticket - 1] == txn && txn.body.owner == h
  }

  lemma OtherHandler(c: Core, c': Core, h: nat, p: nat, t: nat, g: nat)
    requires Numbered(c) && Numbered(c') && Touches(c, c', h, p, t)
    requires g in c.handlers && g != h && HandlerOk(c, g)
    requires c.handlers[g].Spinning? ==> c.handlers[g].ticket != t
    requires p in c.hands && !c.hands[p].Empty? ==> OwnTxn(c, c.hands[p].txn, h)
    requires c.handlers[g].Spinning? && c.takes < c.handlers[g].ticket ==> c'.takes < c.handlers[g].ticket
    ensures HandlerOk(c', g)
  {
  }

  lemma FrameHands(c: Core, c': Core, order: WriteOrder, h: nat, p: nat, t: nat)
    requires Numbered(c) && HandsOk(c, order) && Numbered(c') && Touches(c, c', h, p, t) && Alone(c, c', h, p, t)
    requires p in c'.hands ==> HandOk(c', order, p)
    ensures HandsOk(c', order)
  {
    forall q | q in c'.hands ensures HandOk(c', order, q) {
      if q != p {
        assert HandOk(c, order, q);
        if !c.hands[q].Empty? {
          assert c.puts[c.hands[q].txn.ticket - 1].body.owner != h;
        }
        OtherHand(c, c', order, h, p, t, q);
      }
    }
  }

  lemma FrameHandlers(c: Core, c': Core, order: WriteOrder, h: nat, p: nat, t: nat)
    requires Numbered(c) && HandlersOk(c) && Numbered(c') && Touches(c, c', h, p, t) && Alone(c, c', h, p, t)
    requires t > 0 && (p in c.hands ==> HandOk(c, order, p))
    requires h in c'.handlers ==> HandlerOk(c', h)
    ensures HandlersOk(c')
  {
    forall g | g in c'.handlers ensures HandlerOk(c', g) {
      if g != h {
        assert HandlerOk(c, g);
        if c.handlers[g].Spinning? && c.handlers[g].ticket > 0 {
          assert c.puts[c.handlers[g].ticket - 1].body.owner == g;
        }
        OtherHandler(c, c', h, p, t, g);
      }
    }
  }

  /** What is left to show of a move: the numbering, the touched handler and thread, new queue entries,
      and that what it touches belongs to the handler alone. */
  lemma Frame(c: Core, c': Core, order: WriteOrder, h: nat, p: nat, t: nat)
    requires Inv(c, order) && Numbered(c') && Touches(c, c', h, p, t) && Alone(c, c', h, p, t) && t > 0
    requires forall i :: |c.puts| <= i < |c'.puts| ==> Awaited(c', c'.puts[i], Cell(false, 0))
    requires p in c'.hands ==> HandOk(c', order, p)
    requires h in c'.handlers ==> HandlerOk(c', h)
    ensures Inv(c', order)
  {
    forall i | c'.takes <= i < |c'.puts| ensures Awaited(c', c'.puts[i], Cell(false, 0)) {
      if i < |c.puts| {
        assert c'.puts[i] == c.puts[i] && Awaited(c, c.puts[i], Cell(false, 0));
      }
    }
    FrameHands(c, c', order, h, p, t);
    FrameHandlers(c, c', order, h, p, t);
  }

  /** A handler that is not spinning, or whose cell says done outside of a window, owns nothing that is
      queued or in anyone's hands. */
  lemma Unowned(c: Core, order: WriteOrder, h: nat)
    requires Inv(c, order) && h in c.handlers
    requires !c.handlers[h].Spinning? || (c.cells[h].done && !InWindow(c.hands, h))
    ensures forall i :: c.takes <= i < |c.puts| ==> c.puts[i].body.owner != h
    ensures forall q :: q in c.hands && !c.hands[q].Empty? ==> c.hands[q].txn.body.owner != h
  {
  }

  /** The owner of a transaction in the hands of p owns nothing else. */
  lemma OwnedOnce(c: Core, order: WriteOrder, p: nat)
    requires Inv(c, order) && p in c.hands && !c.hands[p].Empty?
    ensures var h := c.hands[p].txn.body.owner;
            && (forall i :: c.takes <= i < |c.puts| ==> c.puts[i].body.owner != h)
            && (forall q :: q in c.hands && q != p && !c.hands[q].Empty? ==> c.hands[q].txn.body.owner != h)
  {
  }

  /** The owner of the oldest queued transaction owns nothing else. */
  lemma HeadOwnedOnce(c: Core, order: WriteOrder)
    requires Inv(c, order) && c.takes < |c.puts|
    ensures var h := c.puts[c.takes].body.owner;
            && (forall i :: c.takes < i < |c.puts| ==> c.puts[i].body.owner != h)
            && (forall q :: q in c.hands && !c.hands[q].Empty? ==> c.hands[q].txn.body.owner != h)
  {
  }

  /** A thread number that no thread has. */
  lemma Nobody(hands: map<nat, Hand>) returns (p: nat)
    ensures p !in hands
  {
    p := Above(hands.Keys);
  }

  lemma {:induction false} Above(s: set<nat>) returns (n: nat)
    ensures forall x :: x in s ==> x < n
    decreases |s|
  {
    if s == {} {
      n := 0;
    } else {
      var x :| x in s;
      var m := Above(s - {x});
      n := if m > x then m else x + 1;
      assert forall y :: y in s ==> y == x || y in s - {x};
    }
  }

  lemma CallKeeps(c: Core, h: nat, request: Request, order: WriteOrder)
    requires Inv(c, order) && Can(c, Call(h, request))
    ensures Inv(Do(c, Call(h, request), order), order)
  {
    var p := Nobody(c.hands);
    Unowned(c, order, h);
    Frame(c, Do(c, Call(h, request), order), order, h, p, |c.puts| + 1);
  }

  lemma EnqueueKeeps(c: Core, m: Move, order: WriteOrder)
    requires Inv(c, order) && Can(c, m) && (m.Put? || m.Skip?)
    ensures Inv(Do(c, m, order), order)
  {
    var p := Nobody(c.hands);
    assert HandlerOk(c, m.h);
    Unowned(c, order, m.h);
    Frame(c, Do(c, m, order), order, m.h, p, |c.puts| + 1);
  }

  lemma ReturnKeeps(c: Core, h: nat, order: WriteOrder)
    requires Inv(c, order) && Can(c, Return(h)) && !InWindow(c.hands, h)
    ensures Inv(Do(c, Return(h), order), order)
  {
    var p := Nobody(c.hands);
    Unowned(c, order, h);
    Frame(c, Do(c, Return(h), order), order, h, p, |c.puts| + 1);
  }

  lemma TakeKeeps(c: Core, p: nat, order: WriteOrder)
    requires Inv(c, order) && Can(c, Take(p))
    ensures Inv(Do(c, Take(p), order), order)
  {
    var txn := c.puts[c.takes];
    HeadOwnedOnce(c, order);
    assert Awaited(c, txn, Cell(false, 0));
    assert HandlerOk(c, txn.body.owner);
    Frame(c, Do(c, Take(p), order), order, txn.body.owner, p, txn.ticket);
  }

  /** A processing thread that goes on with its transaction leaves it, and its handler, in order. */
  lemma ProcessTouches(c: Core, m: Move, order: WriteOrder)
    requires Numbered(c) && Can(c, m) && (m.Run? || m.Write?) && HandOk(c, order, m.p)
    requires HandlerOk(c, c.hands[m.p].txn.body.owner)
    ensures Numbered(Do(c, m, order)) && HandOk(Do(c, m, order), order, m.p)
    ensures HandlerOk(Do(c, m, order), c.hands[m.p].txn.body.owner)
  {
  }

  lemma ProcessAlone(c: Core, m: Move, order: WriteOrder)
    requires Inv(c, order) && Can(c, m) && (m.Run? || m.Write?)
    ensures Alone(c, Do(c, m, order), c.hands[m.p].txn.body.owner, m.p, c.hands[m.p].txn.ticket)
  {
    OwnedOnce(c, order, m.p);
    assert HandOk(c, order, m.p);
  }

  lemma ProcessFrame(c: Core, m: Move, order: WriteOrder)
    requires Numbered(c) && Can(c, m) && (m.Run? || m.Write?)
    ensures Touches(c, Do(c, m, order), c.hands[m.p].txn.body.owner, m.p, c.hands[m.p].txn.ticket)
    ensures Do(c, m, order).puts == c.puts
  {
  }

  lemma ProcessKeeps(c: Core, m: Move, order: WriteOrder)
    requires Inv(c, order) && Can(c, m) && (m.Run? || m.Write?)
    ensures Inv(Do(c, m, order), order)
  {
    var txn := c.hands[m.p].txn;
    assert HandOk(c, order, m.p) && HandlerOk(c, txn.body.owner);
    ProcessTouches(c, m, order);
    ProcessFrame(c, m, order);
    ProcessAlone(c, m, order);
    Frame(c, Do(c, m, order), order, txn.body.owner, m.p, txn.ticket);
  }

  /** Every move keeps the protocol's invariant, for every write order, as long as no handler returns
      inside a window. */
  lemma MoveKeeps(c: Core, m: Move, order: WriteOrder)
    requires Inv(c, order) && Can(c, m)
    requires m.Return? ==> !InWindow(c.hands, m.h)
    ensures Inv(Do(c, m, order), order)
  {
    match m
    case Call(h, request) => CallKeeps(c, h, request, order);
    case Return(h) => ReturnKeeps(c, h, order);
    case Take(p) => TakeKeeps(c, p, order);
    case Put(_) => EnqueueKeeps(c, m, order);
    case Skip(_) => EnqueueKeeps(c, m, order);
    case _ => ProcessKeeps(c, m, order);
  }
}
