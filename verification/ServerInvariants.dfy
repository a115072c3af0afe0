/** The queued server follows the reply protocol, and runs its transactions as the direct server does. */
module ServerInvariants {
  import opened Ring
  import M = Monitor
  import R = ReplyProtocol
  import V = ReplyResults
  import opened Ledger
  import opened Server

  /** The move of the reply protocol an event makes, if any. */
  ghost function MoveOf(s: Server, e: Event): Option<R.Move>
    requires Sound(s) && Enabled(s, e)
  {
    match e
    case Call(h, request) => Some(R.Call(h, request))
    case Return(h) => Some(R.Return(h))
    case RunUser(p) => Some(R.Run(p, Dispatch(s.db, s.procs[p].txn.body.request).1))
    case Write(p) => Some(R.Write(p))
    case UserQ(ue) => QueueMove(ue)
    case _ => None
  }

  function QueueMove(ue: M.Event<R.UserTxn>): Option<R.Move> {
    match ue
    case Put(t, _, _) => Some(R.Put(t))
    case PutDie(t) => Some(R.Skip(t))
    case Take(t, _) => Some(R.Take(t))
    case _ => None
  }

  /** A state change that the protocol sees as the given move, or not at all. */
  ghost predicate Follows(s: Server, s': Server, move: Option<R.Move>, order: R.WriteOrder) {
    match move
    case None => CoreOf(s') == CoreOf(s)
    case Some(m) => R.Can(CoreOf(s), m) && CoreOf(s') == R.Do(CoreOf(s), m, order)
  }

  /** The queue's history, as the protocol needs it. */
  lemma QueueFacts(m: M.Mon<R.UserTxn>)
    requires M.Inv(m)
    ensures |m.takes| + m.ring.occupied == |m.puts| == m.ring.ticketReq
    ensures m.takes <= m.puts
    ensures m.ring.occupied > 0 ==> Head(m.ring) == m.puts[|m.takes|]
  {
  }

  lemma HandsUpdate(procs: map<nat, Proc>, p: nat, at: Proc)
    ensures Hands(procs[p := at]) == Hands(procs)[p := HandOf(at)]
    ensures p in procs && HandOf(procs[p]) == HandOf(at) ==> Hands(procs[p := at]) == Hands(procs)
  {
  }

  lemma UserPutRefines(s: Server, ue: M.Event<R.UserTxn>, order: R.WriteOrder)
    requires Sound(s) && UserQEnabled(s, ue) && ue.Put?
    ensures Follows(s, UserQStep(s, ue), QueueMove(ue), order)
  {
  }

  lemma UserTakeRefines(s: Server, ue: M.Event<R.UserTxn>, order: R.WriteOrder)
    requires Sound(s) && UserQEnabled(s, ue) && ue.Take?
    ensures Follows(s, UserQStep(s, ue), QueueMove(ue), order)
  {
    QueueFacts(s.user);
    HandsUpdate(s.procs, ue.t, GotUser(Head(s.user.ring)));
  }

  lemma UserWaitRefines(s: Server, ue: M.Event<R.UserTxn>, order: R.WriteOrder)
    requires Sound(s) && UserQEnabled(s, ue) && !ue.Put? && !ue.Take?
    ensures Follows(s, UserQStep(s, ue), QueueMove(ue), order)
  {
  }

  lemma UserQRefines(s: Server, ue: M.Event<R.UserTxn>, order: R.WriteOrder)
    requires Sound(s) && UserQEnabled(s, ue)
    ensures Follows(s, UserQStep(s, ue), QueueMove(ue), order)
    ensures var s' := UserQStep(s, ue);
            s'.user == M.Step(s.user, ue, s.die) && s'.sys == s.sys && s'.db == s.db && s'.execs == s.execs
  {
    if ue.Put? {
      UserPutRefines(s, ue, order);
    } else if ue.Take? {
      UserTakeRefines(s, ue, order);
    } else {
      UserWaitRefines(s, ue, order);
    }
  }

  lemma SysQRefines(s: Server, se: M.Event<string>, order: R.WriteOrder)
    requires Sound(s) && SysQEnabled(s, se)
    ensures Follows(s, SysQStep(s, se), None, order)
    ensures var s' := SysQStep(s, se);
            s'.sys == M.Step(s.sys, se, s.die) && s'.user == s.user && s'.db == s.db && s'.execs == s.execs
  {
  }

  predicate Local(e: Event) {
    e.Call? || e.Return? || e.Offer? || e.Look? || e.Decrement? || e.Sample? || e.Kill?
  }

  lemma LocalRefines(s: Server, e: Event, order: R.WriteOrder)
    requires Sound(s) && Enabled(s, e) && Local(e)
    ensures Follows(s, LocalStep(s, e), MoveOf(s, e), order)
    ensures var s' := LocalStep(s, e); s'.user == s.user && s'.sys == s.sys && s'.db == s.db && s'.execs == s.execs
  {
    match e
    case Look(p) => HandsUpdate(s.procs, p, LocalStep(s, e).procs[p]);
    case Decrement(p) => HandsUpdate(s.procs, p, LocalStep(s, e).procs[p]);
    case _ =>
  }

  lemma RunRefreshRefines(s: Server, p: nat, up: bool, order: R.WriteOrder)
    requires IndexInTable(s.db.tables) && p in s.procs && s.procs[p].GotSys?
    ensures Follows(s, RunRefreshStep(s, p, up), None, order)
    ensures var s' := RunRefreshStep(s, p, up); s'.user == s.user && s'.sys == s.sys && IndexInTable(s'.db.tables)
  {
  }

  lemma RunUserRefines(s: Server, p: nat, order: R.WriteOrder)
    requires IndexInTable(s.db.tables) && p in s.procs && s.procs[p].GotUser?
    ensures Follows(s, RunUserStep(s, p), Some(R.Run(p, Dispatch(s.db, s.procs[p].txn.body.request).1)), order)
    ensures var s' := RunUserStep(s, p); s'.user == s.user && s'.sys == s.sys && IndexInTable(s'.db.tables)
  {
    HandsUpdate(s.procs, p, RunUserStep(s, p).procs[p]);
  }

  lemma WriteRefines(s: Server, p: nat, order: R.WriteOrder)
    requires p in s.procs && (s.procs[p].RanUser? || s.procs[p].HalfUser?) && s.procs[p].txn.body.owner in s.cells
    ensures Follows(s, WriteStep(s, p, order), Some(R.Write(p)), order)
    ensures var s' := WriteStep(s, p, order); s'.user == s.user && s'.sys == s.sys && s'.db == s.db
  {
    HandsUpdate(s.procs, p, WriteStep(s, p, order).procs[p]);
  }

  lemma StepCases(s: Server, e: Event, order: R.WriteOrder)
    requires Sound(s) && Enabled(s, e)
    ensures e.UserQ? ==> Step(s, e, order) == UserQStep(s, e.ue) && MoveOf(s, e) == QueueMove(e.ue)
    ensures e.SysQ? ==> Step(s, e, order) == SysQStep(s, e.se) && MoveOf(s, e) == None
    ensures e.RunRefresh? ==> Step(s, e, order) == RunRefreshStep(s, e.p, e.up) && MoveOf(s, e) == None
    ensures e.RunUser? ==> Step(s, e, order) == RunUserStep(s, e.p)
    ensures e.RunUser? ==> MoveOf(s, e) == Some(R.Run(e.p, Dispatch(s.db, s.procs[e.p].txn.body.request).1))
    ensures e.Write? ==> Step(s, e, order) == WriteStep(s, e.p, order) && MoveOf(s, e) == Some(R.Write(e.p))
    ensures Local(e) ==> Step(s, e, order) == LocalStep(s, e)
  {
  }

  /** Every event of the server is a move of the reply protocol, or none; and a queue changes only by an
      event of that queue's monitor. */
  lemma StepRefines(s: Server, e: Event, order: R.WriteOrder)
    requires Sound(s) && Enabled(s, e)
    ensures Follows(s, Step(s, e, order), MoveOf(s, e), order)
    ensures var s' := Step(s, e, order);
            && s'.user == (if e.UserQ? then M.Step(s.user, e.ue, s.die) else s.user)
            && s'.sys == (if e.SysQ? then M.Step(s.sys, e.se, s.die) else s.sys)
            && IndexInTable(s'.db.tables)
  {
    StepCases(s, e, order);
    if e.UserQ? {
      UserQRefines(s, e.ue, order);
    } else if e.SysQ? {
      SysQRefines(s, e.se, order);
    } else if e.RunRefresh? {
      RunRefreshRefines(s, e.p, e.up, order);
    } else if e.RunUser? {
      RunUserRefines(s, e.p, order);
    } else if e.Write? {
      WriteRefines(s, e.p, order);
    } else {
      LocalRefines(s, e, order);
    }
  }

  lemma StepSound(s: Server, e: Event, order: R.WriteOrder)
    requires Sound(s) && Enabled(s, e)
    ensures Sound(Step(s, e, order))
  {
    StepRefines(s, e, order);
    if e.UserQ? {
      M.StepInv(s.user, e.ue, s.die);
    } else if e.SysQ? {
      M.StepInv(s.sys, e.se, s.die);
    }
  }

  /** The server keeps the history of stored results. */
  lemma StepLands(s: Server, e: Event, order: R.WriteOrder)
    requires Sound(s) && Enabled(s, e)
    ensures var s' := Step(s, e, order);
            match MoveOf(s, e)
            case None => s'.landed == s.landed
            case Some(m) => R.Can(CoreOf(s), m) && s'.landed == V.Landing(CoreOf(s), s.landed, m, order)
  {
    StepRefines(s, e, order);
    StepCases(s, e, order);
    if e.UserQ? {
      UserQLands(s, e.ue);
    } else if e.SysQ? {
      SysQLands(s, e.se);
    }
  }

  lemma UserQLands(s: Server, ue: M.Event<R.UserTxn>)
    requires Sound(s) && UserQEnabled(s, ue)
    ensures UserQStep(s, ue).landed == s.landed
  {
  }

  lemma SysQLands(s: Server, se: M.Event<string>)
    requires Sound(s) && SysQEnabled(s, se)
    ensures SysQStep(s, se).landed == s.landed
  {
  }
}
