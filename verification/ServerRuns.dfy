/** Runs of the queued server, and their agreement with the direct server. */
module ServerRuns {
  import opened Ring
  import M = Monitor
  import R = ReplyProtocol
  import L = ReplyLaws
  import A = ReplyAlways
  import V = ReplyResults
  import opened Ledger
  import opened Server
  import opened ServerInvariants

  ghost predicate Inv(s: Server, order: R.WriteOrder) {
    Sound(s) && A.Kept(CoreOf(s), order) && V.Recorded(CoreOf(s), s.landed)
  }

  lemma StartInv(u: Setup, order: R.WriteOrder)
    requires Proper(u)
    ensures Inv(Start(u), order) && R.Inv(CoreOf(Start(u)), order)
    ensures forall h :: V.Prompt(CoreOf(Start(u)), Start(u).landed, order, h)
  {
  }

  lemma StepInv(s: Server, e: Event, order: R.WriteOrder)
    requires Inv(s, order) && Enabled(s, e)
    ensures Inv(Step(s, e, order), order)
  {
    StepSound(s, e, order);
    StepRefines(s, e, order);
    StepLands(s, e, order);
    match MoveOf(s, e)
    case None =>
    case Some(m) =>
      A.MoveKept(CoreOf(s), m, order);
      V.MoveRecorded(CoreOf(s), s.landed, m, order);
  }

  /** A run: any interleaving of enabled events. */
  ghost predicate RunOk(s: Server, evs: seq<Event>, order: R.WriteOrder)
    decreases |evs|, 0
  {
    if evs == [] then Inv(s, order)
    else RunOk(s, evs[..|evs| - 1], order) && Enabled(End(s, evs[..|evs| - 1], order), evs[|evs| - 1])
  }

  /** The state a run leads to. */
  ghost function End(s: Server, evs: seq<Event>, order: R.WriteOrder): (s': Server)
    requires RunOk(s, evs, order)
    ensures Inv(s', order)
    decreases |evs|, 1
  {
    if evs == [] then s
    else
      var s1 := End(s, evs[..|evs| - 1], order);
      StepInv(s1, evs[|evs| - 1], order);
      Step(s1, evs[|evs| - 1], order)
  }

  /** A run on which handler h never returns between two writes for it; others may. */
  ghost predicate CleanFor(s: Server, evs: seq<Event>, order: R.WriteOrder, h: nat)
    requires RunOk(s, evs, order)
    decreases |evs|
  {
    evs == [] ||
    (CleanFor(s, evs[..|evs| - 1], order, h) && CleanStep(End(s, evs[..|evs| - 1], order), evs[|evs| - 1], h))
  }

  ghost predicate Clean(s: Server, evs: seq<Event>, order: R.WriteOrder)
    requires RunOk(s, evs, order)
  {
    forall h :: CleanFor(s, evs, order, h)
  }

  lemma {:induction false} CleanKeeps(s: Server, evs: seq<Event>, order: R.WriteOrder)
    requires RunOk(s, evs, order) && Clean(s, evs, order) && R.Inv(CoreOf(s), order)
    ensures R.Inv(CoreOf(End(s, evs, order)), order)
    decreases |evs|
  {
    if evs != [] {
      var init := evs[..|evs| - 1];
      var s1, e := End(s, init, order), evs[|evs| - 1];
      forall h ensures CleanFor(s, init, order, h) {
        assert CleanFor(s, evs, order, h);
      }
      if e.Return? {
        assert CleanFor(s, evs, order, e.h);
      }
      CleanKeeps(s, init, order);
      LastStepKeeps(s1, e, order);
    }
  }

  lemma LastStepKeeps(s: Server, e: Event, order: R.WriteOrder)
    requires Sound(s) && Enabled(s, e) && R.Inv(CoreOf(s), order)
    requires e.Return? ==> !R.InWindow(Hands(s.procs), e.h)
    ensures R.Inv(CoreOf(Step(s, e, order)), order)
  {
    StepRefines(s, e, order);
    match MoveOf(s, e)
    case None =>
    case Some(m) => R.MoveKeeps(CoreOf(s), m, order);
  }

  /** With the result written first, or both cells written at once, every run is clean. */
  lemma {:induction false} AlwaysClean(s: Server, evs: seq<Event>, order: R.WriteOrder, h: nat)
    requires RunOk(s, evs, order) && order != R.DoneFirst
    ensures CleanFor(s, evs, order, h)
    decreases |evs|
  {
    if evs != [] {
      var s1, e := End(s, evs[..|evs| - 1], order), evs[|evs| - 1];
      AlwaysClean(s, evs[..|evs| - 1], order, h);
      if e.Return? && e.h == h {
        L.NoReturnInWindow(CoreOf(s1), order, h);
      }
    }
  }

  lemma StepPrompt(s: Server, e: Event, order: R.WriteOrder, h: nat)
    requires Inv(s, order) && Enabled(s, e) && CleanStep(s, e, h) && V.Prompt(CoreOf(s), s.landed, order, h)
    ensures V.Prompt(CoreOf(Step(s, e, order)), Step(s, e, order).landed, order, h)
  {
    StepRefines(s, e, order);
    StepLands(s, e, order);
    match MoveOf(s, e)
    case None =>
    case Some(m) => V.MovePrompt(CoreOf(s), s.landed, m, order, h);
  }

  /** On a run that is clean for h, no early write for h is still to come. */
  lemma {:induction false} RunPrompt(u: Setup, evs: seq<Event>, order: R.WriteOrder, h: nat)
    requires Proper(u) && RunOk(Start(u), evs, order) && CleanFor(Start(u), evs, order, h)
    ensures var s := End(Start(u), evs, order); V.Prompt(CoreOf(s), s.landed, order, h)
    decreases |evs|
  {
    if evs == [] {
      StartInv(u, order);
    } else {
      RunPrompt(u, evs[..|evs| - 1], order, h);
      StepPrompt(End(Start(u), evs[..|evs| - 1], order), evs[|evs| - 1], order, h);
    }
  }

  /** What a handler that may return reads, in every reachable state and with the code's write order: the
      result of its own request, if and only if that was stored last, or what was stored last (or the
      initial value, if nothing was) is equal to it. */
  lemma ReplyVerdict(u: Setup, evs: seq<Event>, order: R.WriteOrder, h: nat)
    requires Proper(u) && RunOk(Start(u), evs, order) && Enabled(End(Start(u), evs, order), Return(h))
    ensures var s := End(Start(u), evs, order); V.Verdict(CoreOf(s), s.landed, h)
  {
    StateVerdict(End(Start(u), evs, order), order, h);
  }

  lemma StateVerdict(s: Server, order: R.WriteOrder, h: nat)
    requires Inv(s, order) && Enabled(s, Return(h))
    ensures V.Verdict(CoreOf(s), s.landed, h)
  {
    V.ReturnVerdict(CoreOf(s), s.landed, order, h);
  }

  // ---------------------------------------------------------------- the direct server

  /** startup_server.c: the handler thread itself runs each request, and the update thread each refresh,
      against the database; what it returns is what it computed. */
  datatype Direct = Direct(db: Store, log: seq<Exec>)

  function DirectUser(d: Direct, txn: Entry<R.UserTxn>): (d': Direct)
    requires IndexInTable(d.db.tables)
    ensures IndexInTable(d'.db.tables)
  {
    var (db, rc) := Dispatch(d.db, txn.body.request);
    Direct(db, d.log + [Answered(txn, rc)])
  }

  function DirectRefresh(d: Direct, refresh: Entry<string>, up: bool): (d': Direct)
    requires IndexInTable(d.db.tables)
    ensures IndexInTable(d'.db.tables)
  {
    var (db, rc) := Refresh(d.db, refresh.body, up);
    Direct(db, d.log + [Refreshed(refresh, up, rc)])
  }

  /** The direct server on the same transactions, in the given order. */
  function Replay(db: Store, execs: seq<Exec>): (d: Direct)
    requires IndexInTable(db.tables)
    ensures IndexInTable(d.db.tables)
  {
    if execs == [] then Direct(db, [])
    else
      var d := Replay(db, execs[..|execs| - 1]);
      match execs[|execs| - 1]
      case Answered(txn, _) => DirectUser(d, txn)
      case Refreshed(refresh, up, _) => DirectRefresh(d, refresh, up)
  }

  /** The view of the queued server as a direct one. */
  function DirectOf(s: Server): Direct {
    Direct(s.db, s.execs)
  }

  /** Forward simulation: every step of the queued server is a step of the direct one, or no step. */
  lemma StepSimulates(s: Server, e: Event, order: R.WriteOrder)
    requires Sound(s) && Enabled(s, e)
    ensures DirectOf(Step(s, e, order)) ==
              match e {
                case RunUser(p) => DirectUser(DirectOf(s), s.procs[p].txn)
                case RunRefresh(p, up) => DirectRefresh(DirectOf(s), s.procs[p].refresh, up)
                case _ => DirectOf(s)
              }
  {
    StepCases(s, e, order);
    if e.UserQ? {
      UserQRefines(s, e.ue, order);
    } else if e.SysQ? {
      SysQRefines(s, e.se, order);
    } else if Local(e) {
      LocalRefines(s, e, order);
    }
  }

  lemma ReplayUser(db: Store, d: Direct, txn: Entry<R.UserTxn>)
    requires IndexInTable(db.tables) && Replay(db, d.log) == d
    ensures Replay(db, DirectUser(d, txn).log) == DirectUser(d, txn)
  {
    var log := DirectUser(d, txn).log;
    assert log[..|log| - 1] == d.log;
  }

  lemma ReplayRefresh(db: Store, d: Direct, refresh: Entry<string>, up: bool)
    requires IndexInTable(db.tables) && Replay(db, d.log) == d
    ensures Replay(db, DirectRefresh(d, refresh, up).log) == DirectRefresh(d, refresh, up)
  {
    var log := DirectRefresh(d, refresh, up).log;
    assert log[..|log| - 1] == d.log;
  }

  lemma StepReplays(db: Store, s: Server, e: Event, order: R.WriteOrder)
    requires Sound(s) && Enabled(s, e) && IndexInTable(db.tables) && Replay(db, s.execs) == DirectOf(s)
    ensures Replay(db, Step(s, e, order).execs) == DirectOf(Step(s, e, order))
  {
    StepSimulates(s, e, order);
    match e
    case RunUser(p) => ReplayUser(db, DirectOf(s), s.procs[p].txn);
    case RunRefresh(p, up) => ReplayRefresh(db, DirectOf(s), s.procs[p].refresh, up);
    case _ =>
  }

  lemma {:induction false} RunReplays(u: Setup, evs: seq<Event>, order: R.WriteOrder)
    requires Proper(u) && RunOk(Start(u), evs, order)
    ensures Replay(u.db, End(Start(u), evs, order).execs) == DirectOf(End(Start(u), evs, order))
    decreases |evs|
  {
    if evs != [] {
      RunReplays(u, evs[..|evs| - 1], order);
      StepReplays(u.db, End(Start(u), evs[..|evs| - 1], order), evs[|evs| - 1], order);
    }
  }

  // ---------------------------------------------------------------- what each handler is told

  /** A result as it is compared: itself, or, where only the requests matter, nothing. */
  function Seen(rc: int, exact: bool): int {
    if exact then rc else SUCCESS
  }

  /** What a handler returned, oldest first. */
  function RepliesOf(replies: seq<Reply>, h: nat, exact: bool): seq<(Request, int)> {
    if replies == [] then []
    else
      var last := replies[|replies| - 1];
      RepliesOf(replies[..|replies| - 1], h, exact)
        + (if last.handler == h then [(last.request, Seen(last.rc, exact))] else [])
  }

  /** The requests of a handler that met the database, in that order, and their results. */
  function AnswersOf(execs: seq<Exec>, h: nat, exact: bool): seq<(Request, int)> {
    if execs == [] then []
    else
      var last := execs[|execs| - 1];
      AnswersOf(execs[..|execs| - 1], h, exact)
        + (if last.Answered? && last.txn.body.owner == h then [(last.txn.body.request, Seen(last.rc, exact))] else [])
  }

  /** What a handler still has to return. */
  function PendingOf(handlers: map<nat, R.Handler>, outcomes: map<nat, int>, h: nat, exact: bool): seq<(Request, int)> {
    if h in handlers && handlers[h].Spinning? && handlers[h].ticket in outcomes
    then [(handlers[h].request, Seen(outcomes[handlers[h].ticket], exact))] else []
  }

  /** A handler returned once for each of its requests, in order; and, if exact, with its result. */
  ghost predicate ToldOk(s: Server, h: nat, exact: bool) {
    RepliesOf(s.replies, h, exact) + PendingOf(s.handlers, s.outcomes, h, exact) == AnswersOf(s.execs, h, exact)
  }

  lemma RepliesMore(replies: seq<Reply>, last: Reply, h: nat, exact: bool)
    ensures RepliesOf(replies + [last], h, exact)
         == RepliesOf(replies, h, exact) + (if last.handler == h then [(last.request, Seen(last.rc, exact))] else [])
  {
    assert (replies + [last])[..|replies|] == replies;
  }

  /** A handler returns what it still had to return. */
  lemma ReturnsPending(c: R.Core, landed: map<nat, nat>, order: R.WriteOrder, g: nat, h: nat, exact: bool)
    requires A.Kept(c, order) && V.Recorded(c, landed) && R.Can(c, R.Return(g))
    requires exact && g == h ==> V.Prompt(c, landed, order, h) && !R.InWindow(c.hands, h)
    ensures PendingOf(c.handlers, c.outcomes, h, exact)
         == (if g == h then [(c.handlers[g].request, Seen(c.cells[g].rc, exact))] else [])
            + PendingOf(c.handlers[g := R.Idle], c.outcomes, h, exact)
  {
    A.ReturnsOwn(c, order, g);
    if exact && g == h {
      V.PromptReturn(c, landed, order, h);
    }
  }

  lemma ReturnTold(s: Server, g: nat, order: R.WriteOrder, h: nat, exact: bool)
    requires Inv(s, order) && Enabled(s, Return(g)) && ToldOk(s, h, exact)
    requires exact ==> V.Prompt(CoreOf(s), s.landed, order, h) && CleanStep(s, Return(g), h)
    ensures ToldOk(LocalStep(s, Return(g)), h, exact)
  {
    ReturnsPending(CoreOf(s), s.landed, order, g, h, exact);
    var last := Reply(g, s.handlers[g].request, s.cells[g].rc);
    RepliesMore(s.replies, last, h, exact);
    ReturnEffect(s, g);
    Tell(RepliesOf(s.replies, h, exact), if g == h then [(last.request, Seen(last.rc, exact))] else [],
         PendingOf(s.handlers[g := R.Idle], s.outcomes, h, exact), AnswersOf(s.execs, h, exact));
  }

  lemma Tell(told: seq<(Request, int)>, more: seq<(Request, int)>, left: seq<(Request, int)>, all: seq<(Request, int)>)
    requires told + (more + left) == all
    ensures (told + more) + left == all
  {
  }

  lemma ReturnEffect(s: Server, g: nat)
    requires Sound(s) && Enabled(s, Return(g))
    ensures var s' := LocalStep(s, Return(g));
            && s'.replies == s.replies + [Reply(g, s.handlers[g].request, s.cells[g].rc)]
            && s'.handlers == s.handlers[g := R.Idle] && s'.outcomes == s.outcomes && s'.execs == s.execs
  {
  }

  /** A result that becomes known is news for the owner of the transaction, and for nobody else. */
  lemma NewsForOwner(c: R.Core, order: R.WriteOrder, p: nat, rc: int, h: nat, exact: bool)
    requires A.Kept(c, order) && R.Can(c, R.Run(p, rc))
    ensures var txn := c.hands[p].txn;
            && (txn.body.owner == h ==> PendingOf(c.handlers, c.outcomes, h, exact) == [])
            && PendingOf(c.handlers, c.outcomes[txn.ticket := rc], h, exact)
                 == (if txn.body.owner == h then [(txn.body.request, Seen(rc, exact))]
                     else PendingOf(c.handlers, c.outcomes, h, exact))
  {
    A.WaitsForHeld(c, order, p);
    var txn := c.hands[p].txn;
    if h in c.handlers && c.handlers[h].Spinning? && c.handlers[h].ticket == txn.ticket {
      A.OneOwner(c, order, h, txn.body.owner);
    }
  }

  lemma RunUserTold(s: Server, p: nat, order: R.WriteOrder, h: nat, exact: bool)
    requires Inv(s, order) && Enabled(s, RunUser(p)) && ToldOk(s, h, exact)
    ensures ToldOk(RunUserStep(s, p), h, exact)
  {
    NewsForOwner(CoreOf(s), order, p, Dispatch(s.db, s.procs[p].txn.body.request).1, h, exact);
    UserTold(s, p, h, exact);
  }

  lemma UserTold(s: Server, p: nat, h: nat, exact: bool)
    requires Sound(s) && Enabled(s, RunUser(p)) && ToldOk(s, h, exact)
    requires var txn, rc := s.procs[p].txn, Dispatch(s.db, s.procs[p].txn.body.request).1;
             && (txn.body.owner == h ==> PendingOf(s.handlers, s.outcomes, h, exact) == [])
             && PendingOf(s.handlers, s.outcomes[txn.ticket := rc], h, exact)
                  == (if txn.body.owner == h then [(txn.body.request, Seen(rc, exact))]
                      else PendingOf(s.handlers, s.outcomes, h, exact))
    ensures ToldOk(RunUserStep(s, p), h, exact)
  {
    var txn, rc := s.procs[p].txn, Dispatch(s.db, s.procs[p].txn.body.request).1;
    AnswersMore(s.execs, txn, rc, h, exact);
    RunUserEffect(s, p);
  }

  lemma RunUserEffect(s: Server, p: nat)
    requires Sound(s) && Enabled(s, RunUser(p))
    ensures var s', txn := RunUserStep(s, p), s.procs[p].txn; var rc := Dispatch(s.db, txn.body.request).1;
            && s'.replies == s.replies && s'.handlers == s.handlers
            && s'.execs == s.execs + [Answered(txn, rc)] && s'.outcomes == s.outcomes[txn.ticket := rc]
  {
  }

  lemma AnswersMore(execs: seq<Exec>, txn: Entry<R.UserTxn>, rc: int, h: nat, exact: bool)
    ensures AnswersOf(execs + [Answered(txn, rc)], h, exact)
         == AnswersOf(execs, h, exact) + (if txn.body.owner == h then [(txn.body.request, Seen(rc, exact))] else [])
  {
    assert (execs + [Answered(txn, rc)])[..|execs|] == execs;
  }

  /** What the user queue does to a handler leaves what it still has to return. */
  lemma QueuePending(c: R.Core, order: R.WriteOrder, g: nat, handler: R.Handler, h: nat, exact: bool)
    requires A.Kept(c, order) && g in c.handlers && c.handlers[g].Entering?
    requires handler.Spinning? && (handler.ticket == 0 || handler.ticket > |c.puts|)
    ensures PendingOf(c.handlers[g := handler], c.outcomes, h, exact) == PendingOf(c.handlers, c.outcomes, h, exact)
  {
    A.KnownTickets(c, order);
  }

  lemma QueueTold(s: Server, ue: M.Event<R.UserTxn>, order: R.WriteOrder, h: nat, exact: bool)
    requires Inv(s, order) && UserQEnabled(s, ue) && ToldOk(s, h, exact)
    ensures ToldOk(UserQStep(s, ue), h, exact)
  {
    if ue.Put? || ue.PutDie? {
      QueueFacts(s.user);
      QueuePending(CoreOf(s), order, ue.t, UserQStep(s, ue).handlers[ue.t], h, exact);
    }
  }

  predicate Speaks(e: Event) {
    e.Return? || e.RunUser? || e.RunRefresh? || e.UserQ?
  }

  /** Other events tell nobody anything. */
  lemma RestTold(s: Server, e: Event, order: R.WriteOrder, h: nat, exact: bool)
    requires Sound(s) && Enabled(s, e) && !Speaks(e) && ToldOk(s, h, exact)
    ensures ToldOk(Step(s, e, order), h, exact)
  {
    RestSilent(s, e, order);
    if e.Call? {
      CallSilent(s.handlers, s.outcomes, e.h, R.Entering(e.request), h, exact);
    }
  }

  lemma RestSilent(s: Server, e: Event, order: R.WriteOrder)
    requires Sound(s) && Enabled(s, e) && !Speaks(e)
    ensures var s' := Step(s, e, order);
            && s'.replies == s.replies && s'.execs == s.execs && s'.outcomes == s.outcomes
            && s'.handlers == if e.Call? then s.handlers[e.h := R.Entering(e.request)] else s.handlers
  {
    StepCases(s, e, order);
    if e.SysQ? {
      SysQSilent(s, e.se);
    }
  }

  lemma SysQSilent(s: Server, se: M.Event<string>)
    requires Sound(s) && SysQEnabled(s, se)
    ensures var s' := SysQStep(s, se);
            s'.replies == s.replies && s'.execs == s.execs && s'.outcomes == s.outcomes && s'.handlers == s.handlers
  {
  }

  lemma CallSilent(handlers: map<nat, R.Handler>, outcomes: map<nat, int>, g: nat, to: R.Handler, h: nat, exact: bool)
    requires g in handlers && !handlers[g].Spinning? && !to.Spinning?
    ensures PendingOf(handlers[g := to], outcomes, h, exact) == PendingOf(handlers, outcomes, h, exact)
  {
  }

  lemma RunRefreshTold(s: Server, p: nat, up: bool, h: nat, exact: bool)
    requires Sound(s) && Enabled(s, RunRefresh(p, up)) && ToldOk(s, h, exact)
    ensures ToldOk(RunRefreshStep(s, p, up), h, exact)
  {
  }

  lemma StepTold(s: Server, e: Event, order: R.WriteOrder, h: nat, exact: bool)
    requires Inv(s, order) && Enabled(s, e) && ToldOk(s, h, exact)
    requires exact ==> V.Prompt(CoreOf(s), s.landed, order, h) && CleanStep(s, e, h)
    ensures ToldOk(Step(s, e, order), h, exact)
  {
    StepCases(s, e, order);
    match e
    case Return(g) => ReturnTold(s, g, order, h, exact);
    case RunUser(p) => RunUserTold(s, p, order, h, exact);
    case RunRefresh(p, up) => RunRefreshTold(s, p, up, h, exact);
    case UserQ(ue) => QueueTold(s, ue, order, h, exact);
    case _ => RestTold(s, e, order, h, exact);
  }

  lemma {:induction false} RunTold(u: Setup, evs: seq<Event>, order: R.WriteOrder, h: nat, exact: bool)
    requires Proper(u) && RunOk(Start(u), evs, order) && (exact ==> CleanFor(Start(u), evs, order, h))
    ensures ToldOk(End(Start(u), evs, order), h, exact)
    decreases |evs|
  {
    if evs != [] {
      RunTold(u, evs[..|evs| - 1], order, h, exact);
      if exact {
        RunPrompt(u, evs[..|evs| - 1], order, h);
      }
      StepTold(End(Start(u), evs[..|evs| - 1], order), evs[|evs| - 1], order, h, exact);
    }
  }

  /** What handler h returned is a prefix of what its requests resulted in, and all of it unless it waits. */
  ghost predicate Told(s: Server, h: nat, exact: bool) {
    && RepliesOf(s.replies, h, exact) <= AnswersOf(s.execs, h, exact)
    && (h in s.handlers && !s.handlers[h].Spinning? ==> RepliesOf(s.replies, h, exact) == AnswersOf(s.execs, h, exact))
  }

  ghost predicate AllTold(s: Server, exact: bool) {
    forall h :: Told(s, h, exact)
  }

  lemma HandlerTold(u: Setup, evs: seq<Event>, order: R.WriteOrder, h: nat, exact: bool)
    requires Proper(u) && RunOk(Start(u), evs, order) && (exact ==> CleanFor(Start(u), evs, order, h))
    ensures Told(End(Start(u), evs, order), h, exact)
  {
    RunTold(u, evs, order, h, exact);
  }

  /** The queued server refines the direct one. After any run, with any number of threads and any write
      order, the database is what the direct server makes of the same transactions in the order they met
      it, with the same results, and each handler returned once for each of its requests, in order. What
      a handler returned is what the direct server gives, unless txn_done is written first and this very
      handler has returned between two writes for it. */
  lemma QueuedRefinesDirect(u: Setup, evs: seq<Event>, order: R.WriteOrder)
    requires Proper(u) && RunOk(Start(u), evs, order)
    ensures var s := End(Start(u), evs, order);
            && Replay(u.db, s.execs) == Direct(s.db, s.execs)
            && (forall h :: Told(s, h, false))
            && (forall h :: order != R.DoneFirst || CleanFor(Start(u), evs, order, h) ==> Told(s, h, true))
  {
    RunReplays(u, evs, order);
    forall h ensures Told(End(Start(u), evs, order), h, false) {
      HandlerTold(u, evs, order, h, false);
    }
    forall h | order != R.DoneFirst || CleanFor(Start(u), evs, order, h)
      ensures Told(End(Start(u), evs, order), h, true)
    {
      if order != R.DoneFirst {
        AlwaysClean(Start(u), evs, order, h);
      }
      HandlerTold(u, evs, order, h, true);
    }
  }
}
