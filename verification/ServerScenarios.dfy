/** Progress of the queued server, and the runs that show where it promises less. */
module ServerScenarios {
  import opened Ring
  import M = Monitor
  import R = ReplyProtocol
  import L = ReplyLaws
  import A = ReplyAlways
  import V = ReplyResults
  import opened Ledger
  import opened Server
  import opened ServerInvariants
  import opened ServerRuns
  import S = ServerLaws

  // ---------------------------------------------------------------- no starvation

  datatype Side = UserSide | SysSide

  function Puts(s: Server, side: Side): nat {
    if side.UserSide? then |s.user.puts| else |s.sys.puts|
  }

  function Takes(s: Server, side: Side): nat {
    if side.UserSide? then |s.user.takes| else |s.sys.takes|
  }

  /** The event ends a processing thread's pass over a queue: it takes a transaction, or finds none. */
  predicate Pass(s: Server, e: Event, side: Side) {
    if side.UserSide? then
      || (e.UserQ? && e.ue.Take?)
      || (e.Look? && e.p in s.procs && (s.procs[e.p].AtUser? || s.procs[e.p].AtUserAgain?) && s.user.ring.occupied == 0)
    else
      || (e.SysQ? && e.se.Take?)
      || (e.Look? && e.p in s.procs && s.procs[e.p].AtSys? && !s.die && s.sys.ring.occupied == 0)
  }

  ghost function Passes(s: Server, evs: seq<Event>, order: R.WriteOrder, side: Side): nat
    requires RunOk(s, evs, order)
    decreases |evs|
  {
    if evs == [] then 0
    else
      var init, e := evs[..|evs| - 1], evs[|evs| - 1];
      Passes(s, init, order, side) + (if Pass(End(s, init, order), e, side) then 1 else 0)
  }

  /** How an event moves the history of a queue: each pass takes one more transaction, or finds that all
      of them are taken. */
  lemma PassTakes(s: Server, e: Event, order: R.WriteOrder, side: Side)
    requires Sound(s) && Enabled(s, e)
    ensures var s' := Step(s, e, order);
            && Takes(s, side) <= Puts(s, side) <= Puts(s', side) && Takes(s, side) <= Takes(s', side)
            && (Pass(s, e, side) ==> Takes(s', side) == Takes(s, side) + 1 || Takes(s, side) == Puts(s, side))
  {
    StepRefines(s, e, order);
    QueueHolds(s.user);
    QueueHolds(s.sys);
    if e.UserQ? {
      QueueMoves(s.user, e.ue, s.die);
    } else if e.SysQ? {
      QueueMoves(s.sys, e.se, s.die);
    }
  }

  lemma QueueHolds<T>(m: M.Mon<T>)
    requires M.Inv(m)
    ensures |m.puts| == |m.takes| + m.ring.occupied
  {
  }

  lemma QueueMoves<T>(m: M.Mon<T>, e: M.Event<T>, die: bool)
    requires M.Inv(m) && M.Enabled(m, e, die)
    ensures var m' := M.Step(m, e, die);
            && |m'.puts| == |m.puts| + (if e.Put? then 1 else 0) && |m'.takes| == |m.takes| + (if e.Take? then 1 else 0)
  {
  }

  /** No starvation: a queue's k-th oldest transaction is taken by the k-th pass over that queue, counted
      over all processing threads, whatever arrives meanwhile in either queue. */
  lemma {:induction false} NoStarvation(s: Server, evs: seq<Event>, order: R.WriteOrder, side: Side)
    requires RunOk(s, evs, order)
    ensures var s' := End(s, evs, order);
            && Takes(s', side) <= Puts(s', side) && Puts(s, side) <= Puts(s', side)
            && (Takes(s', side) >= Takes(s, side) + Passes(s, evs, order, side) || Takes(s', side) >= Puts(s, side))
    decreases |evs|
  {
    if evs == [] {
      assert |s.user.puts| == |s.user.takes| + s.user.ring.occupied;
      assert |s.sys.puts| == |s.sys.takes| + s.sys.ring.occupied;
    } else {
      NoStarvation(s, evs[..|evs| - 1], order, side);
      LastTakes(s, evs, order, side);
    }
  }

  /** The last step of a run. */
  lemma LastTakes(s: Server, evs: seq<Event>, order: R.WriteOrder, side: Side)
    requires evs != [] && RunOk(s, evs, order)
    ensures var s1, s2 := End(s, evs[..|evs| - 1], order), End(s, evs, order);
            && Takes(s1, side) <= Puts(s1, side) <= Puts(s2, side)
            && Takes(s1, side) <= Takes(s2, side) <= Puts(s2, side)
            && (Pass(s1, evs[|evs| - 1], side) ==>
                  Takes(s2, side) == Takes(s1, side) + 1 || Takes(s1, side) == Puts(s1, side))
  {
    PassTakes(End(s, evs[..|evs| - 1], order), evs[|evs| - 1], order, side);
    var s2 := End(s, evs, order);
    assert |s2.user.puts| == |s2.user.takes| + s2.user.ring.occupied;
    assert |s2.sys.puts| == |s2.sys.takes| + s2.sys.ring.occupied;
  }

  /** Between its pass over the system queue and its pass over the user queue. */
  predicate InUserPart(at: Proc) {
    at.GotSys? || at.SysAdmit? || at.SysDec? || at.AtUser? || at.AtUserAgain? || at.TakeUser?
  }

  ghost predicate Alternates(s: Server, e: Event, s': Server, p: nat) {
    && p in s.procs && p in s'.procs
    && (if Pass(s, e, SysSide) then 1 else 0) + (if InUserPart(s.procs[p]) then 1 else 0)
         == (if Pass(s, e, UserSide) then 1 else 0) + (if InUserPart(s'.procs[p]) then 1 else 0)
  }

  lemma AlternateUserQ(s: Server, ue: M.Event<R.UserTxn>, p: nat)
    requires Sound(s) && UserQEnabled(s, ue) && S.AloneOk(s, p)
    ensures Alternates(s, UserQ(ue), UserQStep(s, ue), p)
  {
  }

  lemma AlternateSysQ(s: Server, se: M.Event<string>, p: nat)
    requires Sound(s) && SysQEnabled(s, se) && S.AloneOk(s, p)
    ensures Alternates(s, SysQ(se), SysQStep(s, se), p)
  {
  }

  lemma AlternateRest(s: Server, e: Event, order: R.WriteOrder, p: nat)
    requires Sound(s) && Enabled(s, e) && !e.UserQ? && !e.SysQ? && S.AloneOk(s, p)
    ensures Alternates(s, e, Step(s, e, order), p)
  {
    assert forall t :: t in s.procs ==> t == p;
    StepCases(s, e, order);
  }

  lemma AlternateStep(s: Server, e: Event, order: R.WriteOrder, p: nat)
    requires Sound(s) && Enabled(s, e) && S.AloneOk(s, p)
    ensures Alternates(s, e, Step(s, e, order), p)
  {
    StepCases(s, e, order);
    if e.UserQ? {
      AlternateUserQ(s, e.ue, p);
    } else if e.SysQ? {
      AlternateSysQ(s, e.se, p);
    } else {
      AlternateRest(s, e, order, p);
    }
  }

  /** With one processing thread the passes over the two queues alternate, so neither queue can keep the
      thread from the other. */
  lemma {:induction false} PassesAlternate(u: Setup, evs: seq<Event>, order: R.WriteOrder, p: nat)
    requires Proper(u) && u.procs == {p} && RunOk(Start(u), evs, order)
    ensures var s := End(Start(u), evs, order);
            && p in s.procs
            && Passes(Start(u), evs, order, SysSide)
                 == Passes(Start(u), evs, order, UserSide) + (if InUserPart(s.procs[p]) then 1 else 0)
    decreases |evs|
  {
    if evs != [] {
      PassesAlternate(u, evs[..|evs| - 1], order, p);
      S.RunAlone(u, evs[..|evs| - 1], order, p);
      AlternateStep(End(Start(u), evs[..|evs| - 1], order), evs[|evs| - 1], order, p);
    }
  }

  // ---------------------------------------------------------------- building runs

  /** One more event at the end of a run. */
  lemma Extend(s: Server, evs: seq<Event>, e: Event, order: R.WriteOrder)
    requires RunOk(s, evs, order) && Enabled(End(s, evs, order), e)
    ensures RunOk(s, evs + [e], order)
    ensures End(s, evs + [e], order) == Step(End(s, evs, order), e, order)
  {
    assert (evs + [e])[..|evs + [e]| - 1] == evs;
  }

  // ---------------------------------------------------------------- replies that come too early or too late

  /** A server that nothing disturbs: no refreshes, no waiting threads, no throttling, nobody asked to die. */
  datatype Scene = Scene(
    db: Store, procs: map<nat, Proc>, handlers: map<nat, R.Handler>, cells: map<nat, R.Cell>,
    queue: seq<Entry<R.UserTxn>>, tickets: nat, execs: seq<Exec>, replies: seq<Reply>)

  ghost predicate Shows(s: Server, q: Scene) {
    && Sound(s) && !s.die && s.toWait == 0 && s.sys.ring.occupied == 0
    && s.db == q.db && s.procs == q.procs && s.handlers == q.handlers && s.cells == q.cells
    && Contents(s.user.ring) == q.queue && s.user.ring.ticketReq == q.tickets
    && s.execs == q.execs && s.replies == q.replies
    && s.user.parkedC == {} && s.user.wokenC == {} && s.user.parkedP == {} && s.user.wokenP == {}
  }

  ghost function Opening(u: Setup): Scene
    requires Proper(u)
  {
    Scene(u.db, Start(u).procs, Start(u).handlers, Start(u).cells, [], 0, [], [])
  }

  /** Handler h submits a request. */
  function Called(q: Scene, h: nat, request: Request): Scene {
    q.(handlers := q.handlers[h := R.Entering(request)], cells := q.cells[h := R.Cell(false, 0)])
  }

  function Queued(q: Scene, h: nat, request: Request): Scene {
    q.(handlers := q.handlers[h := R.Spinning(request, q.tickets + 1)],
       queue := q.queue + [Entry(q.tickets + 1, R.UserTxn(h, request))], tickets := q.tickets + 1)
  }

  function Submitted(q: Scene, h: nat, request: Request): Scene {
    Queued(Called(q, h, request), h, request)
  }

  function Moved(q: Scene, p: nat, at: Proc): Scene {
    q.(procs := q.procs[p := at])
  }

  /** Thread p dequeues the oldest request, and runs what it has. */
  function Fetched(q: Scene, p: nat): Scene
    requires q.queue != []
  {
    Moved(q, p, GotUser(q.queue[0])).(queue := q.queue[1..])
  }

  function Ran(q: Scene, p: nat, txn: Entry<R.UserTxn>): Scene
    requires IndexInTable(q.db.tables)
  {
    var (db, rc) := Dispatch(q.db, txn.body.request);
    Moved(q, p, RanUser(txn, rc)).(db := db, execs := q.execs + [Answered(txn, rc)])
  }

  /** Thread p makes one of the two writes. */
  function Wrote(q: Scene, p: nat): Scene
    requires p in q.procs && (q.procs[p].RanUser? || q.procs[p].HalfUser?) && q.procs[p].txn.body.owner in q.cells
  {
    var at := q.procs[p];
    var h := at.txn.body.owner;
    Moved(q, p, if at.RanUser? then HalfUser(at.txn, at.rc) else Admit).(
      cells := q.cells[h := if at.RanUser? then q.cells[h].(done := true) else q.cells[h].(rc := at.rc)])
  }

  function Returned(q: Scene, h: nat): Scene
    requires h in q.handlers && q.handlers[h].Spinning? && h in q.cells
  {
    q.(handlers := q.handlers[h := R.Idle], replies := q.replies + [Reply(h, q.handlers[h].request, q.cells[h].rc)])
  }

  lemma StageCall(s: Server, q: Scene, h: nat, request: Request)
    requires Shows(s, q) && h in q.handlers && q.handlers[h].Idle?
    ensures Enabled(s, Call(h, request)) && Shows(Step(s, Call(h, request), R.DoneFirst), Called(q, h, request))
  {
  }

  lemma StagePut(s: Server, q: Scene, h: nat, request: Request)
    requires Shows(s, q) && h in q.handlers && q.handlers[h] == R.Entering(request) && |q.queue| < SIZE
    ensures var e := UserQ(M.Put(h, R.UserTxn(h, request), {}));
            Enabled(s, e) && Shows(Step(s, e, R.DoneFirst), Queued(q, h, request))
  {
    var ue := M.Put(h, R.UserTxn(h, request), {});
    M.StepInv(s.user, ue, s.die);
    EnqueuedRefines(s.user.ring, R.UserTxn(h, request));
    StepCases(s, UserQ(ue), R.DoneFirst);
  }

  /** The tests a thread can make, and where they lead in a scene. */
  predicate Tests(q: Scene, at: Proc) {
    at.Admit? || at.AtSys? || (q.queue != [] && (at.AtUser? || at.AtUserAgain?))
  }

  function AfterTest(at: Proc): Proc {
    match at
    case AtSys => AtUser
    case AtUser => AtUserAgain
    case Admit => AtSys
    case _ => TakeUser
  }

  lemma StageLook(s: Server, q: Scene, p: nat)
    requires Shows(s, q) && p in q.procs && Tests(q, q.procs[p])
    ensures Enabled(s, Look(p)) && Shows(Step(s, Look(p), R.DoneFirst), Moved(q, p, AfterTest(q.procs[p])))
  {
    StepCases(s, Look(p), R.DoneFirst);
  }

  lemma StageTake(s: Server, q: Scene, p: nat)
    requires Shows(s, q) && p in q.procs && q.procs[p].TakeUser? && q.queue != []
    ensures var e := UserQ(M.Take(p, {})); Enabled(s, e) && Shows(Step(s, e, R.DoneFirst), Fetched(q, p))
  {
    M.StepInv(s.user, M.Take(p, {}), s.die);
    DequeuedRefines(s.user.ring);
    StepCases(s, UserQ(M.Take(p, {})), R.DoneFirst);
  }

  lemma StageRun(s: Server, q: Scene, p: nat)
    requires Shows(s, q) && p in q.procs && q.procs[p].GotUser?
    ensures Enabled(s, RunUser(p)) && Shows(Step(s, RunUser(p), R.DoneFirst), Ran(q, p, q.procs[p].txn))
  {
  }

  lemma StageWrite(s: Server, q: Scene, p: nat)
    requires Shows(s, q) && p in q.procs && (q.procs[p].RanUser? || q.procs[p].HalfUser?)
    requires q.procs[p].txn.body.owner in q.cells
    ensures Enabled(s, Write(p)) && Shows(Step(s, Write(p), R.DoneFirst), Wrote(q, p))
  {
  }

  lemma StageReturn(s: Server, q: Scene, h: nat)
    requires Shows(s, q) && h in q.handlers && q.handlers[h].Spinning? && h in q.cells && q.cells[h].done
    ensures Enabled(s, Return(h)) && Shows(Step(s, Return(h), R.DoneFirst), Returned(q, h))
  {
  }

  /** What one event makes of a scene, if it keeps the server undisturbed. */
  ghost function Next(q: Scene, e: Event): Option<Scene> {
    match e
    case Call(h, request) => if h in q.handlers && q.handlers[h].Idle? then Some(Called(q, h, request)) else None
    case UserQ(Put(h, txn, woke)) =>
      if h in q.handlers && q.handlers[h] == R.Entering(txn.request) && txn.owner == h && |q.queue| < SIZE && woke == {}
      then Some(Queued(q, h, txn.request)) else None
    case UserQ(Take(p, woke)) =>
      if p in q.procs && q.procs[p].TakeUser? && q.queue != [] && woke == {} then Some(Fetched(q, p)) else None
    case Look(p) => if p in q.procs && Tests(q, q.procs[p]) then Some(Moved(q, p, AfterTest(q.procs[p]))) else None
    case RunUser(p) =>
      if p in q.procs && q.procs[p].GotUser? && IndexInTable(q.db.tables) then Some(Ran(q, p, q.procs[p].txn)) else None
    case Write(p) =>
      if p in q.procs && (q.procs[p].RanUser? || q.procs[p].HalfUser?) && q.procs[p].txn.body.owner in q.cells
      then Some(Wrote(q, p)) else None
    case Return(h) =>
      if h in q.handlers && q.handlers[h].Spinning? && h in q.cells && q.cells[h].done
      then Some(Returned(q, h)) else None
    case _ => None
  }

  ghost function Path(q: Scene, evs: seq<Event>): Option<Scene> {
    if evs == [] then Some(q)
    else
      var m := Path(q, evs[..|evs| - 1]);
      if m.Some? then Next(m.value, evs[|evs| - 1]) else None
  }

  lemma StageNext(s: Server, q: Scene, e: Event)
    requires Shows(s, q) && Next(q, e).Some?
    ensures Enabled(s, e) && Shows(Step(s, e, R.DoneFirst), Next(q, e).value)
  {
    match e
    case Call(h, request) => StageCall(s, q, h, request);
    case UserQ(Put(h, txn, _)) => StagePut(s, q, h, txn.request);
    case UserQ(Take(p, _)) => StageTake(s, q, p);
    case Look(p) => StageLook(s, q, p);
    case RunUser(p) => StageRun(s, q, p);
    case Write(p) => StageWrite(s, q, p);
    case Return(h) => StageReturn(s, q, h);
  }

  /** A path of scenes is a run of the server, with the code's order of writes. */
  lemma {:induction false} PathRuns(s: Server, q: Scene, evs: seq<Event>)
    requires Inv(s, R.DoneFirst) && Shows(s, q) && Path(q, evs).Some?
    ensures RunOk(s, evs, R.DoneFirst) && Shows(End(s, evs, R.DoneFirst), Path(q, evs).value)
    decreases |evs|
  {
    if evs != [] {
      PathRuns(s, q, evs[..|evs| - 1]);
      LastStage(s, q, evs);
    }
  }

  lemma LastStage(s: Server, q: Scene, evs: seq<Event>)
    requires evs != [] && RunOk(s, evs[..|evs| - 1], R.DoneFirst) && Path(q, evs).Some?
    requires Shows(End(s, evs[..|evs| - 1], R.DoneFirst), Path(q, evs[..|evs| - 1]).value)
    ensures RunOk(s, evs, R.DoneFirst) && Shows(End(s, evs, R.DoneFirst), Path(q, evs).value)
  {
    StageNext(End(s, evs[..|evs| - 1], R.DoneFirst), Path(q, evs[..|evs| - 1]).value, evs[|evs| - 1]);
  }

  lemma PathMore(q: Scene, evs: seq<Event>, e: Event)
    ensures Path(q, evs).Some? ==> Path(q, evs + [e]) == Next(Path(q, evs).value, e)
  {
    assert (evs + [e])[..|evs|] == evs;
  }

  lemma OneMore(q: Scene, e: Event)
    ensures Path(q, [e]) == Next(q, e)
  {
    PathMore(q, [], e);
    assert [] + [e] == [e];
  }

  lemma TwoMore(q: Scene, e1: Event, e2: Event)
    ensures Next(q, e1).Some? ==> Path(q, [e1] + [e2]) == Next(Next(q, e1).value, e2)
  {
    OneMore(q, e1);
    PathMore(q, [e1], e2);
  }

  lemma {:induction false} PathJoin(q: Scene, a: seq<Event>, b: seq<Event>)
    requires Path(q, a).Some?
    ensures Path(q, a + b) == Path(Path(q, a).value, b)
    decreases |b|
  {
    if b == [] {
      assert a + b == a;
    } else {
      PathJoin(q, a, b[..|b| - 1]);
      assert (a + b)[..|a + b| - 1] == a + b[..|b| - 1];
    }
  }

  function Submit(h: nat, request: Request): seq<Event> {
    [Call(h, request)] + [UserQ(M.Put(h, R.UserTxn(h, request), {}))]
  }

  lemma SubmitPath(q: Scene, h: nat, request: Request)
    requires h in q.handlers && q.handlers[h].Idle? && |q.queue| < SIZE
    ensures Path(q, Submit(h, request)) == Some(Submitted(q, h, request))
  {
    OneMore(q, Call(h, request));
    PathMore(q, [Call(h, request)], UserQ(M.Put(h, R.UserTxn(h, request), {})));
  }

  function Looks(p: nat): seq<Event> {
    [Look(p)] + [Look(p)] + [Look(p)]
  }

  lemma LookNext(q: Scene, p: nat)
    requires p in q.procs && Tests(q, q.procs[p])
    ensures Next(q, Look(p)) == Some(Moved(q, p, AfterTest(q.procs[p])))
  {
  }

  lemma LooksPath(q: Scene, p: nat)
    requires p in q.procs && q.procs[p].AtSys? && q.queue != []
    ensures Path(q, Looks(p)) == Some(Moved(q, p, TakeUser))
  {
    var q1 := Moved(q, p, AtUser);
    var q2 := Moved(q1, p, AtUserAgain);
    LookNext(q, p);
    LookNext(q1, p);
    LookNext(q2, p);
    TwoMore(q, Look(p), Look(p));
    PathMore(q, [Look(p)] + [Look(p)], Look(p));
    assert Moved(q2, p, TakeUser) == Moved(q, p, TakeUser);
  }

  function Approach(p: nat): seq<Event> {
    Looks(p) + [UserQ(M.Take(p, {}))]
  }

  lemma TakeNext(q: Scene, p: nat)
    requires p in q.procs && q.queue != []
    ensures Next(Moved(q, p, TakeUser), UserQ(M.Take(p, {}))) == Some(Fetched(q, p))
  {
    assert Fetched(Moved(q, p, TakeUser), p) == Fetched(q, p);
  }

  lemma ApproachPath(q: Scene, p: nat)
    requires p in q.procs && q.procs[p].AtSys? && q.queue != []
    ensures Path(q, Approach(p)) == Some(Fetched(q, p))
  {
    LooksPath(q, p);
    TakeNext(q, p);
    PathMore(q, Looks(p), UserQ(M.Take(p, {})));
  }

  /** Thread p takes the oldest request, runs it, and makes the first write. */
  function Answer(p: nat): seq<Event> {
    Approach(p) + [RunUser(p)] + [Write(p)]
  }

  lemma RunNext(q: Scene, p: nat)
    requires p in q.procs && q.procs[p].GotUser? && IndexInTable(q.db.tables)
    ensures Next(q, RunUser(p)) == Some(Ran(q, p, q.procs[p].txn))
  {
  }

  lemma FirstWriteNext(q: Scene, p: nat)
    requires p in q.procs && q.procs[p].RanUser? && q.procs[p].txn.body.owner in q.cells
    ensures Next(q, Write(p)) == Some(Wrote(q, p))
  {
  }

  lemma AnswerPath(q: Scene, p: nat)
    requires p in q.procs && q.procs[p].AtSys? && q.queue != [] && IndexInTable(q.db.tables)
    requires q.queue[0].body.owner in q.cells
    ensures Path(q, Answer(p)) == Some(FirstWritten(q, p))
  {
    var q1 := Fetched(q, p);
    var q2 := Ran(q1, p, q.queue[0]);
    ApproachPath(q, p);
    RunNext(q1, p);
    FirstWriteNext(q2, p);
    PathMore(q, Approach(p), RunUser(p));
    PathMore(q, Approach(p) + [RunUser(p)], Write(p));
  }

  function FirstWritten(q: Scene, p: nat): Scene
    requires q.queue != [] && IndexInTable(q.db.tables) && q.queue[0].body.owner in q.cells
  {
    Wrote(Ran(Fetched(q, p), p, q.queue[0]), p)
  }

  /** Handler h submits a request, and thread p answers it up to the first write. */
  function Round(h: nat, p: nat, request: Request): seq<Event> {
    Submit(h, request) + Answer(p)
  }

  /** The scene after a round, from an empty queue. */
  function Rounded(q: Scene, h: nat, p: nat, request: Request): Scene
    requires IndexInTable(q.db.tables)
  {
    var txn := Entry(q.tickets + 1, R.UserTxn(h, request));
    var (db, rc) := Dispatch(q.db, request);
    Scene(db, q.procs[p := HalfUser(txn, rc)], q.handlers[h := R.Spinning(request, txn.ticket)],
          q.cells[h := R.Cell(true, SUCCESS)], [], txn.ticket, q.execs + [Answered(txn, rc)], q.replies)
  }

  lemma RoundScene(q: Scene, h: nat, p: nat, request: Request)
    requires IndexInTable(q.db.tables) && q.queue == []
    ensures FirstWritten(Submitted(q, h, request), p) == Rounded(q, h, p, request)
  {
  }

  lemma RoundPath(q: Scene, h: nat, p: nat, request: Request)
    requires h in q.handlers && q.handlers[h].Idle? && p in q.procs && q.procs[p].AtSys?
    requires q.queue == [] && IndexInTable(q.db.tables)
    ensures Path(q, Round(h, p, request)) == Some(Rounded(q, h, p, request))
  {
    SubmitPath(q, h, request);
    AnswerPath(Submitted(q, h, request), p);
    PathJoin(q, Submit(h, request), Answer(p));
    RoundScene(q, h, p, request);
  }

  /** After a round the handler returns at once, and p still has to write the result. */
  ghost function Early(u: Setup, h: nat, p: nat, request: Request): Scene
    requires Proper(u)
  {
    Returned(Rounded(Opening(u), h, p, request), h)
  }

  lemma EarlyPath(u: Setup, h: nat, p: nat, request: Request)
    requires Proper(u) && h in u.handlers && p in u.procs
    ensures Path(Opening(u), Round(h, p, request) + [Return(h)]) == Some(Early(u, h, p, request))
  {
    RoundPath(Opening(u), h, p, request);
    PathMore(Opening(u), Round(h, p, request), Return(h));
  }

  lemma OpeningShows(u: Setup)
    requires Proper(u)
    ensures Inv(Start(u), R.DoneFirst) && Shows(Start(u), Opening(u))
  {
    StartInv(u, R.DoneFirst);
    assert Contents(Start(u).user.ring) == [];
  }

  /** The code sets txn_done before it writes txn_rc. On any server with a handler and a processing
      thread, and for every request, whatever its result, there is a run on which the handler reports
      success, and the thread is left with a pointer to its txn_rc. */
  lemma StaleReply(u: Setup, h: nat, p: nat, request: Request) returns (evs: seq<Event>)
    requires Proper(u) && h in u.handlers && p in u.procs
    ensures RunOk(Start(u), evs, R.DoneFirst)
    ensures var s := End(Start(u), evs, R.DoneFirst);
            && RepliesOf(s.replies, h, true) == [(request, SUCCESS)]
            && AnswersOf(s.execs, h, true) == [(request, Dispatch(u.db, request).1)]
            && V.Dangling(CoreOf(s), p)
  {
    evs := Round(h, p, request) + [Return(h)];
    OpeningShows(u);
    EarlyPath(u, h, p, request);
    PathRuns(Start(u), Opening(u), evs);
    OneReply(h, request, SUCCESS);
    OneAnswer(h, Entry(1, R.UserTxn(h, request)), Dispatch(u.db, request).1);
    LeftBehind(End(Start(u), evs, R.DoneFirst), Early(u, h, p, request), h, p);
  }

  lemma LeftBehind(s: Server, q: Scene, h: nat, p: nat)
    requires Shows(s, q) && h in q.handlers && q.handlers[h].Idle?
    requires p in q.procs && q.procs[p].HalfUser? && q.procs[p].txn.body.owner == h
    ensures V.Dangling(CoreOf(s), p)
  {
  }

  /** The next request of h is answered by p2 in full; then p makes its second write, for the first. */
  function Overtake(h: nat, p: nat, p2: nat, b: Request): seq<Event> {
    Round(h, p2, b) + [Write(p2)] + [Write(p)]
  }

  ghost function Late(u: Setup, h: nat, p: nat, p2: nat, a: Request, b: Request): Scene
    requires Proper(u) && p in u.procs && p2 in u.procs && p != p2
  {
    Wrote(Wrote(Rounded(Early(u, h, p, a), h, p2, b), p2), p)
  }

  lemma OvertakePath(u: Setup, h: nat, p: nat, p2: nat, a: Request, b: Request)
    requires Proper(u) && h in u.handlers && p in u.procs && p2 in u.procs && p != p2
    ensures Path(Early(u, h, p, a), Overtake(h, p, p2, b)) == Some(Late(u, h, p, p2, a, b))
  {
    var q := Early(u, h, p, a);
    var q1 := Rounded(q, h, p2, b);
    RoundPath(q, h, p2, b);
    SecondWrite(q1, p2);
    SecondWrite(Wrote(q1, p2), p);
    PathMore(q, Round(h, p2, b), Write(p2));
    PathMore(q, Round(h, p2, b) + [Write(p2)], Write(p));
  }

  /** What the last return of LateReply finds: both threads are through, and the result in the cell is
      that of the first request. */
  lemma LateScene(u: Setup, h: nat, p: nat, p2: nat, a: Request, b: Request)
    requires Proper(u) && h in u.handlers && p in u.procs && p2 in u.procs && p != p2
    ensures var q, (db, rc) := Late(u, h, p, p2, a, b), Dispatch(u.db, a);
            && h in q.handlers && q.handlers[h] == R.Spinning(b, 2) && h in q.cells && q.cells[h] == R.Cell(true, rc)
            && q.replies == [Reply(h, a, SUCCESS)]
            && q.execs == [Answered(Entry(1, R.UserTxn(h, a)), rc),
                           Answered(Entry(2, R.UserTxn(h, b)), Dispatch(db, b).1)]
            && (forall t :: t in q.procs ==> !q.procs[t].HalfUser?)
  {
  }

  /** The write that the first return did not wait for can land after the next request of the handler has
      run and both writes for it were made. With two processing threads, and for any two requests, the
      handler then returns the result of the first for the second, although no thread is between two
      writes for it. */
  lemma LateReply(u: Setup, h: nat, p: nat, p2: nat, a: Request, b: Request) returns (evs: seq<Event>)
    requires Proper(u) && h in u.handlers && p in u.procs && p2 in u.procs && p != p2
    ensures RunOk(Start(u), evs, R.DoneFirst) && evs != [] && evs[|evs| - 1] == Return(h)
    ensures CleanStep(End(Start(u), evs[..|evs| - 1], R.DoneFirst), Return(h), h)
    ensures var s, (db, rc) := End(Start(u), evs, R.DoneFirst), Dispatch(u.db, a);
            && RepliesOf(s.replies, h, true) == [(a, SUCCESS), (b, rc)]
            && AnswersOf(s.execs, h, true) == [(a, rc), (b, Dispatch(db, b).1)]
  {
    var (db, rc) := Dispatch(u.db, a);
    var hasty := Round(h, p, a) + [Return(h)];
    var before := hasty + Overtake(h, p, p2, b);
    evs := before + [Return(h)];
    EarlyPath(u, h, p, a);
    OvertakePath(u, h, p, p2, a, b);
    PathJoin(Opening(u), hasty, Overtake(h, p, p2, b));
    LateScene(u, h, p, p2, a, b);
    ReturnFrom(u, before, Late(u, h, p, p2, a, b), h);
    TwoTold(h, Entry(1, R.UserTxn(h, a)), rc, Entry(2, R.UserTxn(h, b)), Dispatch(db, b).1);
  }

  /** The last return of a run that goes through scenes. */
  lemma ReturnFrom(u: Setup, before: seq<Event>, q: Scene, h: nat)
    requires Proper(u) && Path(Opening(u), before) == Some(q)
    requires h in q.handlers && q.handlers[h].Spinning? && h in q.cells && q.cells[h].done
    ensures var evs := before + [Return(h)];
            && evs[..|evs| - 1] == before && RunOk(Start(u), evs, R.DoneFirst)
            && End(Start(u), evs, R.DoneFirst).replies == Returned(q, h).replies
            && End(Start(u), evs, R.DoneFirst).execs == q.execs
    ensures (forall t :: t in q.procs ==> !q.procs[t].HalfUser?) ==>
              CleanStep(End(Start(u), before, R.DoneFirst), Return(h), h)
  {
    var evs := before + [Return(h)];
    OpeningShows(u);
    PathMore(Opening(u), before, Return(h));
    PathRuns(Start(u), Opening(u), before);
    PathRuns(Start(u), Opening(u), evs);
    assert evs[..|evs| - 1] == before;
    NoWriter(End(Start(u), before, R.DoneFirst), q, h);
  }

  lemma NoWriter(s: Server, q: Scene, h: nat)
    requires Shows(s, q)
    ensures (forall p :: p in q.procs ==> !q.procs[p].HalfUser?) ==> CleanStep(s, Return(h), h)
  {
  }

  lemma TwoTold(h: nat, t1: Entry<R.UserTxn>, rc1: int, t2: Entry<R.UserTxn>, rc2: int)
    requires t1.body.owner == h && t2.body.owner == h
    ensures var (a, b) := (t1.body.request, t2.body.request);
            && RepliesOf([Reply(h, a, SUCCESS)] + [Reply(h, b, rc1)], h, true) == [(a, SUCCESS), (b, rc1)]
            && AnswersOf([Answered(t1, rc1), Answered(t2, rc2)], h, true) == [(a, rc1), (b, rc2)]
  {
    var (a, b) := (t1.body.request, t2.body.request);
    OneReply(h, a, SUCCESS);
    RepliesMore([Reply(h, a, SUCCESS)], Reply(h, b, rc1), h, true);
    OneAnswer(h, t1, rc1);
    AnswersMore([Answered(t1, rc1)], t2, rc2, h, true);
    assert [Answered(t1, rc1)] + [Answered(t2, rc2)] == [Answered(t1, rc1), Answered(t2, rc2)];
  }

  /** Thread p makes its second write, and goes round its loop. */
  lemma FinishPath(q: Scene, p: nat)
    requires p in q.procs && q.procs[p].HalfUser? && q.procs[p].txn.body.owner in q.cells
    ensures Path(q, [Write(p)] + [Look(p)]) == Some(Moved(Wrote(q, p), p, AtSys))
  {
    SecondWrite(q, p);
    LookNext(Wrote(q, p), p);
    TwoMore(q, Write(p), Look(p));
  }

  lemma SecondWrite(q: Scene, p: nat)
    requires p in q.procs && q.procs[p].HalfUser? && q.procs[p].txn.body.owner in q.cells
    ensures Next(q, Write(p)) == Some(Wrote(q, p)) && p in Wrote(q, p).procs && Wrote(q, p).procs[p] == Admit
  {
  }

  /** The next request of h is queued when p's late write overwrites the txn_rc it will use. */
  function Overwrite(h: nat, p: nat, b: Request): seq<Event> {
    Submit(h, b) + ([Write(p)] + [Look(p)])
  }

  ghost function Overwritten(u: Setup, h: nat, p: nat, a: Request, b: Request): Scene
    requires Proper(u) && h in u.handlers && p in u.procs
  {
    Moved(Wrote(Submitted(Early(u, h, p, a), h, b), p), p, AtSys)
  }

  lemma OverwritePath(u: Setup, h: nat, p: nat, a: Request, b: Request)
    requires Proper(u) && h in u.handlers && p in u.procs
    ensures Path(Early(u, h, p, a), Overwrite(h, p, b)) == Some(Overwritten(u, h, p, a, b))
  {
    var q := Early(u, h, p, a);
    SubmitPath(q, h, b);
    FinishPath(Submitted(q, h, b), p);
    PathJoin(q, Submit(h, b), [Write(p)] + [Look(p)]);
  }

  lemma OverwrittenScene(u: Setup, h: nat, p: nat, a: Request, b: Request)
    requires Proper(u) && h in u.handlers && p in u.procs
    ensures var q, (db, rc) := Overwritten(u, h, p, a, b), Dispatch(u.db, a);
            && q.db == db && IndexInTable(q.db.tables) && q.queue == [Entry(2, R.UserTxn(h, b))]
            && p in q.procs && q.procs[p] == AtSys && h in q.handlers && q.handlers[h] == R.Spinning(b, 2)
            && h in q.cells && q.cells[h] == R.Cell(false, rc)
            && q.replies == [Reply(h, a, SUCCESS)] && q.execs == [Answered(Entry(1, R.UserTxn(h, a)), rc)]
  {
  }

  function Alone(h: nat, p: nat, a: Request, b: Request): seq<Event> {
    Round(h, p, a) + [Return(h)] + Overwrite(h, p, b) + Answer(p)
  }

  lemma AlonePath(u: Setup, h: nat, p: nat, a: Request, b: Request)
    requires Proper(u) && h in u.handlers && p in u.procs
    ensures Path(Opening(u), Round(h, p, a) + [Return(h)] + Overwrite(h, p, b)) == Some(Overwritten(u, h, p, a, b))
  {
    EarlyPath(u, h, p, a);
    OverwritePath(u, h, p, a, b);
    PathJoin(Opening(u), Round(h, p, a) + [Return(h)], Overwrite(h, p, b));
  }

  lemma AloneScene(u: Setup, h: nat, p: nat, a: Request, b: Request) returns (q: Scene)
    requires Proper(u) && h in u.handlers && p in u.procs
    ensures Path(Opening(u), Alone(h, p, a, b)) == Some(q)
    ensures var (db, rc) := Dispatch(u.db, a);
            && h in q.handlers && q.handlers[h] == R.Spinning(b, 2) && h in q.cells && q.cells[h] == R.Cell(true, rc)
            && q.replies == [Reply(h, a, SUCCESS)]
            && q.execs == [Answered(Entry(1, R.UserTxn(h, a)), rc),
                           Answered(Entry(2, R.UserTxn(h, b)), Dispatch(db, b).1)]
  {
    var start := Overwritten(u, h, p, a, b);
    AlonePath(u, h, p, a, b);
    OverwrittenScene(u, h, p, a, b);
    AnswerPath(start, p);
    PathJoin(Opening(u), Round(h, p, a) + [Return(h)] + Overwrite(h, p, b), Answer(p));
    q := FirstWritten(start, p);
  }

  /** With a single processing thread the late write lands before the next request is answered; the
      handler that then returns as soon as it is told reports the result of the request before. */
  lemma LateReplyAlone(u: Setup, h: nat, p: nat, a: Request, b: Request) returns (evs: seq<Event>)
    requires Proper(u) && h in u.handlers && p in u.procs
    ensures RunOk(Start(u), evs, R.DoneFirst)
    ensures var s, (db, rc) := End(Start(u), evs, R.DoneFirst), Dispatch(u.db, a);
            && RepliesOf(s.replies, h, true) == [(a, SUCCESS), (b, rc)]
            && AnswersOf(s.execs, h, true) == [(a, rc), (b, Dispatch(db, b).1)]
  {
    var (db, rc) := Dispatch(u.db, a);
    var q := AloneScene(u, h, p, a, b);
    ReturnFrom(u, Alone(h, p, a, b), q, h);
    evs := Alone(h, p, a, b) + [Return(h)];
    TwoTold(h, Entry(1, R.UserTxn(h, a)), rc, Entry(2, R.UserTxn(h, b)), Dispatch(db, b).1);
  }

  /** On every run, every handler is told the results of its own requests. */
  ghost predicate AlwaysToldRight(u: Setup, order: R.WriteOrder)
    requires Proper(u)
  {
    forall evs :: RunOk(Start(u), evs, order) ==> AllTold(End(Start(u), evs, order), true)
  }

  lemma ToldRightOtherwise(u: Setup, order: R.WriteOrder)
    requires Proper(u) && order != R.DoneFirst
    ensures AlwaysToldRight(u, order)
  {
    forall evs | RunOk(Start(u), evs, order) ensures AllTold(End(Start(u), evs, order), true) {
      QueuedRefinesDirect(u, evs, order);
    }
  }

  lemma ToldWrong(s: Server, h: nat, request: Request, rc: int)
    requires RepliesOf(s.replies, h, true) == [(request, SUCCESS)] && AnswersOf(s.execs, h, true) == [(request, rc)]
    requires rc != SUCCESS
    ensures !AllTold(s, true)
  {
    assert RepliesOf(s.replies, h, true)[0] != AnswersOf(s.execs, h, true)[0];
    assert !Told(s, h, true);
  }

  /** So the order of the two writes is what it all depends on: on a server with a handler and a
      processing thread, no run tells a handler a wrong result if and only if txn_done is not written
      before txn_rc. */
  lemma RepliesRightIff(u: Setup, h: nat, p: nat, order: R.WriteOrder)
    requires Proper(u) && h in u.handlers && p in u.procs
    ensures AlwaysToldRight(u, order) <==> order != R.DoneFirst
  {
    if order != R.DoneFirst {
      ToldRightOtherwise(u, order);
    } else {
      var request := ViewStock([""]);
      assert !HasQuote(u.db.tables, request.symbols[0]);
      var evs := StaleReply(u, h, p, request);
      ToldWrong(End(Start(u), evs, order), h, request, Dispatch(u.db, request).1);
    }
  }

  /** On every run, a thread points to a txn_rc only while the handler waits for that transaction. */
  ghost predicate NeverDangles(u: Setup, order: R.WriteOrder)
    requires Proper(u)
  {
    forall evs, p :: RunOk(Start(u), evs, order) ==> !V.Dangling(CoreOf(End(Start(u), evs, order)), p)
  }

  lemma NoneDangles(s: Server, order: R.WriteOrder, p: nat)
    requires Inv(s, order)
    ensures V.Dangling(CoreOf(s), p) ==> order == R.DoneFirst && p in s.procs && s.procs[p].HalfUser?
  {
    V.DanglingIsHalf(CoreOf(s), order, p);
  }

  /** A thread can be left with the txn_rc of a handler that has gone on if and only if txn_done is written
      first; and then only between the two writes. */
  lemma DanglesIff(u: Setup, h: nat, p: nat, order: R.WriteOrder)
    requires Proper(u) && h in u.handlers && p in u.procs
    ensures NeverDangles(u, order) <==> order != R.DoneFirst
    ensures forall evs, q :: RunOk(Start(u), evs, order) && V.Dangling(CoreOf(End(Start(u), evs, order)), q) ==>
              var s := End(Start(u), evs, order); q in s.procs && s.procs[q].HalfUser?
  {
    forall evs, q | RunOk(Start(u), evs, order)
      ensures V.Dangling(CoreOf(End(Start(u), evs, order)), q) ==>
                var s := End(Start(u), evs, order); order == R.DoneFirst && q in s.procs && s.procs[q].HalfUser?
    {
      NoneDangles(End(Start(u), evs, order), order, q);
    }
    if order == R.DoneFirst {
      var evs := StaleReply(u, h, p, ViewStock([]));
    }
  }

  lemma OneReply(h: nat, request: Request, rc: int)
    ensures RepliesOf([Reply(h, request, rc)], h, true) == [(request, rc)]
  {
  }

  lemma OneAnswer(h: nat, txn: Entry<R.UserTxn>, rc: int)
    requires txn.body.owner == h
    ensures AnswersOf([Answered(txn, rc)], h, true) == [(txn.body.request, rc)]
  {
  }

  // ---------------------------------------------------------------- the enqueue result that is ignored

  /** A handler waits for a request that was never enqueued. */
  ghost predicate Orphan(s: Server, h: nat) {
    h in s.handlers && s.handlers[h].Spinning? && s.handlers[h].ticket == 0
  }

  /** No handler ever slept on the full queue. */
  ghost predicate Roomy(s: Server) {
    s.user.parkedP == {} && s.user.wokenP == {} && forall h :: !Orphan(s, h)
  }

  lemma RoomyUserQ(s: Server, ue: M.Event<R.UserTxn>, order: R.WriteOrder)
    requires Inv(s, order) && UserQEnabled(s, ue) && Roomy(s) && |s.handlers| <= SIZE
    ensures !ue.PutWait? && Roomy(UserQStep(s, ue)) && UserQStep(s, ue).handlers.Keys == s.handlers.Keys
  {
    if ue.PutWait? {
      A.RoomForEntering(CoreOf(s), order, ue.t);
      QueueFacts(s.user);
    }
    forall h ensures !Orphan(UserQStep(s, ue), h) {
      assert !Orphan(s, h);
    }
  }

  /** Only an event of the user queue lets a handler spin. */
  lemma RoomyRest(s: Server, e: Event, order: R.WriteOrder)
    requires Sound(s) && Enabled(s, e) && !e.UserQ? && Roomy(s)
    ensures Roomy(Step(s, e, order)) && Step(s, e, order).handlers.Keys == s.handlers.Keys
  {
    StepCases(s, e, order);
    StepRefines(s, e, order);
    forall h ensures !Orphan(Step(s, e, order), h) {
      assert !Orphan(s, h);
    }
  }

  lemma {:induction false} RoomyRun(u: Setup, evs: seq<Event>, order: R.WriteOrder)
    requires Proper(u) && |u.handlers| <= SIZE && RunOk(Start(u), evs, order)
    ensures var s := End(Start(u), evs, order); Roomy(s) && s.handlers.Keys == u.handlers
    decreases |evs|
  {
    if evs != [] {
      var s, e := End(Start(u), evs[..|evs| - 1], order), evs[|evs| - 1];
      RoomyRun(u, evs[..|evs| - 1], order);
      if e.UserQ? {
        RoomyUserQ(s, e.ue, order);
      } else {
        RoomyRest(s, e, order);
      }
    }
  }

  /** The handlers in `used` have a request in the queue; nothing else happened. */
  ghost predicate Filled(s: Server, u: Setup, used: set<nat>) {
    && Sound(s) && !s.die && s.toWait == 0
    && s.user.ring.occupied == |used| && used <= u.handlers
    && (forall h :: h in u.handlers ==> h in s.handlers && (h !in used ==> s.handlers[h].Idle?))
    && s.user.parkedC == {} && s.user.parkedP == {} && s.user.wokenP == {}
  }

  lemma FillOne(s: Server, u: Setup, used: set<nat>, h: nat, request: Request, order: R.WriteOrder)
    requires Filled(s, u, used) && h in u.handlers && h !in used && |used| < SIZE
    ensures Enabled(s, Call(h, request))
    ensures var s1, e := Step(s, Call(h, request), order), UserQ(M.Put(h, R.UserTxn(h, request), {}));
            Enabled(s1, e) && Filled(Step(s1, e, order), u, used + {h})
  {
    var s1, ue := Step(s, Call(h, request), order), M.Put(h, R.UserTxn(h, request), {});
    M.StepInv(s1.user, ue, s1.die);
    StepCases(s1, UserQ(ue), order);
  }

  lemma {:induction false} Fill(u: Setup, n: nat, request: Request, order: R.WriteOrder)
    returns (evs: seq<Event>, used: set<nat>)
    requires Proper(u) && n <= SIZE && n <= |u.handlers|
    ensures |used| == n && RunOk(Start(u), evs, order) && Filled(End(Start(u), evs, order), u, used)
    decreases n
  {
    if n == 0 {
      evs, used := [], {};
      StartInv(u, order);
    } else {
      evs, used := Fill(u, n - 1, request, order);
      if u.handlers <= used {
        L.Fewer(u.handlers, used);
      }
      var h :| h in u.handlers && h !in used;
      var s := End(Start(u), evs, order);
      FillOne(s, u, used, h, request, order);
      Extend(Start(u), evs, Call(h, request), order);
      Extend(Start(u), evs + [Call(h, request)], UserQ(M.Put(h, R.UserTxn(h, request), {})), order);
      evs, used := evs + [Call(h, request)] + [UserQ(M.Put(h, R.UserTxn(h, request), {}))], used + {h};
    }
  }

  /** Handler h is at the full queue, in one of the places a producer can be. */
  ghost predicate Full(s: Server, h: nat, parked: set<nat>, woken: set<nat>, die: bool) {
    && Sound(s) && s.die == die && s.user.ring.occupied == SIZE
    && h in s.handlers && s.handlers[h].Entering?
    && s.user.parkedP == parked && s.user.wokenP == woken
  }

  lemma FullSteps(s: Server, h: nat, order: R.WriteOrder)
    requires Sound(s)
    ensures Full(s, h, {}, {}, false) ==>
      Enabled(s, UserQ(M.PutWait(h))) && Full(Step(s, UserQ(M.PutWait(h)), order), h, {h}, {}, false)
    ensures Full(s, h, {h}, {}, false) ==>
      Enabled(s, UserQ(M.WakeP(h))) && Full(Step(s, UserQ(M.WakeP(h)), order), h, {}, {h}, false)
    ensures Full(s, h, {}, {h}, false) ==> Enabled(s, Kill) && Full(Step(s, Kill, order), h, {}, {h}, true)
    ensures Full(s, h, {}, {h}, true) ==>
      Enabled(s, UserQ(M.PutDie(h))) && Orphan(Step(s, UserQ(M.PutDie(h)), order), h)
  {
  }

  lemma {:induction false} FullRun(u: Setup, request: Request, order: R.WriteOrder)
    returns (evs: seq<Event>, h: nat)
    requires Proper(u) && |u.handlers| > SIZE
    ensures RunOk(Start(u), evs, order) && Full(End(Start(u), evs, order), h, {}, {}, false)
  {
    var s, used := Start(u), {};
    evs, used := Fill(u, SIZE, request, order);
    if u.handlers <= used {
      L.Fewer(u.handlers, used);
    }
    h :| h in u.handlers && h !in used;
    assert Full(Step(End(s, evs, order), Call(h, request), order), h, {}, {}, false);
    Extend(s, evs, Call(h, request), order);
    evs := evs + [Call(h, request)];
  }

  /** More handlers than slots: fill the ring, let one more handler wait for space, and ask the process
      to die. The handler leaves chronos_enqueue_user_transaction without having enqueued. */
  lemma {:induction false} OrphanRun(u: Setup, request: Request, order: R.WriteOrder)
    returns (evs: seq<Event>, h: nat)
    requires Proper(u) && |u.handlers| > SIZE
    ensures RunOk(Start(u), evs, order) && Orphan(End(Start(u), evs, order), h)
  {
    var s := Start(u);
    evs, h := FullRun(u, request, order);
    FullSteps(End(s, evs, order), h, order);
    Extend(s, evs, UserQ(M.PutWait(h)), order);
    evs := evs + [UserQ(M.PutWait(h))];
    FullSteps(End(s, evs, order), h, order);
    Extend(s, evs, UserQ(M.WakeP(h)), order);
    evs := evs + [UserQ(M.WakeP(h))];
    FullSteps(End(s, evs, order), h, order);
    Extend(s, evs, Kill, order);
    evs := evs + [Kill];
    FullSteps(End(s, evs, order), h, order);
    Extend(s, evs, UserQ(M.PutDie(h)), order);
    evs := evs + [UserQ(M.PutDie(h))];
  }

  ghost predicate NeverOrphans(u: Setup, order: R.WriteOrder)
    requires Proper(u)
  {
    forall evs, h :: RunOk(Start(u), evs, order) ==> !Orphan(End(Start(u), evs, order), h)
  }

  lemma RoomyNeverOrphans(u: Setup, order: R.WriteOrder)
    requires Proper(u) && |u.handlers| <= SIZE
    ensures NeverOrphans(u, order)
  {
    forall evs, h | RunOk(Start(u), evs, order) ensures !Orphan(End(Start(u), evs, order), h) {
      RoomyRun(u, evs, order);
    }
  }

  /** dispatchTableFn ignores the result of the enqueue. That is harmless if and only if there are no more
      handlers than the ring has slots: then no run leaves a handler waiting for nothing. */
  lemma IgnoredEnqueueIff(u: Setup, order: R.WriteOrder)
    requires Proper(u)
    ensures NeverOrphans(u, order) <==> |u.handlers| <= SIZE
  {
    if |u.handlers| <= SIZE {
      RoomyNeverOrphans(u, order);
    } else {
      var evs, h := OrphanRun(u, ViewStock([]), order);
    }
  }

  /** And a handler that waits for nothing waits forever. */
  lemma {:induction false} OrphanForever(s: Server, evs: seq<Event>, order: R.WriteOrder, h: nat)
    requires RunOk(s, evs, order) && Orphan(s, h)
    ensures Orphan(End(s, evs, order), h) && !Enabled(End(s, evs, order), Return(h))
    decreases |evs|
  {
    if evs != [] {
      var s1, e := End(s, evs[..|evs| - 1], order), evs[|evs| - 1];
      OrphanForever(s, evs[..|evs| - 1], order, h);
      A.SkippedNeverReturns(CoreOf(s1), order, h);
      StepRefines(s1, e, order);
    }
    A.SkippedNeverReturns(CoreOf(End(s, evs, order)), order, h);
  }
}
