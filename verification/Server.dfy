/** The queued server of startup_server_2.c as a step system: handler threads, update threads and any
    number of processing threads around the two ready queues, the reply cells, the database, the
    admission counter and the die flag. One event is one access to shared state. */
module Server {
  import opened Ring
  import M = Monitor
  import opened Ledger
  import opened ReplyProtocol
  import Controller

  datatype Updater = Resting | Offering(symbol: string)

  /** Where a processing thread is. */
  datatype Proc =
    | AtSys                                      // loop head, and test of the system queue
    | TakeSys                                    // in chronos_dequeue_system_transaction
    | GotSys(refresh: Entry<string>)
    | SysAdmit | SysDec                          // before and after the test of num_txn_to_wait
    | AtUser | AtUserAgain                       // the two tests of the user queue
    | TakeUser
    | GotUser(txn: Entry<UserTxn>)
    | RanUser(txn: Entry<UserTxn>, rc: int)
    | HalfUser(txn: Entry<UserTxn>, rc: int)     // one of the two reply cells is written
    | Admit | Dec
    | Gone

  /** A transaction that met the database. */
  datatype Exec =
    | Answered(txn: Entry<UserTxn>, rc: int)
    | Refreshed(refresh: Entry<string>, up: bool, rc: int)

  datatype Reply = Reply(handler: nat, request: Request, rc: int)

  datatype Server = Server(
    user: M.Mon<UserTxn>, sys: M.Mon<string>,
    handlers: map<nat, Handler>, cells: map<nat, Cell>,
    updaters: map<nat, Updater>, procs: map<nat, Proc>,
    db: Store, die: bool, toWait: int,
    landed: map<nat, nat>,   // history: the ticket whose result each txn_rc got last since the call, or 0
    takenBy: seq<nat>,       // history: which thread dequeued the i-th user transaction
    execs: seq<Exec>,        // history: transactions in the order they met the database
    outcomes: map<nat, int>, // history: the result of each user transaction, by ticket
    replies: seq<Reply>)     // history: what handlers returned

  datatype Event =
    | Call(h: nat, request: Request)
    | UserQ(ue: M.Event<UserTxn>)
    | SysQ(se: M.Event<string>)
    | Return(h: nat)
    | Offer(u: nat, symbol: string)
    | Look(p: nat)
    | RunRefresh(p: nat, up: bool)
    | RunUser(p: nat)
    | Write(p: nat)
    | Decrement(p: nat)
    | Sample(mode: Controller.Mode, smooth: real)
    | Kill

  /** Who takes part, and the memory the server starts from. */
  datatype Setup = Setup(handlers: set<nat>, updaters: set<nat>, procs: set<nat>, db: Store,
                         userSlots: seq<Entry<UserTxn>>, sysSlots: seq<Entry<string>>)

  ghost predicate Proper(u: Setup) {
    IndexInTable(u.db.tables) && |u.userSlots| == SIZE && |u.sysSlots| == SIZE
  }

  ghost function Start(u: Setup): (s: Server)
    requires Proper(u)
    ensures Sound(s)
  {
    Server(M.Init(u.userSlots), M.Init(u.sysSlots),
           map h | h in u.handlers :: Idle, map h | h in u.handlers :: Cell(false, 0),
           map x | x in u.updaters :: Resting, map p | p in u.procs :: AtSys,
           u.db, false, 0, map h | h in u.handlers :: 0, [], [], map[], [])
  }

  predicate IsAt(s: Server, p: nat, at: Proc) {
    p in s.procs && s.procs[p] == at
  }

  ghost predicate UserQEnabled(s: Server, e: M.Event<UserTxn>) {
    && M.Enabled(s.user, e, s.die)
    && match e
       case Put(t, body, _) => t in s.handlers && s.handlers[t].Entering? && body == UserTxn(t, s.handlers[t].request)
       case PutWait(t) => t in s.handlers && s.handlers[t].Entering?
       case PutDie(t) => t in s.handlers && s.handlers[t].Entering?
       case Take(t, _) => IsAt(s, t, TakeUser)
       case TakeWait(t) => IsAt(s, t, TakeUser)
       case TakeDie(t) => IsAt(s, t, TakeUser)
       case _ => true
  }

  ghost predicate SysQEnabled(s: Server, e: M.Event<string>) {
    && M.Enabled(s.sys, e, s.die)
    && match e
       case Put(t, body, _) => t in s.updaters && s.updaters[t] == Offering(body)
       case PutWait(t) => t in s.updaters && s.updaters[t].Offering?
       case PutDie(t) => t in s.updaters && s.updaters[t].Offering?
       case Take(t, _) => IsAt(s, t, TakeSys)
       case TakeWait(t) => IsAt(s, t, TakeSys)
       case TakeDie(t) => IsAt(s, t, TakeSys)
       case _ => true
  }

  predicate AtTest(at: Proc) {
    at.AtSys? || at.SysAdmit? || at.AtUser? || at.AtUserAgain? || at.Admit?
  }

  /** Past the test of num_txn_to_wait, and about to decrement it. */
  predicate Decrementing(at: Proc) {
    at.SysDec? || at.Dec?
  }

  ghost predicate Sound(s: Server) {
    && M.Inv(s.user) && M.Inv(s.sys)
    && IndexInTable(s.db.tables)
  }

  ghost predicate Enabled(s: Server, e: Event) {
    match e
    case Call(h, _) => h in s.handlers && s.handlers[h].Idle? && s.toWait <= 0
    case UserQ(ue) => UserQEnabled(s, ue)
    case SysQ(se) => SysQEnabled(s, se)
    case Return(h) => h in s.handlers && s.handlers[h].Spinning? && h in s.cells && s.cells[h].done
    case Offer(u, _) => u in s.updaters && s.updaters[u].Resting?
    case Look(p) => p in s.procs && AtTest(s.procs[p])
    case RunRefresh(p, _) => p in s.procs && s.procs[p].GotSys?
    case RunUser(p) => p in s.procs && s.procs[p].GotUser?
    case Write(p) =>
      p in s.procs && (s.procs[p].RanUser? || s.procs[p].HalfUser?) && s.procs[p].txn.body.owner in s.cells
    case Decrement(p) => p in s.procs && Decrementing(s.procs[p])
    case Sample(_, _) => true
    case Kill => true
  }

  ghost function UserQStep(s: Server, e: M.Event<UserTxn>): Server
    requires Sound(s) && UserQEnabled(s, e)
  {
    var s1 := s.(user := M.Step(s.user, e, s.die));
    match e
    case Put(t, body, _) => s1.(handlers := s.handlers[t := Spinning(body.request, s.user.ring.ticketReq + 1)])
    case PutDie(t) => s1.(handlers := s.handlers[t := Spinning(s.handlers[t].request, 0)])
    case Take(t, _) => s1.(procs := s.procs[t := GotUser(Head(s.user.ring))], takenBy := s.takenBy + [t])
    case TakeDie(t) => s1.(procs := s.procs[t := AtSys])
    case _ => s1
  }

  ghost function SysQStep(s: Server, e: M.Event<string>): Server
    requires Sound(s) && SysQEnabled(s, e)
  {
    var s1 := s.(sys := M.Step(s.sys, e, s.die));
    match e
    case Put(t, _, _) => s1.(updaters := s.updaters[t := Resting])
    case PutDie(t) => s1.(updaters := s.updaters[t := Resting])
    case Take(t, _) => s1.(procs := s.procs[t := GotSys(Head(s.sys.ring))])
    case TakeDie(t) => s1.(procs := s.procs[t := AtUser])
    case _ => s1
  }

  /** The branch a processing thread takes at a test. */
  function Branch(s: Server, at: Proc): Proc {
    match at
    case AtSys => if s.die then Gone else if s.sys.ring.occupied > 0 then TakeSys else AtUser
    case SysAdmit => if s.toWait > 0 then SysDec else AtUser
    case AtUser => if s.user.ring.occupied > 0 then AtUserAgain else AtSys
    case AtUserAgain => if s.user.ring.occupied > 0 then TakeUser else AtSys
    case Admit => if s.toWait > 0 then Dec else AtSys
    case _ => at
  }

  /** A refresh meets the database. One that fails goes on to the user queue without a decrement. */
  function RunRefreshStep(s: Server, p: nat, up: bool): Server
    requires IndexInTable(s.db.tables) && p in s.procs && s.procs[p].GotSys?
  {
    var refresh := s.procs[p].refresh;
    var (db, rc) := Refresh(s.db, refresh.body, up);
    s.(db := db, procs := s.procs[p := if rc == SUCCESS then SysAdmit else AtUser],
       execs := s.execs + [Refreshed(refresh, up, rc)])
  }

  /** A user transaction meets the database. */
  function RunUserStep(s: Server, p: nat): Server
    requires IndexInTable(s.db.tables) && p in s.procs && s.procs[p].GotUser?
  {
    var txn := s.procs[p].txn;
    var (db, rc) := Dispatch(s.db, txn.body.request);
    s.(db := db, procs := s.procs[p := RanUser(txn, rc)],
       execs := s.execs + [Answered(txn, rc)], outcomes := s.outcomes[txn.ticket := rc])
  }

  function WriteStep(s: Server, p: nat, order: WriteOrder): Server
    requires p in s.procs && (s.procs[p].RanUser? || s.procs[p].HalfUser?) && s.procs[p].txn.body.owner in s.cells
  {
    var at := s.procs[p];
    var h := at.txn.body.owner;
    var more := at.RanUser? && order != OneStep;
    s.(cells := s.cells[h := WrittenCell(order, at.RanUser?, s.cells[h], at.rc)],
       landed := if Stores(order, at.RanUser?) then s.landed[h := at.txn.ticket] else s.landed,
       procs := s.procs[p := if more then HalfUser(at.txn, at.rc) else Admit])
  }

  /** Events outside of the queues and the database. */
  function LocalStep(s: Server, e: Event): Server
    requires e.Call? || e.Return? || e.Offer? || e.Look? || e.Decrement? || e.Sample? || e.Kill?
    requires e.Return? ==> e.h in s.handlers && s.handlers[e.h].Spinning? && e.h in s.cells
    requires e.Look? || e.Decrement? ==> e.p in s.procs
  {
    match e
    case Call(h, request) =>
      s.(handlers := s.handlers[h := Entering(request)], cells := s.cells[h := Cell(false, 0)],
         landed := s.landed[h := 0])
    case Return(h) =>
      s.(handlers := s.handlers[h := Idle],
         replies := s.replies + [Reply(h, s.handlers[h].request, s.cells[h].rc)])
    case Offer(u, symbol) => s.(updaters := s.updaters[u := Offering(symbol)])
    case Look(p) => s.(procs := s.procs[p := Branch(s, s.procs[p])])
    case Decrement(p) =>
      s.(toWait := s.toWait - 1, procs := s.procs[p := if s.procs[p] == SysDec then AtUser else AtSys])
    case Sample(mode, smooth) =>
      s.(toWait := Controller.WaitCount(mode, smooth, s.user.ring.occupied + s.sys.ring.occupied))
    case Kill => s.(die := true)
  }

  ghost function Step(s: Server, e: Event, order: WriteOrder): Server
    requires Sound(s) && Enabled(s, e)
  {
    match e
    case UserQ(ue) => UserQStep(s, ue)
    case SysQ(se) => SysQStep(s, se)
    case RunRefresh(p, up) => RunRefreshStep(s, p, up)
    case RunUser(p) => RunUserStep(s, p)
    case Write(p) => WriteStep(s, p, order)
    case _ => LocalStep(s, e)
  }

  /** The user transaction a processing thread works on. */
  function HandOf(at: Proc): Hand {
    match at
    case GotUser(txn) => Hand.Got(txn)
    case RanUser(txn, rc) => Hand.Ran(txn, rc)
    case HalfUser(txn, rc) => Hand.Half(txn, rc)
    case _ => Hand.Empty
  }

  function Hands(procs: map<nat, Proc>): map<nat, Hand> {
    map p | p in procs :: HandOf(procs[p])
  }

  /** The reply protocol's view of a server. */
  function CoreOf(s: Server): Core {
    Core(s.user.puts, |s.user.takes|, s.takenBy, s.handlers, s.cells, Hands(s.procs), s.outcomes)
  }

  /** A step in which handler h does not return while a thread is between two writes for it. */
  ghost predicate CleanStep(s: Server, e: Event, h: nat) {
    e.Return? && e.h == h ==> !InWindow(Hands(s.procs), h)
  }
}
