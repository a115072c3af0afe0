/** The laws of the ledger on runs of the queued server. */
module ServerLedger {
  import M = Monitor
  import R = ReplyProtocol
  import opened Ring
  import opened Ledger
  import opened LedgerLaws
  import opened LedgerRuns
  import opened Server
  import opened ServerInvariants
  import opened ServerRuns

  /** The transactions of the server as ledger operations. A refresh moves a price at random. */
  function OpOf(x: Exec): Op {
    match x
    case Answered(txn, _) => User(txn.body.request)
    case Refreshed(refresh, up, _) => Quote(refresh.body, -1.0, up)
  }

  function OpsOf(execs: seq<Exec>): seq<Op> {
    if execs == [] then [] else OpsOf(execs[..|execs| - 1]) + [OpOf(execs[|execs| - 1])]
  }

  /** What the transactions the server recorded as successful bought of a pair, less what they sold. */
  function NetOf(execs: seq<Exec>, a: string, y: string): int {
    if execs == [] then 0
    else
      var last := execs[|execs| - 1];
      NetOf(execs[..|execs| - 1], a, y)
        + match last
          case Answered(txn, rc) => if rc == SUCCESS then Traded(txn.body.request, a, y) else 0
          case Refreshed(_, _, _) => 0
  }

  /** The stocks of a pair a request buys, or, as a negative number, sells. */
  function Traded(r: Request, a: string, y: string): int {
    match r
    case Purchase(items) => Amount(items, a, y)
    case Sale(items) => -Amount(items, a, y)
    case _ => 0
  }

  lemma {:induction false} RunSnoc(s: Store, ops: seq<Op>, op: Op)
    requires IndexInTable(s.tables)
    ensures Run(s, ops + [op]) == Apply(Run(s, ops), op).0
    decreases |ops|
  {
    if ops == [] {
      assert [op][1..] == [];
      assert Run(s, [op]) == Run(Apply(s, op).0, []);
    } else {
      assert (ops + [op])[1..] == ops[1..] + [op];
      RunSnoc(Apply(s, ops[0]).0, ops[1..], op);
    }
  }

  /** One event: the database and the record of transactions stay, or one transaction is applied and
      recorded with its result. */
  lemma StepApplies(s: Server, e: Event, order: R.WriteOrder)
    requires Sound(s) && Enabled(s, e)
    ensures var s' := Step(s, e, order);
            || (s'.db == s.db && s'.execs == s.execs)
            || exists x :: s'.execs == s.execs + [x] && Effect(s.db, x, s'.db)
  {
    StepSimulates(s, e, order);
    var s' := Step(s, e, order);
    match e
    case RunUser(p) =>
      var txn := s.procs[p].txn;
      var x := Answered(txn, Dispatch(s.db, txn.body.request).1);
      assert s'.execs == s.execs + [x] && Effect(s.db, x, s'.db);
    case RunRefresh(p, up) =>
      var refresh := s.procs[p].refresh;
      var x := Refreshed(refresh, up, Refresh(s.db, refresh.body, up).1);
      assert s'.execs == s.execs + [x] && Effect(s.db, x, s'.db);
    case _ =>
      assert DirectOf(s') == DirectOf(s);
  }

  /** A recorded transaction took the database from db to db', with the recorded result. */
  ghost predicate Effect(db: Store, x: Exec, db': Store)
    requires IndexInTable(db.tables)
  {
    Apply(db, OpOf(x)) == (db', x.rc)
  }

  /** The database of the queued server, as the ledger laws speak of it. */
  ghost predicate LedgerOf(db: Store, s: Server, a: string, y: string)
    requires IndexInTable(db.tables)
  {
    && s.db == Run(db, OpsOf(s.execs)) && Ok(s.db)
    && Hold(s.db.tables, a, y) == Hold(db.tables, a, y) + NetOf(s.execs, a, y)
  }

  lemma MoreExecs(execs: seq<Exec>, x: Exec, a: string, y: string)
    ensures OpsOf(execs + [x]) == OpsOf(execs) + [OpOf(x)]
    ensures NetOf(execs + [x], a, y) == NetOf(execs, a, y) + NetOf([x], a, y)
    ensures NetOf([x], a, y) == if x.rc == SUCCESS then Delta(OpOf(x), a, y) else 0
  {
    assert (execs + [x])[..|execs|] == execs;
    assert [x][..0] == [];
  }

  lemma EffectOnLedger(db: Store, s: Server, s': Server, x: Exec, a: string, y: string)
    requires IndexInTable(db.tables) && LedgerOf(db, s, a, y)
    requires s'.execs == s.execs + [x] && Effect(s.db, x, s'.db)
    ensures LedgerOf(db, s', a, y)
  {
    MoreExecs(s.execs, x, a, y);
    RunSnoc(db, OpsOf(s.execs), OpOf(x));
    ApplyEffect(s.db, OpOf(x));
  }

  /** Conservation for the whole server, over every run with any number of threads: the database is a sound
      ledger, namely what the recorded transactions make of the first one, one after the other, and the stocks
      held of a pair have changed by what the transactions with result SUCCESS bought, less what they sold. */
  lemma {:induction false} ServerConservation(u: Setup, evs: seq<Event>, order: R.WriteOrder, a: string, y: string)
    requires Proper(u) && Ok(u.db) && RunOk(Start(u), evs, order)
    ensures LedgerOf(u.db, End(Start(u), evs, order), a, y)
    decreases |evs|
  {
    if evs != [] {
      var s, e := End(Start(u), evs[..|evs| - 1], order), evs[|evs| - 1];
      ServerConservation(u, evs[..|evs| - 1], order, a, y);
      StepApplies(s, e, order);
      var s' := Step(s, e, order);
      if !(s'.db == s.db && s'.execs == s.execs) {
        var x :| s'.execs == s.execs + [x] && Effect(s.db, x, s'.db);
        EffectOnLedger(u.db, s, s', x, a, y);
      }
    }
  }

  lemma {:induction false} OnlyRefreshes(execs: seq<Exec>)
    ensures forall i :: 0 <= i < |OpsOf(execs)| && OpsOf(execs)[i].Quote? ==> OpsOf(execs)[i].newValue == -1.0
  {
    if execs != [] {
      OnlyRefreshes(execs[..|execs| - 1]);
    }
  }

  /** On every run of the server the same symbols have a quote, and each quote is where it started, a tenth
      up or down for each refresh of its symbol, and never a tenth or more below zero. */
  lemma ServerQuotes(u: Setup, evs: seq<Event>, order: R.WriteOrder, y: string)
    requires Proper(u) && Ok(u.db) && PricesAbove(u.db.tables) && RunOk(Start(u), evs, order)
    ensures var s := End(Start(u), evs, order); var q, start := s.db.tables.quotes, u.db.tables.quotes;
            && q.Keys == start.Keys && PricesAbove(s.db.tables)
            && (y != "" && y in start ==> q[y] == start[y] + 0.1 * Drift(start[y], OpsOf(s.execs), y) as real)
  {
    var s := End(Start(u), evs, order);
    ServerConservation(u, evs, order, "", "");
    PricesStayAbove(u.db, OpsOf(s.execs));
    OnlyRefreshes(s.execs);
    QuotesWalk(u.db, OpsOf(s.execs), "x", Walk(if "x" in u.db.tables.quotes then u.db.tables.quotes["x"] else 0.0, 0));
    if y != "" && y in u.db.tables.quotes {
      RefreshedQuote(u.db, OpsOf(s.execs), y);
    }
  }
}
