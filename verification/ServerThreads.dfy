/** What the server's threads do with the refreshes they are given, and how they stop. */
module ServerThreads {
  import M = Monitor
  import R = ReplyProtocol
  import opened Ring
  import opened Ledger
  import opened Server
  import opened ServerInvariants
  import opened ServerRuns
  import opened ServerLaws

  // ---------------------------------------------------------------- refreshes

  /** How often update threads offered a refresh of this symbol. */
  function OffersOf(evs: seq<Event>, symbol: string): nat {
    if evs == [] then 0
    else
      var last := evs[|evs| - 1];
      OffersOf(evs[..|evs| - 1], symbol) + (if last.Offer? && last.symbol == symbol then 1 else 0)
  }

  function CountOf(entries: seq<Entry<string>>, symbol: string): nat {
    if entries == [] then 0
    else CountOf(entries[..|entries| - 1], symbol) + (if entries[|entries| - 1].body == symbol then 1 else 0)
  }

  /** The refreshes of this symbol that met the database. */
  function RefreshesOf(execs: seq<Exec>, symbol: string): nat {
    if execs == [] then 0
    else
      var last := execs[|execs| - 1];
      RefreshesOf(execs[..|execs| - 1], symbol) + (if last.Refreshed? && last.refresh.body == symbol then 1 else 0)
  }

  /** The update threads that are about to enqueue one. */
  function Offering(updaters: map<nat, Updater>, symbol: string): set<nat> {
    set t | t in updaters && updaters[t] == Updater.Offering(symbol)
  }

  /** The processing threads that have one in their hands. */
  function Holding(procs: map<nat, Proc>, symbol: string): set<nat> {
    set p | p in procs && procs[p].GotSys? && procs[p].refresh.body == symbol
  }

  /** A refresh of this symbol is dropped: its update thread is asked to die while it waits for space. */
  predicate Drops(s: Server, e: Event, symbol: string) {
    e.SysQ? && e.se.PutDie? && e.se.t in s.updaters && s.updaters[e.se.t] == Updater.Offering(symbol)
  }

  ghost function DroppedOn(s: Server, evs: seq<Event>, order: R.WriteOrder, symbol: string): nat
    requires RunOk(s, evs, order)
    decreases |evs|
  {
    if evs == [] then 0
    else
      var init := evs[..|evs| - 1];
      DroppedOn(s, init, order, symbol) + (if Drops(End(s, init, order), evs[|evs| - 1], symbol) then 1 else 0)
  }

  lemma OneMoreEntry(entries: seq<Entry<string>>, x: Entry<string>, symbol: string)
    ensures CountOf(entries + [x], symbol) == CountOf(entries, symbol) + (if x.body == symbol then 1 else 0)
  {
    assert (entries + [x])[..|entries|] == entries;
  }

  lemma OneMoreRun(execs: seq<Exec>, x: Exec, symbol: string)
    ensures RefreshesOf(execs + [x], symbol)
         == RefreshesOf(execs, symbol) + (if x.Refreshed? && x.refresh.body == symbol then 1 else 0)
  {
    assert (execs + [x])[..|execs|] == execs;
  }

  lemma OfferingUpdate(updaters: map<nat, Updater>, t: nat, to: Updater, symbol: string)
    requires t in updaters
    ensures |Offering(updaters[t := to], symbol)| == |Offering(updaters, symbol)|
              + (if to == Updater.Offering(symbol) then 1 else 0)
              - (if updaters[t] == Updater.Offering(symbol) then 1 else 0)
  {
    var d, d' := Offering(updaters, symbol), Offering(updaters[t := to], symbol);
    assert d' == if to == Updater.Offering(symbol) then d + {t} else d - {t};
  }

  predicate Holds(at: Proc, symbol: string) {
    at.GotSys? && at.refresh.body == symbol
  }

  lemma HoldingUpdate(procs: map<nat, Proc>, p: nat, at: Proc, symbol: string)
    requires p in procs
    ensures |Holding(procs[p := at], symbol)| == |Holding(procs, symbol)|
              + (if Holds(at, symbol) then 1 else 0) - (if Holds(procs[p], symbol) then 1 else 0)
  {
    var d, d' := Holding(procs, symbol), Holding(procs[p := at], symbol);
    assert d' == if Holds(at, symbol) then d + {p} else d - {p};
  }

  /** Offers that are still to be enqueued, or have been. */
  function Accepted(s: Server, symbol: string): int {
    |Offering(s.updaters, symbol)| + CountOf(s.sys.puts, symbol)
  }

  /** Refreshes dequeued, less those in hand, less those that met the database. */
  function Undone(s: Server, symbol: string): int {
    CountOf(s.sys.takes, symbol) - |Holding(s.procs, symbol)| - RefreshesOf(s.execs, symbol)
  }

  lemma SysQAccounts(s: Server, se: M.Event<string>, symbol: string)
    requires Sound(s) && SysQEnabled(s, se)
    ensures var s' := SysQStep(s, se);
            Accepted(s', symbol) == Accepted(s, symbol) - (if Drops(s, SysQ(se), symbol) then 1 else 0)
  {
    var s' := SysQStep(s, se);
    if se.Put? || se.PutDie? {
      OfferingUpdate(s.updaters, se.t, Resting, symbol);
    }
    if se.Put? {
      OneMoreEntry(s.sys.puts, Entry(s.sys.ring.ticketReq + 1, se.body), symbol);
    }
  }

  lemma SysQDoes(s: Server, se: M.Event<string>, symbol: string)
    requires Sound(s) && SysQEnabled(s, se)
    ensures Undone(SysQStep(s, se), symbol) == Undone(s, symbol)
  {
    if se.Take? {
      HoldingUpdate(s.procs, se.t, GotSys(Head(s.sys.ring)), symbol);
      OneMoreEntry(s.sys.takes, Head(s.sys.ring), symbol);
    } else if se.TakeDie? {
      HoldingUpdate(s.procs, se.t, AtUser, symbol);
    }
  }

  lemma StepUpdaters(s: Server, e: Event, order: R.WriteOrder)
    requires Sound(s) && Enabled(s, e) && !e.SysQ?
    ensures var s' := Step(s, e, order);
            && s'.updaters == (if e.Offer? then s.updaters[e.u := Updater.Offering(e.symbol)] else s.updaters)
            && (e.Offer? ==> e.u in s.updaters && s.updaters[e.u].Resting?)
            && s'.sys == s.sys
  {
    StepCases(s, e, order);
    if e.UserQ? {
      UserQKeepsUpdaters(s, e.ue);
    }
  }

  lemma UserQKeepsUpdaters(s: Server, ue: M.Event<R.UserTxn>)
    requires Sound(s) && UserQEnabled(s, ue)
    ensures UserQStep(s, ue).updaters == s.updaters && UserQStep(s, ue).sys == s.sys
  {
  }

  lemma StepAccounts(s: Server, e: Event, order: R.WriteOrder, symbol: string)
    requires Sound(s) && Enabled(s, e)
    ensures Accepted(Step(s, e, order), symbol)
         == Accepted(s, symbol) + (if e.Offer? && e.symbol == symbol then 1 else 0)
              - (if Drops(s, e, symbol) then 1 else 0)
  {
    if e.SysQ? {
      StepCases(s, e, order);
      SysQAccounts(s, e.se, symbol);
    } else {
      StepUpdaters(s, e, order);
      if e.Offer? {
        OfferingUpdate(s.updaters, e.u, Updater.Offering(e.symbol), symbol);
      }
    }
  }

  lemma RunRefreshDoes(s: Server, p: nat, up: bool, symbol: string)
    requires Sound(s) && Enabled(s, RunRefresh(p, up))
    ensures Undone(RunRefreshStep(s, p, up), symbol) == Undone(s, symbol)
  {
    var rc := Refresh(s.db, s.procs[p].refresh.body, up).1;
    OneMoreRun(s.execs, Refreshed(s.procs[p].refresh, up, rc), symbol);
    HoldingUpdate(s.procs, p, if rc == SUCCESS then SysAdmit else AtUser, symbol);
  }

  lemma RunUserDoes(s: Server, p: nat, symbol: string)
    requires Sound(s) && Enabled(s, RunUser(p))
    ensures Undone(RunUserStep(s, p), symbol) == Undone(s, symbol)
  {
    var txn, rc := s.procs[p].txn, Dispatch(s.db, s.procs[p].txn.body.request).1;
    OneMoreRun(s.execs, Answered(txn, rc), symbol);
    HoldingUpdate(s.procs, p, RanUser(txn, rc), symbol);
  }

  lemma UserQDoes(s: Server, ue: M.Event<R.UserTxn>, symbol: string)
    requires Sound(s) && UserQEnabled(s, ue)
    ensures Undone(UserQStep(s, ue), symbol) == Undone(s, symbol)
  {
    if ue.Take? {
      HoldingUpdate(s.procs, ue.t, GotUser(Head(s.user.ring)), symbol);
    } else if ue.TakeDie? {
      HoldingUpdate(s.procs, ue.t, AtSys, symbol);
    }
  }

  lemma StepDoes(s: Server, e: Event, order: R.WriteOrder, symbol: string)
    requires Sound(s) && Enabled(s, e)
    ensures Undone(Step(s, e, order), symbol) == Undone(s, symbol)
  {
    StepCases(s, e, order);
    match e
    case UserQ(ue) => UserQDoes(s, ue, symbol);
    case SysQ(se) => SysQDoes(s, se, symbol);
    case RunRefresh(p, up) => RunRefreshDoes(s, p, up, symbol);
    case RunUser(p) => RunUserDoes(s, p, symbol);
    case Write(p) => HoldingUpdate(s.procs, p, WriteStep(s, p, order).procs[p], symbol);
    case Look(p) => HoldingUpdate(s.procs, p, Branch(s, s.procs[p]), symbol);
    case Decrement(p) => HoldingUpdate(s.procs, p, LocalStep(s, e).procs[p], symbol);
    case _ =>
  }

  lemma {:induction false} RefreshesAccounted(u: Setup, evs: seq<Event>, order: R.WriteOrder, symbol: string)
    requires Proper(u) && RunOk(Start(u), evs, order)
    ensures var s := End(Start(u), evs, order);
            && Accepted(s, symbol) + DroppedOn(Start(u), evs, order, symbol) == OffersOf(evs, symbol)
            && Undone(s, symbol) == 0
    decreases |evs|
  {
    if evs == [] {
      assert Offering(Start(u).updaters, symbol) == {} && Holding(Start(u).procs, symbol) == {};
    } else {
      var s := End(Start(u), evs[..|evs| - 1], order);
      RefreshesAccounted(u, evs[..|evs| - 1], order, symbol);
      StepAccounts(s, evs[|evs| - 1], order, symbol);
      StepDoes(s, evs[|evs| - 1], order, symbol);
    }
  }

  lemma {:induction false} CountJoins(a: seq<Entry<string>>, b: seq<Entry<string>>, symbol: string)
    ensures CountOf(a + b, symbol) == CountOf(a, symbol) + CountOf(b, symbol)
  {
    if b == [] {
      assert a + b == a;
    } else {
      var init, last := b[..|b| - 1], b[|b| - 1];
      assert a + b == (a + init) + [last] && b == init + [last];
      OneMoreEntry(a + init, last, symbol);
      OneMoreEntry(init, last, symbol);
      CountJoins(a, init, symbol);
    }
  }

  /** No refresh is lost or made up, on any run with any number of threads: of the refreshes of a symbol that
      update threads offered, each is still with its update thread, or in the queue, or in the hands of a
      processing thread, or has met the database once, or was dropped by an update thread that was asked to
      die in its wait for space. */
  lemma RefreshesConserved(u: Setup, evs: seq<Event>, order: R.WriteOrder, symbol: string)
    requires Proper(u) && RunOk(Start(u), evs, order)
    ensures var s := End(Start(u), evs, order);
            OffersOf(evs, symbol)
              == |Offering(s.updaters, symbol)| + CountOf(Contents(s.sys.ring), symbol) + |Holding(s.procs, symbol)|
                 + RefreshesOf(s.execs, symbol) + DroppedOn(Start(u), evs, order, symbol)
  {
    var s := End(Start(u), evs, order);
    RefreshesAccounted(u, evs, order, symbol);
    QueuedPuts(s.sys);
    CountJoins(s.sys.takes, Contents(s.sys.ring), symbol);
  }

  lemma QueuedPuts(m: M.Mon<string>)
    requires M.Inv(m)
    ensures m.puts == m.takes + Contents(m.ring)
  {
  }

  // ---------------------------------------------------------------- shutdown

  /** How many steps of its own a processing thread is away from leaving, at most, once it is to leave at the
      head of its loop. */
  function StepsLeft(at: Proc): (n: nat)
    ensures n <= 13
  {
    match at
    case Gone => 0
    case AtSys => 1
    case Dec => 2
    case Admit => 3
    case HalfUser(_, _) => 4
    case RanUser(_, _) => 5
    case GotUser(_) => 6
    case TakeUser => 7
    case AtUserAgain => 8
    case AtUser => 9
    case SysDec => 10
    case SysAdmit => 11
    case GotSys(_) => 12
    case TakeSys => 13
  }

  function LeftOf(s: Server, p: nat): nat {
    if p in s.procs then StepsLeft(s.procs[p]) else 0
  }

  /** The steps of a processing thread on a run, other than falling asleep in a dequeue. */
  function MovesOf(evs: seq<Event>, p: nat): nat {
    if evs == [] then 0 else MovesOf(evs[..|evs| - 1], p) + (if Mover(evs[|evs| - 1]) == Some(p) then 1 else 0)
  }

  lemma StepLeft(s: Server, e: Event, order: R.WriteOrder, p: nat)
    requires Sound(s) && Enabled(s, e) && s.die
    ensures var s' := Step(s, e, order);
            s'.die && LeftOf(s', p) + (if Mover(e) == Some(p) then 1 else 0) <= LeftOf(s, p)
  {
    StepMoves(s, e, order);
    if e != Kill {
      StepKeepsFlag(s, e, order);
    }
    if Mover(e) == Some(p) {
      MoverLeft(s, e, order, p);
    }
  }

  lemma MoverLeft(s: Server, e: Event, order: R.WriteOrder, p: nat)
    requires Sound(s) && Enabled(s, e) && s.die && Mover(e) == Some(p)
    ensures p in s.procs && p in Step(s, e, order).procs
    ensures StepsLeft(Step(s, e, order).procs[p]) < StepsLeft(s.procs[p])
  {
    StepCases(s, e, order);
    match e
    case UserQ(ue) => UserQLeft(s, ue, p);
    case SysQ(se) => SysQLeft(s, se, p);
    case Look(_) => LookLeft(s, p);
    case _ => WorkLeft(s, e, order, p);
  }

  lemma UserQLeft(s: Server, ue: M.Event<R.UserTxn>, p: nat)
    requires Sound(s) && UserQEnabled(s, ue) && Mover(UserQ(ue)) == Some(p)
    ensures p in s.procs && p in UserQStep(s, ue).procs
    ensures StepsLeft(UserQStep(s, ue).procs[p]) < StepsLeft(s.procs[p])
  {
  }

  lemma SysQLeft(s: Server, se: M.Event<string>, p: nat)
    requires Sound(s) && SysQEnabled(s, se) && Mover(SysQ(se)) == Some(p)
    ensures p in s.procs && p in SysQStep(s, se).procs
    ensures StepsLeft(SysQStep(s, se).procs[p]) < StepsLeft(s.procs[p])
  {
  }

  lemma LookLeft(s: Server, p: nat)
    requires Enabled(s, Look(p)) && s.die
    ensures StepsLeft(LocalStep(s, Look(p)).procs[p]) < StepsLeft(s.procs[p])
  {
  }

  lemma WorkLeft(s: Server, e: Event, order: R.WriteOrder, p: nat)
    requires Sound(s) && Enabled(s, e) && Mover(e) == Some(p)
    requires e.RunRefresh? || e.RunUser? || e.Write? || e.Decrement?
    ensures p in s.procs && p in Step(s, e, order).procs
    ensures StepsLeft(Step(s, e, order).procs[p]) < StepsLeft(s.procs[p])
  {
    StepCases(s, e, order);
  }

  /** Once the process is asked to die, every step of a processing thread brings it nearer to leaving: it makes
      at most thirteen more, from anywhere in its loop, whatever is queued and whatever others do. */
  lemma {:induction false} DyingDrains(s: Server, evs: seq<Event>, order: R.WriteOrder, p: nat)
    requires RunOk(s, evs, order) && s.die
    ensures End(s, evs, order).die && MovesOf(evs, p) + LeftOf(End(s, evs, order), p) <= LeftOf(s, p) <= 13
    decreases |evs|
  {
    if evs != [] {
      DyingDrains(s, evs[..|evs| - 1], order, p);
      StepLeft(End(s, evs[..|evs| - 1], order), evs[|evs| - 1], order, p);
    }
  }

  ghost predicate GoneOk(s: Server, p: nat) {
    p in s.procs && s.procs[p].Gone? ==> s.die
  }

  lemma StepGone(s: Server, e: Event, order: R.WriteOrder, p: nat)
    requires Sound(s) && Enabled(s, e) && GoneOk(s, p)
    ensures GoneOk(Step(s, e, order), p)
  {
    if e == Kill {
      assert Step(s, e, order).die;
    } else {
      StepKeepsFlag(s, e, order);
      StepMoves(s, e, order);
      if Mover(e) == Some(p) {
        MoverGoes(s, e, order, p);
      }
    }
  }

  /** Before that no thread leaves. */
  lemma {:induction false} NoneGone(u: Setup, evs: seq<Event>, order: R.WriteOrder, p: nat)
    requires Proper(u) && RunOk(Start(u), evs, order)
    ensures GoneOk(End(Start(u), evs, order), p)
    decreases |evs|
  {
    if evs != [] {
      NoneGone(u, evs[..|evs| - 1], order, p);
      StepGone(End(Start(u), evs[..|evs| - 1], order), evs[|evs| - 1], order, p);
    }
  }

  lemma MoverGoes(s: Server, e: Event, order: R.WriteOrder, p: nat)
    requires Sound(s) && Enabled(s, e) && Mover(e) == Some(p)
    ensures var s' := Step(s, e, order); p in s'.procs && (s'.procs[p].Gone? ==> e == Look(p) && s.die)
  {
    StepCases(s, e, order);
    match e
    case UserQ(ue) => UserQStays(s, ue, p);
    case SysQ(se) => SysQStays(s, se, p);
    case Look(_) => LookGoes(s, p);
    case _ => WorkStays(s, e, order, p);
  }

  lemma UserQStays(s: Server, ue: M.Event<R.UserTxn>, p: nat)
    requires Sound(s) && UserQEnabled(s, ue) && Mover(UserQ(ue)) == Some(p)
    ensures p in UserQStep(s, ue).procs && !UserQStep(s, ue).procs[p].Gone?
  {
  }

  lemma SysQStays(s: Server, se: M.Event<string>, p: nat)
    requires Sound(s) && SysQEnabled(s, se) && Mover(SysQ(se)) == Some(p)
    ensures p in SysQStep(s, se).procs && !SysQStep(s, se).procs[p].Gone?
  {
  }

  lemma LookGoes(s: Server, p: nat)
    requires Enabled(s, Look(p))
    ensures p in LocalStep(s, Look(p)).procs && (LocalStep(s, Look(p)).procs[p].Gone? ==> s.die)
  {
  }

  lemma WorkStays(s: Server, e: Event, order: R.WriteOrder, p: nat)
    requires Sound(s) && Enabled(s, e) && Mover(e) == Some(p)
    requires e.RunRefresh? || e.RunUser? || e.Write? || e.Decrement?
    ensures p in Step(s, e, order).procs && !Step(s, e, order).procs[p].Gone?
  {
    StepCases(s, e, order);
  }
}
