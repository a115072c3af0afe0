/** What follows for the queued server: order, wakeups, capacity, admission, progress, and the reply
    that comes too early. */
module ServerLaws {
  import opened Ring
  import M = Monitor
  import R = ReplyProtocol
  import L = ReplyLaws
  import A = ReplyAlways
  import opened Ledger
  import Controller
  import ControllerLaws
  import opened Server
  import opened ServerInvariants
  import opened ServerRuns

  // ---------------------------------------------------------------- one processing thread

  function UserTxns(execs: seq<Exec>): seq<Entry<R.UserTxn>> {
    if execs == [] then []
    else
      var last := execs[|execs| - 1];
      UserTxns(execs[..|execs| - 1]) + (if last.Answered? then [last.txn] else [])
  }

  function Refreshes(execs: seq<Exec>): seq<Entry<string>> {
    if execs == [] then []
    else
      var last := execs[|execs| - 1];
      Refreshes(execs[..|execs| - 1]) + (if last.Refreshed? then [last.refresh] else [])
  }

  /** With one processing thread, transactions meet the database in the order they were dequeued, all
      but the one it has in its hands; it finds work whenever it dequeues, so it never waits. */
  ghost predicate AloneOk(s: Server, p: nat) {
    && s.procs.Keys == {p}
    && UserTxns(s.execs) + (if s.procs[p].GotUser? then [s.procs[p].txn] else []) == s.user.takes
    && Refreshes(s.execs) + (if s.procs[p].GotSys? then [s.procs[p].refresh] else []) == s.sys.takes
    && s.user.parkedC == {} && s.user.wokenC == {} && s.sys.parkedC == {} && s.sys.wokenC == {}
    && (s.procs[p].TakeSys? ==> s.sys.ring.occupied > 0)
    && (s.procs[p].AtUserAgain? || s.procs[p].TakeUser? ==> s.user.ring.occupied > 0)
  }

  lemma AloneUserQ(s: Server, ue: M.Event<R.UserTxn>, p: nat)
    requires Sound(s) && UserQEnabled(s, ue) && AloneOk(s, p)
    ensures AloneOk(UserQStep(s, ue), p)
  {
  }

  lemma AloneSysQ(s: Server, se: M.Event<string>, p: nat)
    requires Sound(s) && SysQEnabled(s, se) && AloneOk(s, p)
    ensures AloneOk(SysQStep(s, se), p)
  {
  }

  lemma AloneLocal(s: Server, e: Event, p: nat)
    requires Sound(s) && Enabled(s, e) && Local(e) && AloneOk(s, p)
    ensures AloneOk(LocalStep(s, e), p)
  {
    assert forall t :: t in s.procs ==> t == p;
  }

  lemma OneMore(execs: seq<Exec>, x: Exec)
    ensures UserTxns(execs + [x]) == UserTxns(execs) + (if x.Answered? then [x.txn] else [])
    ensures Refreshes(execs + [x]) == Refreshes(execs) + (if x.Refreshed? then [x.refresh] else [])
  {
    assert (execs + [x])[..|execs|] == execs;
  }

  lemma AloneRunUser(s: Server, t: nat, p: nat)
    requires Sound(s) && Enabled(s, RunUser(t)) && AloneOk(s, p)
    ensures AloneOk(RunUserStep(s, t), p)
  {
    assert forall t :: t in s.procs ==> t == p;
    var txn, rc := s.procs[p].txn, Dispatch(s.db, s.procs[p].txn.body.request).1;
    OneMore(s.execs, Answered(txn, rc));
    assert RunUserStep(s, t).procs == s.procs[p := RanUser(txn, rc)];
  }

  lemma AloneRunRefresh(s: Server, t: nat, up: bool, p: nat)
    requires Sound(s) && Enabled(s, RunRefresh(t, up)) && AloneOk(s, p)
    ensures AloneOk(RunRefreshStep(s, t, up), p)
  {
    assert forall t :: t in s.procs ==> t == p;
    var refresh, rc := s.procs[p].refresh, Refresh(s.db, s.procs[p].refresh.body, up).1;
    OneMore(s.execs, Refreshed(refresh, up, rc));
    assert RunRefreshStep(s, t, up).procs == s.procs[p := if rc == SUCCESS then SysAdmit else AtUser];
  }

  lemma AloneWrite(s: Server, t: nat, order: R.WriteOrder, p: nat)
    requires Sound(s) && Enabled(s, Write(t)) && AloneOk(s, p)
    ensures AloneOk(WriteStep(s, t, order), p)
  {
    assert forall t :: t in s.procs ==> t == p;
  }

  lemma AloneRun(s: Server, e: Event, order: R.WriteOrder, p: nat)
    requires Sound(s) && Enabled(s, e) && (e.RunRefresh? || e.RunUser? || e.Write?) && AloneOk(s, p)
    ensures AloneOk(Step(s, e, order), p)
  {
    StepCases(s, e, order);
    match e
    case RunUser(t) => AloneRunUser(s, t, p);
    case RunRefresh(t, up) => AloneRunRefresh(s, t, up, p);
    case Write(t) => AloneWrite(s, t, order, p);
  }

  lemma {:induction false} RunAlone(u: Setup, evs: seq<Event>, order: R.WriteOrder, p: nat)
    requires Proper(u) && u.procs == {p} && RunOk(Start(u), evs, order)
    ensures AloneOk(End(Start(u), evs, order), p)
    decreases |evs|
  {
    if evs != [] {
      var s, e := End(Start(u), evs[..|evs| - 1], order), evs[|evs| - 1];
      RunAlone(u, evs[..|evs| - 1], order, p);
      StepCases(s, e, order);
      if e.UserQ? {
        AloneUserQ(s, e.ue, p);
      } else if e.SysQ? {
        AloneSysQ(s, e.se, p);
      } else if Local(e) {
        AloneLocal(s, e, p);
      } else {
        AloneRun(s, e, order, p);
      }
    }
  }

  /** User transactions met the database in ticket order 1, 2, 3, ..., every dequeued one but at most
      the last, and refreshes in the order they were enqueued. */
  ghost predicate InOrder(s: Server) {
    && (forall i :: 0 <= i < |UserTxns(s.execs)| ==> UserTxns(s.execs)[i].ticket == i + 1)
    && UserTxns(s.execs) <= s.user.puts && Refreshes(s.execs) <= s.sys.puts
    && |s.user.takes| - 1 <= |UserTxns(s.execs)| && |s.sys.takes| - 1 <= |Refreshes(s.execs)|
  }

  /** No thread can block in a dequeue, or leave one without a transaction. */
  ghost predicate NoWaitingDequeue(s: Server) {
    && (forall t :: !UserQEnabled(s, M.TakeWait(t)) && !UserQEnabled(s, M.TakeDie(t)))
    && (forall t :: !SysQEnabled(s, M.TakeWait(t)) && !SysQEnabled(s, M.TakeDie(t)))
  }

  lemma AloneInOrder(s: Server, p: nat)
    requires M.Inv(s.user) && M.Inv(s.sys) && AloneOk(s, p)
    ensures InOrder(s)
  {
    forall i | 0 <= i < |UserTxns(s.execs)| ensures UserTxns(s.execs)[i].ticket == i + 1 {
      var n: nat := i;
      assert s.user.takes[n] == s.user.puts[n] && s.user.puts[n].ticket == n + 1;
    }
  }

  lemma AloneNeverWaits(s: Server, p: nat)
    requires AloneOk(s, p)
    ensures NoWaitingDequeue(s)
  {
  }

  /** With one processing thread, after any run, transactions met the database in dequeue order, which
      for user requests is ticket order, and the thread never blocks in a dequeue. */
  lemma TicketOrder(u: Setup, evs: seq<Event>, order: R.WriteOrder, p: nat)
    requires Proper(u) && u.procs == {p} && RunOk(Start(u), evs, order)
    ensures InOrder(End(Start(u), evs, order)) && NoWaitingDequeue(End(Start(u), evs, order))
  {
    RunAlone(u, evs, order, p);
    AloneInOrder(End(Start(u), evs, order), p);
    AloneNeverWaits(End(Start(u), evs, order), p);
  }

  // ---------------------------------------------------------------- reply cells

  /** In every reachable state, for every write order: the txn_done of a handler that waits is pointed to
      exactly once, from the user queue or from a thread that has yet to set it, that of others from
      neither, and the user queue holds at most one entry for each waiting handler. */
  lemma CellsPointedToOnce(u: Setup, evs: seq<Event>, order: R.WriteOrder, h: nat)
    requires Proper(u) && RunOk(Start(u), evs, order)
    ensures var s := End(Start(u), evs, order); var c := CoreOf(s);
            && (L.Waiting(c, h) <==> (exists i :: L.QueuedAt(c, h, i)) || (exists p :: L.HeldBy(c, order, h, p)))
            && ((exists i :: L.QueuedAt(c, h, i)) ==> !exists p :: L.HeldBy(c, order, h, p))
            && (forall i, j :: L.QueuedAt(c, h, i) && L.QueuedAt(c, h, j) ==> i == j)
            && (forall p, q :: L.HeldBy(c, order, h, p) && L.HeldBy(c, order, h, q) ==> p == q)
            && s.user.ring.occupied <= |set g | g in c.handlers && L.Waiting(c, g)|
  {
    var s := End(Start(u), evs, order);
    A.ExactlyOnce(CoreOf(s), order, h);
    A.OccupancyBound(CoreOf(s), order);
    QueueFacts(s.user);
  }

  // ---------------------------------------------------------------- wakeups

  /** As long as the process is not asked to die, neither queue loses a wakeup, however the threads of
      the server interleave. */
  lemma {:induction false} ServerKeepsWakeups(u: Setup, evs: seq<Event>, order: R.WriteOrder)
    requires Proper(u) && RunOk(Start(u), evs, order)
    requires Kill !in evs
    ensures var s := End(Start(u), evs, order); !s.die && M.NoLostWakeup(s.user) && M.NoLostWakeup(s.sys)
    decreases |evs|
  {
    if evs != [] {
      var s, e := End(Start(u), evs[..|evs| - 1], order), evs[|evs| - 1];
      assert forall x :: x in evs[..|evs| - 1] ==> x in evs;
      ServerKeepsWakeups(u, evs[..|evs| - 1], order);
      StepRefines(s, e, order);
      StepKeepsFlag(s, e, order);
      if e.UserQ? {
        M.WakeupsKeptIff(s.user, e.ue, s.die);
      } else if e.SysQ? {
        M.WakeupsKeptIff(s.sys, e.se, s.die);
      }
    }
  }

  lemma StepKeepsFlag(s: Server, e: Event, order: R.WriteOrder)
    requires Sound(s) && Enabled(s, e) && e != Kill
    ensures Step(s, e, order).die == s.die
  {
    StepCases(s, e, order);
    if e.UserQ? {
      UserQKeepsFlag(s, e.ue);
    } else if e.SysQ? {
      SysQKeepsFlag(s, e.se);
    }
  }

  lemma UserQKeepsFlag(s: Server, ue: M.Event<R.UserTxn>)
    requires Sound(s) && UserQEnabled(s, ue)
    ensures UserQStep(s, ue).die == s.die
  {
  }

  lemma SysQKeepsFlag(s: Server, se: M.Event<string>)
    requires Sound(s) && SysQEnabled(s, se)
    ensures SysQStep(s, se).die == s.die
  {
  }

  // ---------------------------------------------------------------- the admission counter

  /** The threads past the test of num_txn_to_wait, and about to decrement it. */
  function Decrementers(procs: map<nat, Proc>): set<nat> {
    set p | p in procs && Decrementing(procs[p])
  }

  /** The counter less the decrements under way never falls below minus the number of threads. */
  ghost predicate CounterOk(s: Server) {
    s.toWait - |Decrementers(s.procs)| >= -|s.procs.Keys|
  }

  lemma DecrementersUpdate(procs: map<nat, Proc>, p: nat, at: Proc)
    requires p in procs
    ensures procs[p := at].Keys == procs.Keys
    ensures |Decrementers(procs[p := at])| == |Decrementers(procs)|
              + (if Decrementing(at) then 1 else 0) - (if Decrementing(procs[p]) then 1 else 0)
    ensures |Decrementers(procs[p := at])| <= |procs.Keys|
  {
    var d, d' := Decrementers(procs), Decrementers(procs[p := at]);
    assert d' == if Decrementing(at) then d + {p} else d - {p};
    L.Fewer(d', procs.Keys);
  }

  /** The processing thread an event moves on, if any. */
  function Mover(e: Event): Option<nat> {
    match e
    case Look(p) => Some(p)
    case RunRefresh(p, _) => Some(p)
    case RunUser(p) => Some(p)
    case Write(p) => Some(p)
    case Decrement(p) => Some(p)
    case UserQ(ue) => if ue.Take? || ue.TakeDie? then Some(ue.t) else None
    case SysQ(se) => if se.Take? || se.TakeDie? then Some(se.t) else None
    case _ => None
  }

  lemma StepMoves(s: Server, e: Event, order: R.WriteOrder)
    requires Sound(s) && Enabled(s, e)
    ensures var s' := Step(s, e, order);
            match Mover(e)
            case None => s'.procs == s.procs
            case Some(p) => p in s.procs && p in s'.procs && s'.procs == s.procs[p := s'.procs[p]]
  {
    StepCases(s, e, order);
  }

  lemma StepCounts(s: Server, e: Event, order: R.WriteOrder)
    requires Sound(s) && Enabled(s, e)
    ensures var s' := Step(s, e, order);
            match e
            case Decrement(p) => s'.toWait == s.toWait - 1 && Decrementing(s.procs[p]) && !Decrementing(s'.procs[p])
            case Sample(mode, smooth) =>
              s'.toWait == Controller.WaitCount(mode, smooth, s.user.ring.occupied + s.sys.ring.occupied)
            case _ => s'.toWait == s.toWait
  {
    StepCases(s, e, order);
  }

  lemma StepTests(s: Server, e: Event, order: R.WriteOrder, p: nat)
    requires Sound(s) && Enabled(s, e) && Mover(e) == Some(p) && !e.Decrement?
    ensures p in s.procs && !Decrementing(s.procs[p])
    ensures var s' := Step(s, e, order); p in s'.procs && (Decrementing(s'.procs[p]) ==> s.toWait > 0)
  {
    StepCases(s, e, order);
  }

  lemma StepCounter(s: Server, e: Event, order: R.WriteOrder)
    requires Sound(s) && Enabled(s, e) && CounterOk(s)
    ensures var s' := Step(s, e, order); CounterOk(s') && s'.procs.Keys == s.procs.Keys
  {
    var s' := Step(s, e, order);
    StepMoves(s, e, order);
    StepCounts(s, e, order);
    if Mover(e).Some? {
      var p := Mover(e).value;
      DecrementersUpdate(s.procs, p, s'.procs[p]);
      if !e.Decrement? {
        StepTests(s, e, order, p);
      }
    } else if e.Sample? {
      ControllerLaws.WaitCountBound(e.mode, e.smooth, s.user.ring.occupied + s.sys.ring.occupied);
      L.Fewer(Decrementers(s.procs), s.procs.Keys);
    }
  }

  /** Testing and decrementing are two steps, and ticks reset the counter at any time; yet with T
      processing threads num_txn_to_wait never falls below -T. */
  lemma {:induction false} CounterBound(u: Setup, evs: seq<Event>, order: R.WriteOrder)
    requires Proper(u) && RunOk(Start(u), evs, order)
    ensures var s := End(Start(u), evs, order); CounterOk(s) && s.procs.Keys == u.procs && s.toWait >= -|u.procs|
    decreases |evs|
  {
    if evs == [] {
      assert Decrementers(Start(u).procs) == {};
    } else {
      var s, e := End(Start(u), evs[..|evs| - 1], order), evs[|evs| - 1];
      CounterBound(u, evs[..|evs| - 1], order);
      StepCounter(s, e, order);
    }
  }

  /** What happens to the counter when its test and its decrement are one step, as they are for a single
      thread. */
  datatype CounterEvent = Served | Sampled(mode: Controller.Mode, smooth: real, queued: nat)

  function CounterAfter(n: int, evs: seq<CounterEvent>): int {
    if evs == [] then n
    else
      var m := CounterAfter(n, evs[..|evs| - 1]);
      match evs[|evs| - 1]
      case Served => Controller.Decremented(m)
      case Sampled(mode, smooth, queued) => Controller.WaitCount(mode, smooth, queued)
  }

  /** Then it is never negative, over any run of completions and ticks; and k completions in a row take it
      from n to n - k, but not below zero. */
  lemma {:induction false} OneStepCounter(n: int, evs: seq<CounterEvent>)
    requires n >= 0
    ensures CounterAfter(n, evs) >= 0
    ensures (forall i :: 0 <= i < |evs| ==> evs[i].Served?) ==>
              CounterAfter(n, evs) == if n > |evs| then n - |evs| else 0
  {
    if evs != [] {
      OneStepCounter(n, evs[..|evs| - 1]);
      var e := evs[|evs| - 1];
      if e.Sampled? {
        ControllerLaws.WaitCountBound(e.mode, e.smooth, e.queued);
      }
    }
  }

  // ---------------------------------------------------------------- what a tick finds

  /** In every reachable state a tick finds at most two full rings. */
  lemma QueuesWithinCapacity(u: Setup, evs: seq<Event>, order: R.WriteOrder)
    requires Proper(u) && RunOk(Start(u), evs, order)
    ensures var s := End(Start(u), evs, order);
            s.user.ring.occupied + s.sys.ring.occupied <= ControllerLaws.CAPACITY
  {
  }

  /** So on the server's runs, whatever its threads do: a tick that comes when the smoothed degree has
      faded over enough quiet ticks lets all handlers go. */
  lemma FadedTickReleases(u: Setup, evs: seq<Event>, order: R.WriteOrder, mode: Controller.Mode, start: real, m: nat)
    requires Proper(u) && RunOk(Start(u), evs, order)
    requires start >= 0.0 && m >= ControllerLaws.ReleaseTicks(start)
    ensures Step(End(Start(u), evs, order), Sample(mode, ControllerLaws.Faded(m, start)), order).toWait == 0
  {
    SoundTickReleases(End(Start(u), evs, order), order, mode, ControllerLaws.Faded(m, start), start, m);
  }

  lemma SoundTickReleases(s: Server, order: R.WriteOrder, mode: Controller.Mode, smooth: real, start: real, m: nat)
    requires Sound(s) && start >= 0.0
    requires m >= ControllerLaws.ReleaseTicks(start) && smooth == ControllerLaws.Faded(m, start)
    ensures Step(s, Sample(mode, smooth), order).toWait == 0
  {
    StepCounts(s, Sample(mode, smooth), order);
    ControllerLaws.FadedSmall(m, start);
    ControllerLaws.SmallShare(mode, smooth, s.user.ring.occupied + s.sys.ring.occupied);
  }
}
