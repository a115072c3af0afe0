/** Admission control over runs of the queued server: how completions let throttled handlers go. */
module AdmissionLaws {
  import opened Ring
  import M = Monitor
  import R = ReplyProtocol
  import L = ReplyLaws
  import opened Ledger
  import opened Server
  import opened ServerInvariants
  import opened ServerRuns
  import opened ServerLaws

  // ---------------------------------------------------------------- completions

  /** A transaction after which the server takes one off num_txn_to_wait: any user transaction, and a
      refresh that succeeded. */
  predicate Completes(x: Exec) {
    match x
    case Answered(_, _) => true
    case Refreshed(_, _, rc) => rc == SUCCESS
  }

  function Completions(execs: seq<Exec>): nat {
    if execs == [] then 0
    else Completions(execs[..|execs| - 1]) + (if Completes(execs[|execs| - 1]) then 1 else 0)
  }

  lemma OneMoreExec(execs: seq<Exec>, x: Exec)
    ensures Completions(execs + [x]) == Completions(execs) + (if Completes(x) then 1 else 0)
  {
    assert (execs + [x])[..|execs|] == execs;
  }

  /** Between such a transaction and its test of num_txn_to_wait. */
  predicate Untested(at: Proc) {
    at.RanUser? || at.HalfUser? || at.Admit? || at.SysAdmit?
  }

  /** The threads that have completed a transaction and have not come to its decrement or passed it by. */
  function Owing(procs: map<nat, Proc>): set<nat> {
    set p | p in procs && (Untested(procs[p]) || Decrementing(procs[p]))
  }

  function Owes(at: Proc): nat {
    if Untested(at) || Decrementing(at) then 1 else 0
  }

  lemma OwingUpdate(procs: map<nat, Proc>, p: nat, at: Proc)
    requires p in procs
    ensures |Owing(procs[p := at])| == |Owing(procs)| + Owes(at) - Owes(procs[p])
  {
    var d, d' := Owing(procs), Owing(procs[p := at]);
    assert d' == if Owes(at) == 1 then d + {p} else d - {p};
  }

  /** A test that finds nothing to wait for, so that its completion is not counted. */
  predicate Misses(s: Server, e: Event) {
    e.Look? && e.p in s.procs && (s.procs[e.p].Admit? || s.procs[e.p].SysAdmit?) && s.toWait <= 0
  }

  /** The counter, less the completions that may still decrement it, plus those made so far. */
  function Balance(s: Server): int {
    s.toWait - |Owing(s.procs)| + Completions(s.execs)
  }

  // ---------------------------------------------------------------- one step

  /** A transaction that meets the database puts its thread in debt exactly if it completes. */
  lemma RunUserDebt(s: Server, p: nat)
    requires Sound(s) && Enabled(s, RunUser(p))
    ensures var s' := RunUserStep(s, p);
            && p in s'.procs && s'.toWait == s.toWait && !Decrementing(s'.procs[p]) && Owes(s.procs[p]) == 0
            && Completions(s'.execs) == Completions(s.execs) + Owes(s'.procs[p])
  {
    OneMoreExec(s.execs, Answered(s.procs[p].txn, Dispatch(s.db, s.procs[p].txn.body.request).1));
  }

  lemma RunRefreshDebt(s: Server, p: nat, up: bool)
    requires Sound(s) && Enabled(s, RunRefresh(p, up))
    ensures var s' := RunRefreshStep(s, p, up);
            && p in s'.procs && s'.toWait == s.toWait && !Decrementing(s'.procs[p]) && Owes(s.procs[p]) == 0
            && Completions(s'.execs) == Completions(s.execs) + Owes(s'.procs[p])
  {
    OneMoreExec(s.execs, Refreshed(s.procs[p].refresh, up, Refresh(s.db, s.procs[p].refresh.body, up).1));
  }

  lemma RunDebt(s: Server, e: Event, order: R.WriteOrder, p: nat)
    requires Sound(s) && Enabled(s, e) && (e.RunUser? || e.RunRefresh?) && Mover(e) == Some(p)
    ensures p in s.procs
    ensures var s' := Step(s, e, order);
            && p in s'.procs && s'.toWait == s.toWait && !Decrementing(s'.procs[p]) && Owes(s.procs[p]) == 0
            && Completions(s'.execs) == Completions(s.execs) + Owes(s'.procs[p])
  {
    StepCases(s, e, order);
    match e
    case RunUser(_) => RunUserDebt(s, p);
    case RunRefresh(_, up) => RunRefreshDebt(s, p, up);
  }

  /** No other event completes a transaction. */
  lemma RestCompletesNone(s: Server, e: Event, order: R.WriteOrder)
    requires Sound(s) && Enabled(s, e) && !e.RunUser? && !e.RunRefresh?
    ensures Step(s, e, order).execs == s.execs
  {
    StepCases(s, e, order);
    match e
    case UserQ(ue) => UserQRefines(s, ue, order);
    case SysQ(se) => SysQRefines(s, se, order);
    case _ =>
  }

  /** How a processing thread's debt changes. */
  lemma MoverOwes(s: Server, e: Event, order: R.WriteOrder, p: nat)
    requires Sound(s) && Enabled(s, e) && Mover(e) == Some(p) && !e.RunUser? && !e.RunRefresh?
    ensures p in s.procs
    ensures var s' := Step(s, e, order);
            p in s'.procs && Owes(s'.procs[p]) - Owes(s.procs[p])
              == if e.Decrement? || Misses(s, e) then -1 else 0
  {
    StepCases(s, e, order);
    match e
    case UserQ(ue) => UserQOwes(s, ue, p);
    case SysQ(se) => SysQOwes(s, se, p);
    case Write(_) => WriteOwes(s, p, order);
    case _ =>
  }

  lemma UserQOwes(s: Server, ue: M.Event<R.UserTxn>, p: nat)
    requires Sound(s) && UserQEnabled(s, ue) && Mover(UserQ(ue)) == Some(p)
    ensures p in s.procs
    ensures var s' := UserQStep(s, ue); p in s'.procs && Owes(s'.procs[p]) == 0 == Owes(s.procs[p])
  {
  }

  lemma SysQOwes(s: Server, se: M.Event<string>, p: nat)
    requires Sound(s) && SysQEnabled(s, se) && Mover(SysQ(se)) == Some(p)
    ensures p in s.procs
    ensures var s' := SysQStep(s, se); p in s'.procs && Owes(s'.procs[p]) == 0 == Owes(s.procs[p])
  {
  }

  lemma WriteOwes(s: Server, p: nat, order: R.WriteOrder)
    requires Sound(s) && Enabled(s, Write(p))
    ensures var s' := WriteStep(s, p, order); p in s'.procs && Owes(s'.procs[p]) == 1 == Owes(s.procs[p])
  {
  }

  lemma StepBalance(s: Server, e: Event, order: R.WriteOrder)
    requires Sound(s) && Enabled(s, e) && !e.Sample?
    ensures Balance(Step(s, e, order)) == Balance(s) + (if Misses(s, e) then 1 else 0)
  {
    var s' := Step(s, e, order);
    StepMoves(s, e, order);
    StepCounts(s, e, order);
    if e.RunUser? || e.RunRefresh? {
      RunDebt(s, e, order, e.p);
      OwingUpdate(s.procs, e.p, s'.procs[e.p]);
    } else {
      RestCompletesNone(s, e, order);
      if Mover(e).Some? {
        var p := Mover(e).value;
        MoverOwes(s, e, order, p);
        OwingUpdate(s.procs, p, s'.procs[p]);
      }
    }
  }

  // ---------------------------------------------------------------- runs without a tick

  ghost predicate NoSample(evs: seq<Event>) {
    forall i :: 0 <= i < |evs| ==> !evs[i].Sample?
  }

  /** The tests on a run that found nothing to wait for. */
  ghost function Missed(s: Server, evs: seq<Event>, order: R.WriteOrder): nat
    requires RunOk(s, evs, order)
    decreases |evs|
  {
    if evs == [] then 0
    else
      var init, last := evs[..|evs| - 1], evs[|evs| - 1];
      Missed(s, init, order) + (if Misses(End(s, init, order), last) then 1 else 0)
  }

  /** In every state of a run handlers have something to wait for. */
  ghost predicate Throttled(s: Server, evs: seq<Event>, order: R.WriteOrder)
    requires RunOk(s, evs, order)
    decreases |evs|
  {
    End(s, evs, order).toWait > 0 && (evs == [] || Throttled(s, evs[..|evs| - 1], order))
  }

  /** The transactions completed on a run. */
  ghost function CompletedOn(s: Server, evs: seq<Event>, order: R.WriteOrder): int
    requires RunOk(s, evs, order)
  {
    Completions(End(s, evs, order).execs) - Completions(s.execs)
  }

  /** Between two ticks, on every run and with any number of threads: the counter goes down by one for each
      completion, except for those still on their way to the decrement, and those whose test found nothing
      to wait for. */
  lemma {:induction false} AdmissionBalance(s: Server, evs: seq<Event>, order: R.WriteOrder)
    requires RunOk(s, evs, order) && NoSample(evs)
    ensures var s' := End(s, evs, order);
            (s.toWait - |Owing(s.procs)|) - (s'.toWait - |Owing(s'.procs)|)
              == CompletedOn(s, evs, order) - Missed(s, evs, order)
    decreases |evs|
  {
    if evs != [] {
      AdmissionBalance(s, evs[..|evs| - 1], order);
      StepBalance(End(s, evs[..|evs| - 1], order), evs[|evs| - 1], order);
    }
  }

  lemma {:induction false} ThrottledMissesNone(s: Server, evs: seq<Event>, order: R.WriteOrder)
    requires RunOk(s, evs, order)
    requires evs == [] || Throttled(s, evs[..|evs| - 1], order)
    ensures Missed(s, evs, order) == 0
    decreases |evs|
  {
    if evs != [] {
      ThrottledMissesNone(s, evs[..|evs| - 1], order);
    }
  }

  /** While there is something to wait for at every test, every completion counts: what the counter has lost,
      and the threads still on their way to a decrement, are the completions since the tick, and those that
      were on their way then. So it cannot stay positive over n + T completions. */
  lemma EveryCompletionCounts(s: Server, evs: seq<Event>, order: R.WriteOrder)
    requires RunOk(s, evs, order) && NoSample(evs) && (evs == [] || Throttled(s, evs[..|evs| - 1], order))
    ensures var s' := End(s, evs, order);
            && s.toWait - s'.toWait + |Owing(s'.procs)| == CompletedOn(s, evs, order) + |Owing(s.procs)|
            && (CompletedOn(s, evs, order) >= s.toWait + |s'.procs.Keys| ==> s'.toWait <= 0)
  {
    AdmissionBalance(s, evs, order);
    ThrottledMissesNone(s, evs, order);
    L.Fewer(Owing(End(s, evs, order).procs), End(s, evs, order).procs.Keys);
  }

  // ---------------------------------------------------------------- who gets in

  /** A handler leaves its idle state only when there is nothing to wait for. */
  lemma EntersAtZero(s: Server, e: Event, order: R.WriteOrder, h: nat)
    requires Sound(s) && Enabled(s, e) && h in s.handlers && s.handlers[h].Idle?
    ensures h in Step(s, e, order).handlers
    ensures !Step(s, e, order).handlers[h].Idle? ==> e.Call? && e.h == h && s.toWait <= 0
  {
    StepCases(s, e, order);
    if e.UserQ? {
      UserQLeavesIdle(s, e.ue, h);
    } else if e.SysQ? {
      SysQSilent(s, e.se);
    }
  }

  lemma UserQLeavesIdle(s: Server, ue: M.Event<R.UserTxn>, h: nat)
    requires Sound(s) && UserQEnabled(s, ue) && h in s.handlers && s.handlers[h].Idle?
    ensures h in UserQStep(s, ue).handlers && UserQStep(s, ue).handlers[h].Idle?
  {
  }

  /** As long as there is something to wait for, no idle handler enters. */
  lemma {:induction false} ThrottledStayIdle(s: Server, evs: seq<Event>, order: R.WriteOrder, h: nat)
    requires RunOk(s, evs, order) && (evs == [] || Throttled(s, evs[..|evs| - 1], order))
    requires h in s.handlers && s.handlers[h].Idle?
    ensures h in End(s, evs, order).handlers && End(s, evs, order).handlers[h].Idle?
    decreases |evs|
  {
    if evs != [] {
      ThrottledStayIdle(s, evs[..|evs| - 1], order, h);
      EntersAtZero(End(s, evs[..|evs| - 1], order), evs[|evs| - 1], order, h);
    }
  }

  lemma HandlerStays(s: Server, e: Event, order: R.WriteOrder, h: nat)
    requires Sound(s) && Enabled(s, e) && h in s.handlers
    ensures h in Step(s, e, order).handlers
  {
    StepCases(s, e, order);
    if e.UserQ? {
      UserQKeepsHandlers(s, e.ue);
    } else if e.SysQ? {
      SysQSilent(s, e.se);
    }
  }

  lemma UserQKeepsHandlers(s: Server, ue: M.Event<R.UserTxn>)
    requires Sound(s) && UserQEnabled(s, ue)
    ensures UserQStep(s, ue).handlers.Keys == s.handlers.Keys
  {
  }

  lemma {:induction false} HandlerStaysOn(s: Server, evs: seq<Event>, order: R.WriteOrder, h: nat)
    requires RunOk(s, evs, order) && h in s.handlers
    ensures h in End(s, evs, order).handlers
    decreases |evs|
  {
    if evs != [] {
      HandlerStaysOn(s, evs[..|evs| - 1], order, h);
      HandlerStays(End(s, evs[..|evs| - 1], order), evs[|evs| - 1], order, h);
    }
  }

  /** Handler h is not idle at the end. */
  ghost predicate Entered(s: Server, evs: seq<Event>, order: R.WriteOrder, h: nat)
    requires RunOk(s, evs, order)
  {
    h in End(s, evs, order).handlers && !End(s, evs, order).handlers[h].Idle?
  }

  /** The last event lets the handler in. */
  lemma LastEnters(s: Server, evs: seq<Event>, order: R.WriteOrder, h: nat)
    requires RunOk(s, evs, order) && evs != [] && h in s.handlers
    requires Entered(s, evs, order, h) && !Entered(s, evs[..|evs| - 1], order, h)
    ensures End(s, evs[..|evs| - 1], order).toWait <= 0
  {
    HandlerStaysOn(s, evs[..|evs| - 1], order, h);
    EntersAtZero(End(s, evs[..|evs| - 1], order), evs[|evs| - 1], order, h);
  }

  lemma CompletedGrows(s: Server, evs: seq<Event>, order: R.WriteOrder)
    requires RunOk(s, evs, order) && evs != []
    ensures CompletedOn(s, evs, order) >= CompletedOn(s, evs[..|evs| - 1], order)
  {
    StepCompletes(End(s, evs[..|evs| - 1], order), evs[|evs| - 1], order);
  }

  /** Admission control does what it is for: between two ticks, a handler that was idle when the counter was
      n gets in only after at least n transactions were completed, counting those on their way to their
      decrement then. */
  lemma {:induction false} EnteringCosts(s: Server, evs: seq<Event>, order: R.WriteOrder, h: nat)
    requires RunOk(s, evs, order) && NoSample(evs) && h in s.handlers && s.handlers[h].Idle?
    ensures Entered(s, evs, order, h) ==> CompletedOn(s, evs, order) + |Owing(s.procs)| >= s.toWait
    decreases |evs|
  {
    if evs != [] {
      var init := evs[..|evs| - 1];
      CompletedGrows(s, evs, order);
      EnteringCosts(s, init, order, h);
      if Entered(s, evs, order, h) && !Entered(s, init, order, h) {
        LastEnters(s, evs, order, h);
        AdmissionBalance(s, init, order);
      }
    }
  }

  lemma StepCompletes(s: Server, e: Event, order: R.WriteOrder)
    requires Sound(s) && Enabled(s, e)
    ensures Completions(Step(s, e, order).execs) >= Completions(s.execs)
  {
    if e.RunUser? || e.RunRefresh? {
      RunDebt(s, e, order, e.p);
    } else {
      RestCompletesNone(s, e, order);
    }
  }

  // ---------------------------------------------------------------- one processing thread

  function AtLeastZero(n: int): nat {
    if n > 0 then n else 0
  }

  /** Where the counter is when one thread has completed k transactions since it was n, and is at `at`. */
  predicate Counted(at: Proc, toWait: int, n: nat, k: int) {
    && k >= Owes(at) && toWait == AtLeastZero(n - (k - Owes(at)))
    && (Decrementing(at) ==> toWait > 0)
  }

  ghost predicate CountsDown(s: Server, p: nat, n: nat, k: int) {
    s.procs.Keys == {p} && Counted(s.procs[p], s.toWait, n, k)
  }

  /** A completion, or a step within a debt or without one. */
  lemma DebtKept(at: Proc, to: Proc, toWait: int, n: nat, k: int, more: nat)
    requires Counted(at, toWait, n, k) && Owes(to) == Owes(at) + more && (Decrementing(to) ==> toWait > 0)
    ensures Counted(to, toWait, n, k + more)
  {
  }

  /** A decrement, or a test that finds nothing to wait for. */
  lemma DebtPaid(at: Proc, to: Proc, toWait: int, left: int, n: nat, k: int)
    requires Counted(at, toWait, n, k) && Owes(at) == 1 && Owes(to) == 0
    requires (Decrementing(at) && left == toWait - 1) || (toWait <= 0 && left == toWait)
    ensures Counted(to, left, n, k)
  {
  }

  lemma StepCountsDown(s: Server, e: Event, order: R.WriteOrder, p: nat, n: nat, k: int)
    requires Sound(s) && Enabled(s, e) && !e.Sample? && CountsDown(s, p, n, k)
    ensures var s' := Step(s, e, order);
            CountsDown(s', p, n, k + Completions(s'.execs) - Completions(s.execs))
  {
    var s' := Step(s, e, order);
    StepMoves(s, e, order);
    assert Mover(e).Some? ==> Mover(e).value in s.procs.Keys;
    if e.RunUser? || e.RunRefresh? {
      RunDebt(s, e, order, p);
      DebtKept(s.procs[p], s'.procs[p], s.toWait, n, k, Owes(s'.procs[p]));
    } else {
      RestCompletesNone(s, e, order);
      if Mover(e).Some? {
        MoveCountsDown(s, e, order, p, n, k);
      } else {
        StepCounts(s, e, order);
      }
    }
  }

  lemma MoveCountsDown(s: Server, e: Event, order: R.WriteOrder, p: nat, n: nat, k: int)
    requires Sound(s) && Enabled(s, e) && !e.RunUser? && !e.RunRefresh? && Mover(e) == Some(p) && p in s.procs
    requires Counted(s.procs[p], s.toWait, n, k)
    ensures var s' := Step(s, e, order); p in s'.procs && Counted(s'.procs[p], s'.toWait, n, k)
  {
    var s' := Step(s, e, order);
    StepCounts(s, e, order);
    MoverOwes(s, e, order, p);
    if e.Decrement? || Misses(s, e) {
      DebtPaid(s.procs[p], s'.procs[p], s.toWait, s'.toWait, n, k);
    } else {
      StepTests(s, e, order, p);
      DebtKept(s.procs[p], s'.procs[p], s.toWait, n, k, 0);
    }
  }

  lemma {:induction false} AloneCountsDown(s: Server, evs: seq<Event>, order: R.WriteOrder, p: nat, n: nat)
    requires RunOk(s, evs, order) && NoSample(evs) && CountsDown(s, p, n, 0)
    ensures CountsDown(End(s, evs, order), p, n, CompletedOn(s, evs, order))
    decreases |evs|
  {
    if evs != [] {
      AloneCountsDown(s, evs[..|evs| - 1], order, p, n);
      StepCountsDown(End(s, evs[..|evs| - 1], order), evs[|evs| - 1], order, p, n,
                     CompletedOn(s, evs[..|evs| - 1], order));
    }
  }

  lemma CountStarts(s: Server, p: nat)
    requires s.procs.Keys == {p} && s.toWait >= 0 && s.procs[p].AtSys?
    ensures CountsDown(s, p, s.toWait, 0)
  {
  }

  lemma CountEnds(s: Server, p: nat, n: nat, k: int)
    requires CountsDown(s, p, n, k) && s.procs[p].AtSys?
    ensures s.toWait == if n - k > 0 then n - k else 0
  {
  }

  /** With one processing thread the count is exact: from the head of its loop back to the head of its loop,
      over any run without a tick, k completions take the counter from n to n - k, but not below zero. */
  lemma AloneExact(s: Server, evs: seq<Event>, order: R.WriteOrder, p: nat)
    requires RunOk(s, evs, order) && NoSample(evs) && s.procs.Keys == {p} && s.toWait >= 0
    requires s.procs[p].AtSys?
    ensures p in End(s, evs, order).procs
    ensures var left := s.toWait - CompletedOn(s, evs, order);
            End(s, evs, order).procs[p].AtSys? ==> End(s, evs, order).toWait == if left > 0 then left else 0
  {
    CountStarts(s, p);
    AloneCountsDown(s, evs, order, p, s.toWait);
    if End(s, evs, order).procs[p].AtSys? {
      CountEnds(End(s, evs, order), p, s.toWait, CompletedOn(s, evs, order));
    }
  }
}
