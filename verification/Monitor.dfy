/** The queue of chronos_queue.c as a monitor: any number of producers and consumers, the mutex,
    and the condition variables `more` (consumers wait) and `less` (producers wait). One event is
    one stay under the mutex, from the lock to the unlock or to the next wait. */
module Monitor {
  import opened Ring

  datatype Mon<T> = Mon(
    ring: Ring<T>,
    parkedC: set<nat>,      // consumers blocked on `more`, not yet signalled
    wokenC: set<nat>,       // consumers signalled (or timed out) that have not got the mutex back
    parkedP: set<nat>,      // producers blocked on `less`
    wokenP: set<nat>,
    puts: seq<Entry<T>>,    // history: everything enqueued
    takes: seq<Entry<T>>)   // history: everything dequeued

  datatype Event<T> =
    | Put(t: nat, body: T, woke: set<nat>)
    | PutWait(t: nat)
    | PutDie(t: nat)
    | Take(t: nat, woke: set<nat>)
    | TakeWait(t: nat)
    | TakeDie(t: nat)
    | WakeC(t: nat)         // the five second timeout, or a spurious wakeup
    | WakeP(t: nat)

  ghost function Init<T>(slots: seq<Entry<T>>): (m: Mon<T>)
    requires |slots| == SIZE
    ensures Inv(m) && NoLostWakeup(m)
  {
    Mon(Empty(slots), {}, {}, {}, {}, [], [])
  }

  /** pthread_cond_signal: at least one of the blocked threads is woken, if there is one. */
  ghost predicate Signal(parked: set<nat>, woke: set<nat>) {
    woke <= parked && (parked != {} ==> woke != {})
  }

  /** A thread at the head of the wait loop: it has just locked the mutex, or it came back from a
      wait and was not asked to die. */
  ghost predicate AtLoop(t: nat, parked: set<nat>, woken: set<nat>, die: bool) {
    t !in parked && (t in woken ==> !die)
  }

  ghost predicate Enabled<T>(m: Mon<T>, e: Event<T>, die: bool) {
    match e
    case Put(t, _, woke) => AtLoop(t, m.parkedP, m.wokenP, die) && m.ring.occupied < SIZE && Signal(m.parkedC, woke)
    case PutWait(t) => AtLoop(t, m.parkedP, m.wokenP, die) && m.ring.occupied >= SIZE
    case PutDie(t) => t in m.wokenP && die
    case Take(t, woke) => AtLoop(t, m.parkedC, m.wokenC, die) && m.ring.occupied > 0 && Signal(m.parkedP, woke)
    case TakeWait(t) => AtLoop(t, m.parkedC, m.wokenC, die) && m.ring.occupied <= 0
    case TakeDie(t) => t in m.wokenC && die
    case WakeC(t) => t in m.parkedC
    case WakeP(t) => t in m.parkedP
  }

  /** The state after an event. */
  ghost function Step<T>(m: Mon<T>, e: Event<T>, die: bool): Mon<T>
    requires Valid(m.ring) && Enabled(m, e, die)
  {
    match e
    case Put(t, body, woke) =>
      m.(ring := Enqueued(m.ring, body), wokenP := m.wokenP - {t},
         parkedC := m.parkedC - woke, wokenC := m.wokenC + woke,
         puts := m.puts + [Entry(m.ring.ticketReq + 1, body)])
    case PutWait(t) => m.(wokenP := m.wokenP - {t}, parkedP := m.parkedP + {t})
    case PutDie(t) => m.(wokenP := m.wokenP - {t})
    case Take(t, woke) =>
      m.(ring := Dequeued(m.ring), wokenC := m.wokenC - {t},
         parkedP := m.parkedP - woke, wokenP := m.wokenP + woke,
         takes := m.takes + [Head(m.ring)])
    case TakeWait(t) => m.(wokenC := m.wokenC - {t}, parkedC := m.parkedC + {t})
    case TakeDie(t) => m.(wokenC := m.wokenC - {t})
    case WakeC(t) => m.(parkedC := m.parkedC - {t}, wokenC := m.wokenC + {t})
    case WakeP(t) => m.(parkedP := m.parkedP - {t}, wokenP := m.wokenP + {t})
  }

  /** What every state keeps: the ring is sound, what was enqueued is what was dequeued followed by
      what the ring holds, and tickets are 1, 2, 3, ... in enqueue order. */
  ghost predicate Inv<T>(m: Mon<T>) {
    && Valid(m.ring)
    && m.puts == m.takes + Contents(m.ring)
    && m.ring.ticketReq == |m.puts|
    && (forall i: nat :: i < |m.puts| ==> m.puts[i].ticket == i + 1)
    && m.parkedC !! m.wokenC && m.parkedP !! m.wokenP
  }

  /** No lost wakeup: while a consumer sleeps un-signalled, every entry has a woken consumer on its
      way to it, and symmetrically for producers and free slots. */
  ghost predicate NoLostWakeup<T>(m: Mon<T>) {
    && (m.parkedC != {} ==> m.ring.occupied <= |m.wokenC|)
    && (m.parkedP != {} ==> SIZE - m.ring.occupied <= |m.wokenP|)
  }

  lemma StepInv<T>(m: Mon<T>, e: Event<T>, die: bool)
    requires Inv(m) && Enabled(m, e, die)
    ensures Inv(Step(m, e, die))
  {
    var m' := Step(m, e, die);
    match e
    case Put(t, body, woke) =>
      EnqueuedRefines(m.ring, body);
      assert m.takes + (Contents(m.ring) + [Entry(m.ring.ticketReq + 1, body)]) == m'.puts;
    case Take(t, woke) =>
      DequeuedRefines(m.ring);
      assert m.takes + ([Head(m.ring)] + Contents(m'.ring)) == m'.takes + Contents(m'.ring);
    case _ =>
  }

  /** Exactly the events that lose a wakeup: only a thread that leaves because the process was asked
      to die can take its signal along, and it does so just when somebody sleeps and no spare thread
      was woken. */
  lemma WakeupsKeptIff<T>(m: Mon<T>, e: Event<T>, die: bool)
    requires Inv(m) && Enabled(m, e, die) && NoLostWakeup(m)
    ensures NoLostWakeup(Step(m, e, die)) <==>
            && (e.TakeDie? ==> m.parkedC == {} || m.ring.occupied < |m.wokenC|)
            && (e.PutDie? ==> m.parkedP == {} || SIZE - m.ring.occupied < |m.wokenP|)
  {
  }

  /** A run: events with the answer timeToDieFp gives at each. */
  ghost predicate RunOk<T>(m: Mon<T>, run: seq<(Event<T>, bool)>)
    requires Inv(m)
    decreases |run|
  {
    run == [] ||
    (Enabled(m, run[0].0, run[0].1) && (StepInv(m, run[0].0, run[0].1); RunOk(Step(m, run[0].0, run[0].1), run[1..])))
  }

  ghost function RunEnd<T>(m: Mon<T>, run: seq<(Event<T>, bool)>): (m': Mon<T>)
    requires Inv(m) && RunOk(m, run)
    ensures Inv(m')
    decreases |run|
  {
    if run == [] then m
    else (StepInv(m, run[0].0, run[0].1); RunEnd(Step(m, run[0].0, run[0].1), run[1..]))
  }

  /** Over every run of any number of threads: dequeued entries are a prefix of enqueued ones, tickets
      are given and come out as 1, 2, 3, ..., and occupancy and indices stay in range. */
  lemma QueueIsFifo<T>(slots: seq<Entry<T>>, run: seq<(Event<T>, bool)>)
    requires |slots| == SIZE && RunOk(Init(slots), run)
    ensures var m := RunEnd(Init(slots), run);
            && m.takes <= m.puts
            && (forall i: nat :: i < |m.takes| ==> m.takes[i].ticket == i + 1)
            && 0 <= m.ring.occupied <= SIZE
            && m.ring.nextin == (m.ring.nextout + m.ring.occupied) % SIZE
            && Contents(m.ring) == m.puts[|m.takes|..]
  {
    var m := RunEnd(Init(slots), run);
    forall i: nat | i < |m.takes| ensures m.takes[i] == m.puts[i] {
    }
  }

  lemma {:induction false} RunKeepsWakeups<T>(m: Mon<T>, run: seq<(Event<T>, bool)>)
    requires Inv(m) && NoLostWakeup(m) && RunOk(m, run)
    requires forall i :: 0 <= i < |run| ==> !run[i].1
    ensures NoLostWakeup(RunEnd(m, run))
    decreases |run|
  {
    if run != [] {
      StepInv(m, run[0].0, run[0].1);
      WakeupsKeptIff(m, run[0].0, run[0].1);
      RunKeepsWakeups(Step(m, run[0].0, run[0].1), run[1..]);
    }
  }

  /** While the process is not asked to die, no reachable state has threads parked on both sides with
      nobody woken, and if all that are in the queue sleep on one side, the queue is truly empty or
      truly full: there is neither work nor space the sleepers missed. */
  lemma NeverAllParked<T>(slots: seq<Entry<T>>, run: seq<(Event<T>, bool)>)
    requires |slots| == SIZE && RunOk(Init(slots), run)
    requires forall i :: 0 <= i < |run| ==> !run[i].1
    ensures var m := RunEnd(Init(slots), run);
            && NoLostWakeup(m)
            && (m.wokenC == {} && m.parkedC != {} ==> m.ring.occupied == 0)
            && (m.wokenP == {} && m.parkedP != {} ==> m.ring.occupied == SIZE)
            && (m.wokenC == {} && m.wokenP == {} ==> m.parkedC == {} || m.parkedP == {})
  {
    RunKeepsWakeups(Init(slots), run);
  }

  /** One more event at the front of a run. */
  lemma Prepend<T>(m: Mon<T>, e: Event<T>, die: bool, run: seq<(Event<T>, bool)>)
    requires Inv(m) && Enabled(m, e, die) && Inv(Step(m, e, die)) && RunOk(Step(m, e, die), run)
    ensures RunOk(m, [(e, die)] + run)
    ensures RunEnd(m, [(e, die)] + run) == RunEnd(Step(m, e, die), run)
  {
  }

  /** The restriction is needed: two consumers wait, one is signalled for the entry that arrives,
      is asked to die, and leaves; the other sleeps beside the entry until its timeout. */
  lemma DyingLosesWakeup<T>(slots: seq<Entry<T>>, body: T) returns (run: seq<(Event<T>, bool)>)
    requires |slots| == SIZE
    ensures RunOk(Init(slots), run)
    ensures var m := RunEnd(Init(slots), run);
            m.ring.occupied > 0 && m.parkedC != {} && m.wokenC == {} && !NoLostWakeup(m)
  {
    var m0 := Init(slots);
    var m1 := Step(m0, TakeWait(1), false);
    var m2 := Step(m1, TakeWait(2), false);
    StepInv(m0, TakeWait(1), false);
    StepInv(m1, TakeWait(2), false);
    assert 1 in m2.parkedC;
    var m3 := Step(m2, Put(1, body, {1}), false);
    StepInv(m2, Put(1, body, {1}), false);
    assert 1 in m3.wokenC && 2 in m3.parkedC;
    var m4 := Step(m3, TakeDie(1), true);
    StepInv(m3, TakeDie(1), true);
    assert m4.wokenC == {} && 2 in m4.parkedC && m4.ring.occupied == 1;
    run := [];
    Prepend(m3, TakeDie(1), true, run);
    run := [(TakeDie(1), true)] + run;
    Prepend(m2, Put(1, body, {1}), false, run);
    run := [(Put(1, body, {1}), false)] + run;
    Prepend(m1, TakeWait(2), false, run);
    run := [(TakeWait(2), false)] + run;
    Prepend(m0, TakeWait(1), false, run);
    run := [(TakeWait(1), false)] + run;
  }
}
