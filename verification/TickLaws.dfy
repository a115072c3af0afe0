/** What a tick reports and decides, counted from the transactions that finished before it. */
module TickLaws {
  import opened Controller
  import opened ControllerLaws

  // ---------------------------------------------------------------- counting the events

  function Oks(evs: seq<Event>): nat {
    if evs == [] then 0 else (if evs[0].Done? && evs[0].ok then 1 else 0) + Oks(evs[1..])
  }

  function Fails(evs: seq<Event>): nat {
    if evs == [] then 0 else (if evs[0].Done? && !evs[0].ok then 1 else 0) + Fails(evs[1..])
  }

  /** The milliseconds of the transactions that succeeded. */
  function OkMs(evs: seq<Event>): int {
    if evs == [] then 0 else (if evs[0].Done? && evs[0].ok then evs[0].ms else 0) + OkMs(evs[1..])
  }

  /** The transactions that succeeded within the bound. */
  function InTime(evs: seq<Event>, bound: real): nat {
    if evs == [] then 0
    else (if evs[0].Done? && evs[0].ok && evs[0].ms as real <= bound then 1 else 0) + InTime(evs[1..], bound)
  }

  /** The ticks of a run. */
  function Ticks(evs: seq<Event>): nat {
    if evs == [] then 0 else (if evs[0].Sample? then 1 else 0) + Ticks(evs[1..])
  }

  lemma {:induction false} RecordedCounts(cfg: Config, evs: seq<Event>)
    ensures AllRecorded(cfg, evs) == Stats(Oks(evs), OkMs(evs) as real, Fails(evs), InTime(evs, cfg.delayBound))
  {
    if evs != [] {
      RecordedCounts(cfg, evs[1..]);
    }
  }

  /** Over every run, what the ticks reported plus what the current slot holds has grown by one success
      or failure for each transaction, by the milliseconds of those that succeeded, and by one timely
      transaction for each of these that took no longer than the bound. */
  lemma CountsConserved(cfg: Config, c: Control, evs: seq<Event>, threads: nat)
    requires Threads(c, threads) && cfg.delayBound > 0.0 && Allowed(evs, threads)
    ensures var c' := RunOf(cfg, c, evs, threads);
            var told, now, was := Reported(cfg, c, evs, threads), Totals(c'.stats[c'.slot]), Totals(c.stats[c.slot]);
            && told.txns + now.txns == was.txns + Oks(evs)
            && told.failed + now.failed == was.failed + Fails(evs)
            && told.ms + now.ms == was.ms + OkMs(evs) as real
            && told.timely + now.timely == was.timely + InTime(evs, cfg.delayBound)
  {
    StatisticsConserved(cfg, c, evs, threads);
    RecordedCounts(cfg, evs);
  }

  /** The transactions of one thread. */
  function Own(evs: seq<Event>, thread: nat): seq<Event> {
    if evs == [] then []
    else (if evs[0].Done? && evs[0].thread == thread then [evs[0]] else []) + Own(evs[1..], thread)
  }

  ghost predicate NoTick(evs: seq<Event>) {
    forall i :: 0 <= i < |evs| ==> evs[i].Done?
  }

  /** A cell after some transactions of its thread. */
  ghost predicate Grown(was: Stats, now: Stats, own: seq<Event>, bound: real) {
    && now.txns == was.txns + Oks(own) && now.failed == was.failed + Fails(own)
    && now.ms == was.ms + OkMs(own) as real && now.timely == was.timely + InTime(own, bound)
  }

  lemma OwnFirst(evs: seq<Event>, thread: nat)
    requires evs != [] && evs[0].Done?
    ensures evs[0].thread != thread ==> Own(evs, thread) == Own(evs[1..], thread)
    ensures evs[0].thread == thread ==>
              Own(evs, thread) == [evs[0]] + Own(evs[1..], thread) && Own(evs, thread)[1..] == Own(evs[1..], thread)
  {
  }

  /** Between two ticks each thread's cell of the current slot grows by what this thread finished, and no
      other slot changes. */
  lemma {:induction false} CellsGrow(cfg: Config, c: Control, evs: seq<Event>, threads: nat, thread: nat)
    requires Threads(c, threads) && cfg.delayBound > 0.0 && Allowed(evs, threads) && NoTick(evs) && thread < threads
    ensures var c' := RunOf(cfg, c, evs, threads);
            && c' == c.(stats := c.stats[c.slot := c'.stats[c.slot]])
            && Grown(c.stats[c.slot][thread], c'.stats[c.slot][thread], Own(evs, thread), cfg.delayBound)
    decreases |evs|
  {
    if evs == [] {
      assert c.stats[c.slot := c.stats[c.slot]] == c.stats;
    } else {
      CellsGrow(cfg, Next(cfg, c, evs[0]), evs[1..], threads, thread);
      OwnFirst(evs, thread);
    }
  }

  // ---------------------------------------------------------------- one tick

  lemma {:induction false} RunOfAppend(cfg: Config, c: Control, evs: seq<Event>, more: seq<Event>, threads: nat)
    requires Threads(c, threads) && cfg.delayBound > 0.0 && Allowed(evs, threads) && Allowed(more, threads)
    ensures Allowed(evs + more, threads)
    ensures RunOf(cfg, c, evs + more, threads) == RunOf(cfg, RunOf(cfg, c, evs, threads), more, threads)
    decreases |evs|
  {
    if evs == [] {
      assert evs + more == more;
    } else {
      assert (evs + more)[1..] == evs[1..] + more;
      RunOfAppend(cfg, Next(cfg, c, evs[0]), evs[1..], more, threads);
    }
  }

  lemma {:induction false} NothingReported(cfg: Config, c: Control, evs: seq<Event>, threads: nat)
    requires Threads(c, threads) && cfg.delayBound > 0.0 && Allowed(evs, threads) && NoTick(evs)
    ensures Reported(cfg, c, evs, threads) == NoStats
    decreases |evs|
  {
    if evs != [] {
      NothingReported(cfg, Next(cfg, c, evs[0]), evs[1..], threads);
    }
  }

  /** A run up to and including its last tick leaves the current slot empty. */
  lemma {:induction false} EmptyAfterTick(cfg: Config, c: Control, evs: seq<Event>, threads: nat)
    requires Threads(c, threads) && cfg.delayBound > 0.0 && Allowed(evs, threads)
    requires evs != [] && evs[|evs| - 1].Sample?
    ensures var c' := RunOf(cfg, c, evs, threads); Totals(c'.stats[c'.slot]) == NoStats
    decreases |evs|
  {
    if |evs| > 1 {
      EmptyAfterTick(cfg, Next(cfg, c, evs[0]), evs[1..], threads);
    } else {
      TickTotals(cfg, c, evs[0].queued, threads);
      assert RunOf(cfg, c, evs, threads) == Next(cfg, c, evs[0]);
    }
  }

  /** The quotients of a tick, without a quotient. */
  lemma AverageTimesCount(t: Stats)
    ensures t.txns > 0 ==> AverageDelay(t) * t.txns as real == t.ms
    ensures t.txns == 0 ==> AverageDelay(t) == 0.0
  {
  }

  lemma PositiveFactor(x: real, y: real)
    requires x > 0.0 && x * y > 0.0
    ensures y > 0.0
  {
  }

  lemma DegreeTimesBound(average: real, bound: real)
    requires bound > 0.0
    ensures bound * (1.0 + Degree(average, bound)) == if average > bound then average else bound
    ensures Degree(average, bound) > 0.0 <==> average > bound
  {
    if average > bound {
      var d := (average - bound) / bound;
      assert bound * d == average - bound;
      PositiveFactor(bound, d);
    }
  }

  lemma Compare(n: nat, average: real, bound: real)
    requires n > 0
    ensures average > bound <==> average * n as real > bound * n as real
  {
  }

  lemma Multiplied(n: real, bound: real, x: real, y: real)
    requires bound * x == y
    ensures bound * n * x == y * n
  {
  }

  /** An average and a degree that n successes account for which took `ms` milliseconds in all. */
  ghost predicate Measured(average: real, degree: real, n: nat, ms: real, bound: real) {
    && (n == 0 ==> average == 0.0 && degree == 0.0)
    && (n > 0 ==> average * n as real == ms)
    && (n > 0 ==> bound * n as real * (1.0 + degree) == if ms > bound * n as real then ms else bound * n as real)
    && (degree > 0.0 <==> n > 0 && ms > bound * n as real)
  }

  ghost predicate Measures(c: Control, n: nat, ms: real, bound: real) {
    Measured(c.average, c.degree, n, ms, bound)
  }

  /** What it makes of the smoothed degree and the queued transactions. */
  ghost predicate Throttles(c: Control, mode: Mode, queued: nat) {
    && c.enqueued == queued
    && (if (mode == Full || mode == AC) && c.smooth > 0.0
        then 100.0 * c.toWait as real <= queued as real * c.smooth < 100.0 * (c.toWait + 1) as real
        else c.toWait == 0)
  }

  lemma DegreeOfCounts(n: nat, ms: real, average: real, bound: real)
    requires n > 0 && bound > 0.0 && average * n as real == ms
    ensures Measured(average, Degree(average, bound), n, ms, bound)
  {
    var most := if average > bound then average else bound;
    DegreeTimesBound(average, bound);
    Compare(n, average, bound);
    Multiplied(n as real, bound, 1.0 + Degree(average, bound), most);
  }

  lemma TickMeasures(cfg: Config, c: Control, queued: nat)
    requires Shape(c) && cfg.delayBound > 0.0
    ensures var t := Totals(c.stats[c.slot]); Measures(Tick(cfg, c, queued), t.txns, t.ms, cfg.delayBound)
  {
    var t := Totals(c.stats[c.slot]);
    AverageTimesCount(t);
    if t.txns > 0 {
      DegreeOfCounts(t.txns, t.ms, AverageDelay(t), cfg.delayBound);
    }
  }

  /** Every tick, on every run: if n transactions succeeded since the tick before it, in ms milliseconds all
      told, then the average and the degree it computes satisfy average * n == ms and
      bound * n * (1 + degree) == max(ms, bound * n), and are zero for n == 0. So a violation is found if
      and only if the successful transactions took longer than the bound on average, whatever their number
      was, and however many failed. Handlers are then made to wait for a hundredth of the smoothed degree
      times the queued transactions, rounded down, in the throttling modes. */
  lemma TickReports(cfg: Config, c: Control, before: seq<Event>, period: seq<Event>, queued: nat, threads: nat)
    requires Threads(c, threads) && cfg.delayBound > 0.0 && Allowed(before, threads) && Allowed(period, threads)
    requires if before == [] then Totals(c.stats[c.slot]) == NoStats else before[|before| - 1].Sample?
    requires NoTick(period)
    ensures Allowed(before + period + [Sample(queued)], threads)
    ensures var c' := RunOf(cfg, c, before + period + [Sample(queued)], threads);
            && Measures(c', Oks(period), OkMs(period) as real, cfg.delayBound)
            && Throttles(c', cfg.mode, queued)
  {
    var c1 := RunOf(cfg, c, before, threads);
    if before != [] {
      EmptyAfterTick(cfg, c, before, threads);
    }
    PeriodReports(cfg, c1, period, queued, threads);
    RunSplit(cfg, c, before, period, queued, threads);
  }

  lemma RunSplit(cfg: Config, c: Control, before: seq<Event>, period: seq<Event>, queued: nat, threads: nat)
    requires Threads(c, threads) && cfg.delayBound > 0.0 && Allowed(before, threads) && Allowed(period, threads)
    ensures Allowed(before + period + [Sample(queued)], threads)
    ensures RunOf(cfg, c, before + period + [Sample(queued)], threads)
         == Tick(cfg, RunOf(cfg, RunOf(cfg, c, before, threads), period, threads), queued)
  {
    RunOfAppend(cfg, c, before, period, threads);
    RunOfAppend(cfg, c, before + period, [Sample(queued)], threads);
    var c2 := RunOf(cfg, c, before + period, threads);
    assert [Sample(queued)][1..] == [];
    assert RunOf(cfg, c2, [Sample(queued)], threads) == RunOf(cfg, Tick(cfg, c2, queued), [], threads);
  }

  lemma PeriodReports(cfg: Config, c: Control, period: seq<Event>, queued: nat, threads: nat)
    requires Threads(c, threads) && cfg.delayBound > 0.0 && Allowed(period, threads) && NoTick(period)
    requires Totals(c.stats[c.slot]) == NoStats
    ensures var c' := Tick(cfg, RunOf(cfg, c, period, threads), queued);
            Measures(c', Oks(period), OkMs(period) as real, cfg.delayBound) && Throttles(c', cfg.mode, queued)
  {
    CountsConserved(cfg, c, period, threads);
    NothingReported(cfg, c, period, threads);
    TickMeasures(cfg, RunOf(cfg, c, period, threads), queued);
    TickThrottles(cfg, RunOf(cfg, c, period, threads), queued);
  }

  lemma TickThrottles(cfg: Config, c: Control, queued: nat)
    requires Shape(c) && cfg.delayBound > 0.0
    ensures Throttles(Tick(cfg, c, queued), cfg.mode, queued)
  {
  }

  // ---------------------------------------------------------------- one item at a tick

  /** The updates an item is taken to have had. */
  function Updates(it: Item, slot: nat): real
    requires ItemShape(it) && slot < SLOTS
  {
    if it.frequency[slot] == 0.0 then 0.1 else it.frequency[slot]
  }

  /** The period an item gets, told from its accesses and updates: longer by a tenth with fewer accesses,
      shorter by a tenth with more, if that stays in range; and else what the slot held before. */
  ghost predicate Adapted(cfg: Config, it: Item, prev: nat, next: nat, period: real)
    requires ItemShape(it) && prev < SLOTS && next < SLOTS
  {
    var p, accesses, updates := it.period[prev], it.ratio[prev], Updates(it, prev);
    if accesses < updates && 11.0 * p <= 10.0 * cfg.maxPeriod then 10.0 * period == 11.0 * p
    else if accesses > updates && 9.0 * p >= 10.0 * cfg.minPeriod then 10.0 * period == 9.0 * p
    else period == it.period[next]
  }

  lemma QuotientAgainstOne(x: real, y: real)
    requires y > 0.0
    ensures (x / y) * y == x
    ensures x / y < 1.0 <==> x < y
    ensures x / y > 1.0 <==> x > y
  {
    var q := x / y;
    assert q * y == x;
    TimesAgainst(q, y);
  }

  lemma TimesAgainst(q: real, y: real)
    requires y > 0.0
    ensures q < 1.0 <==> q * y < y
    ensures q > 1.0 <==> q * y > y
  {
  }

  /** A tick turns the accesses of the slot it leaves into accesses per update, and sets one slot of the
      periods; all other slots keep what they hold. */
  lemma TickAdapts(cfg: Config, it: Item, prev: nat, next: nat)
    requires ItemShape(it) && prev < SLOTS && next < SLOTS && it.frequency[prev] >= 0.0
    ensures var r, updates := TickItem(cfg, it, prev, next), Updates(it, prev);
            && r.frequency == it.frequency[prev := updates]
            && r.ratio == it.ratio[prev := r.ratio[prev]] && r.ratio[prev] * updates == it.ratio[prev]
            && r.period == it.period[next := r.period[next]]
            && (Adaptive(cfg.mode) ==> Adapted(cfg, it, prev, next, r.period[next]))
            && (!Adaptive(cfg.mode) ==> r.period[next] == cfg.minPeriod)
  {
    QuotientAgainstOne(it.ratio[prev], Updates(it, prev));
  }

  /** The smallest period, a times longer and b times shorter by a tenth. */
  function Changed(cfg: Config, a: nat, b: nat): real {
    cfg.minPeriod * Pow(1.1, a) * Pow(0.9, b)
  }

  ghost predicate OnLattice(cfg: Config, p: real, n: nat) {
    p == 0.0 || exists a: nat, b: nat :: a + b <= n && p == Changed(cfg, a, b)
  }

  lemma LatticeMore(cfg: Config, p: real, n: nat)
    requires OnLattice(cfg, p, n)
    ensures OnLattice(cfg, p * 1.1, n + 1) && OnLattice(cfg, p * 0.9, n + 1) && OnLattice(cfg, p, n + 1)
  {
    if p != 0.0 {
      var a: nat, b: nat :| a + b <= n && p == Changed(cfg, a, b);
      assert Changed(cfg, a + 1, b) == p * 1.1;
      assert Changed(cfg, a, b + 1) == p * 0.9;
    }
  }

  /** Whatever accesses and updates are counted, after t ticks every slot that is not empty holds the
      smallest period changed at most t times by a tenth. */
  lemma {:induction false} PeriodLattice(cfg: Config, ws: seq<Write>, j: nat)
    requires j < SLOTS
    ensures OnLattice(cfg, ItemAfter(cfg, Fresh(cfg), ws).period[j], |ws|)
  {
    if ws == [] {
      assert Changed(cfg, 0, 0) == cfg.minPeriod;
    } else {
      var t := |ws| - 1;
      PeriodLattice(cfg, ws[..t], j);
      PeriodLattice(cfg, ws[..t], SlotOf(t));
      TickLattice(cfg, Written(ItemAfter(cfg, Fresh(cfg), ws[..t]), SlotOf(t), ws[t]), SlotOf(t), SlotOf(t + 1), j, t);
    }
  }

  lemma TickLattice(cfg: Config, it: Item, prev: nat, next: nat, j: nat, n: nat)
    requires ItemShape(it) && prev < SLOTS && next < SLOTS && j < SLOTS
    requires OnLattice(cfg, it.period[j], n) && OnLattice(cfg, it.period[prev], n)
    ensures OnLattice(cfg, TickItem(cfg, it, prev, next).period[j], n + 1)
  {
    LatticeMore(cfg, it.period[j], n);
    LatticeMore(cfg, it.period[prev], n);
    assert Changed(cfg, 0, 0) == cfg.minPeriod;
    var p, p' := it.period[prev], TickItem(cfg, it, prev, next).period[j];
    assert p' == it.period[j] || p' == p * 1.1 || p' == p * 0.9 || p' == cfg.minPeriod;
  }

  // ---------------------------------------------------------------- the periods on a run

  /** Every item's periods are those the ticks so far give a fresh item. */
  ghost predicate OnSchedule(cfg: Config, c: Control, t: nat, value: nat -> real) {
    && Shape(c) && c.slot == SlotOf(t)
    && forall i :: 0 <= i < |c.items| ==> ItemOnSchedule(cfg, c.items[i], t, value)
  }

  ghost predicate ItemOnSchedule(cfg: Config, it: Item, t: nat, value: nat -> real)
    requires ItemShape(it)
  {
    if Adaptive(cfg.mode) then Remembers(it, t, value) else it.period[SlotOf(t)] == cfg.minPeriod
  }

  /** The values follow each other as PeriodStep needs it. */
  ghost predicate Schedule(cfg: Config, value: nat -> real) {
    forall t :: ScheduleAt(cfg, value, t)
  }

  ghost predicate ScheduleAt(cfg: Config, value: nat -> real, t: nat) {
    && (value(t) * 1.1 <= cfg.maxPeriod ==> value(t + 1) == value(t) * 1.1)
    && (value(t) * 1.1 > cfg.maxPeriod ==> t >= 4 && value(t + 1) == value(t - 4))
  }

  lemma ItemTick(cfg: Config, it: Item, t: nat, value: nat -> real)
    requires Sane(cfg) && ItemShape(it) && ItemOnSchedule(cfg, it, t, value) && ScheduleAt(cfg, value, t)
    ensures ItemOnSchedule(cfg, TickItem(cfg, it, SlotOf(t), SlotOf(t + 1)), t + 1, value)
  {
    if Adaptive(cfg.mode) {
      var w := Counted(it.frequency[SlotOf(t)]);
      assert it.frequency[SlotOf(t) := it.frequency[SlotOf(t)]] == it.frequency;
      PeriodStep(cfg, it, t, w, value);
    }
  }

  lemma ItemsTick(cfg: Config, c: Control, queued: nat)
    requires Shape(c) && cfg.delayBound > 0.0
    ensures var c' := Tick(cfg, c, queued);
            && c'.slot == NextSlot(c.slot) && |c'.items| == |c.items|
            && forall i :: 0 <= i < |c.items| ==> c'.items[i] == TickItem(cfg, c.items[i], c.slot, c'.slot)
  {
  }

  lemma TickOnSchedule(cfg: Config, c: Control, queued: nat, t: nat, value: nat -> real)
    requires Sane(cfg) && OnSchedule(cfg, c, t, value) && ScheduleAt(cfg, value, t)
    ensures var c' := Tick(cfg, c, queued); OnSchedule(cfg, c', t + 1, value) && |c'.items| == |c.items|
  {
    var c' := Tick(cfg, c, queued);
    ItemsTick(cfg, c, queued);
    assert c'.slot == SlotOf(t + 1);
    forall i | 0 <= i < |c'.items| ensures ItemOnSchedule(cfg, c'.items[i], t + 1, value) {
      ItemTick(cfg, c.items[i], t, value);
    }
  }

  lemma {:induction false} RunOnSchedule(cfg: Config, c: Control, evs: seq<Event>, threads: nat, t: nat,
                                         value: nat -> real)
    requires Sane(cfg) && OnSchedule(cfg, c, t, value) && Schedule(cfg, value)
    requires Threads(c, threads) && Allowed(evs, threads)
    ensures var c' := RunOf(cfg, c, evs, threads);
            OnSchedule(cfg, c', t + Ticks(evs), value) && |c'.items| == |c.items|
    decreases |evs|
  {
    if evs != [] {
      match evs[0]
      case Done(_, _, _) => RunOnSchedule(cfg, Next(cfg, c, evs[0]), evs[1..], threads, t, value);
      case Sample(queued) =>
        assert ScheduleAt(cfg, value, t);
        TickOnSchedule(cfg, c, queued, t, value);
        RunOnSchedule(cfg, Next(cfg, c, evs[0]), evs[1..], threads, t + 1, value);
    }
  }

  /** From the state main sets up, after any run with any number of items: the slot in use is the number of
      ticks modulo five, and the period of every item in that slot is the closed form for that number of
      ticks if periods adapt, and else the smallest period. */
  lemma RunPeriods(cfg: Config, c: Control, evs: seq<Event>, threads: nat)
    requires Sane(cfg) && Threads(c, threads) && Allowed(evs, threads)
    requires c.slot == 0 && forall i :: 0 <= i < |c.items| ==> c.items[i] == Fresh(cfg)
    ensures var c' := RunOf(cfg, c, evs, threads);
            && c'.slot == Ticks(evs) % 5 && |c'.items| == |c.items|
            && forall i :: 0 <= i < |c'.items| ==>
                 c'.items[i].period[c'.slot] == if Adaptive(cfg.mode) then Value(cfg, Ticks(evs)) else cfg.minPeriod
  {
    var value, t := (u: nat) => Value(cfg, u), Ticks(evs);
    forall u: nat ensures ScheduleAt(cfg, value, u) {
      ValueStep(cfg, u);
    }
    ValueStep(cfg, 0);
    RunOnSchedule(cfg, c, evs, threads, 0, value);
    var c' := RunOf(cfg, c, evs, threads);
    forall i | 0 <= i < |c'.items| && Adaptive(cfg.mode) ensures c'.items[i].period[c'.slot] == Value(cfg, t) {
      assert ItemOnSchedule(cfg, c'.items[i], t, value);
      RememberedNow(c'.items[i], t, value);
    }
  }
}
