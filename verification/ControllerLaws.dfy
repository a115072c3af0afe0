/** What the sampling timer guarantees over any number of ticks. */
module ControllerLaws {
  import opened Controller
  import Ring

  function Pow(x: real, n: nat): real {
    if n == 0 then 1.0 else x * Pow(x, n - 1)
  }

  // ---------------------------------------------------------------- adaptive update periods

  /** What other threads left in the current slot of an item when a tick starts: the update count, and,
      if anything wrote it, the access ratio. */
  datatype Write = Counted(frequency: real) | Forced(frequency: real, ratio: real)

  function Written(it: Item, slot: nat, w: Write): (r: Item)
    requires ItemShape(it) && slot < SLOTS
    ensures ItemShape(r)
  {
    var it1 := it.(frequency := it.frequency[slot := w.frequency]);
    if w.Forced? then it1.(ratio := it1.ratio[slot := w.ratio]) else it1
  }

  /** An item after one tick for each write, from slot 0. */
  function ItemAfter(cfg: Config, it: Item, ws: seq<Write>): (r: Item)
    requires ItemShape(it)
    ensures ItemShape(r)
  {
    if ws == [] then it
    else
      var t := |ws| - 1;
      TickItem(cfg, Written(ItemAfter(cfg, it, ws[..t]), SlotOf(t), ws[t]), SlotOf(t), SlotOf(t + 1))
  }

  /** The period in force after the ticks. */
  function Current(cfg: Config, it: Item, ws: seq<Write>): real
    requires ItemShape(it)
  {
    ItemAfter(cfg, it, ws).period[SlotOf(|ws|)]
  }

  /** The exponent of the period after tick t. */
  function Exponent(t: nat): (e: nat)
    ensures e < 8
  {
    if t < 8 then t else 3 + (t - 3) % 5
  }

  /** The period after tick t, as a multiple of the smallest one. */
  function Value(cfg: Config, t: nat): real {
    cfg.minPeriod * Pow(1.1, Exponent(t))
  }

  lemma Powers()
    ensures Pow(1.1, 0) == 1.0 && Pow(1.1, 1) == 1.1 && Pow(1.1, 2) == 1.21 && Pow(1.1, 3) == 1.331
    ensures Pow(1.1, 4) == 1.4641 && Pow(1.1, 5) == 1.61051 && Pow(1.1, 6) == 1.771561
    ensures Pow(1.1, 7) == 1.9487171
  {
  }

  /** One tick on: the value grows by a tenth while that fits below twice the smallest, and else falls
      back to what it was four ticks ago. */
  lemma ValueStep(cfg: Config, t: nat)
    requires Sane(cfg)
    ensures InRange(cfg, Value(cfg, t)) && Value(cfg, 0) == cfg.minPeriod
    ensures Value(cfg, t) * 1.1 <= cfg.maxPeriod ==> Value(cfg, t + 1) == Value(cfg, t) * 1.1
    ensures Value(cfg, t) * 1.1 > cfg.maxPeriod ==> t >= 4 && Value(cfg, t + 1) == Value(cfg, t - 4)
  {
    Powers();
    var e := Exponent(t);
    if e < 7 {
      assert Exponent(t + 1) == e + 1;
    } else {
      assert t >= 7 && Exponent(t + 1) == Exponent(t - 4) == 3;
    }
  }

  /** An item as main sets it up. */
  function Fresh(cfg: Config): Item {
    Item([0.0, 0.0, 0.0, 0.0, 0.0], [0.0, 0.0, 0.0, 0.0, 0.0], [cfg.minPeriod, 0.0, 0.0, 0.0, 0.0])
  }

  function SlotOf(t: nat): (slot: nat)
    ensures slot < SLOTS
  {
    t % SLOTS
  }

  /** The last five ticks are what the five slots remember. */
  ghost predicate Remembers(it: Item, t: nat, value: nat -> real)
    requires ItemShape(it)
  {
    && (forall j :: 0 <= j < SLOTS ==> it.ratio[j] == 0.0)
    && (forall u: nat :: u <= t < u + SLOTS ==> it.period[SlotOf(u)] == value(u))
  }

  lemma {:induction false} PeriodHistory(cfg: Config, ws: seq<Write>)
    requires Sane(cfg) && Adaptive(cfg.mode)
    requires forall i :: 0 <= i < |ws| ==> ws[i].Counted?
    ensures Remembers(ItemAfter(cfg, Fresh(cfg), ws), |ws|, (t: nat) => Value(cfg, t))
  {
    ValueStep(cfg, 0);
    if ws != [] {
      var t := |ws| - 1;
      PeriodHistory(cfg, ws[..t]);
      ValueStep(cfg, t);
      PeriodStep(cfg, ItemAfter(cfg, Fresh(cfg), ws[..t]), t, ws[t], (t: nat) => Value(cfg, t));
    }
  }

  lemma PeriodStep(cfg: Config, it: Item, t: nat, w: Write, value: nat -> real)
    requires Sane(cfg) && Adaptive(cfg.mode) && w.Counted? && ItemShape(it) && Remembers(it, t, value)
    requires value(t) * 1.1 <= cfg.maxPeriod ==> value(t + 1) == value(t) * 1.1
    requires value(t) * 1.1 > cfg.maxPeriod ==> t >= 4 && value(t + 1) == value(t - 4)
    ensures Remembers(TickItem(cfg, Written(it, SlotOf(t), w), SlotOf(t), SlotOf(t + 1)), t + 1, value)
  {
  }

  lemma RememberedNow(it: Item, t: nat, value: nat -> real)
    requires ItemShape(it) && Remembers(it, t, value)
    ensures it.period[SlotOf(t)] == value(t)
  {
  }

  /** No code but the tick itself writes an access ratio, so on the server's runs, whatever the update
      counts, the period after tick t is the smallest one times 1.1 to the power Exponent(t): it climbs
      seven times and then goes round the last five values for good, inside its range. */
  lemma PeriodClosedForm(cfg: Config, ws: seq<Write>)
    requires Sane(cfg) && Adaptive(cfg.mode)
    requires forall i :: 0 <= i < |ws| ==> ws[i].Counted?
    ensures Current(cfg, Fresh(cfg), ws) == Value(cfg, |ws|)
    ensures InRange(cfg, Current(cfg, Fresh(cfg), ws))
  {
    PeriodHistory(cfg, ws);
    RememberedNow(ItemAfter(cfg, Fresh(cfg), ws), |ws|, (t: nat) => Value(cfg, t));
    ValueStep(cfg, |ws|);
  }

  /** In the modes that do not adapt, the period is the smallest one after every tick. */
  lemma {:induction false} PeriodFixed(cfg: Config, ws: seq<Write>)
    requires !Adaptive(cfg.mode)
    ensures Current(cfg, Fresh(cfg), ws) == cfg.minPeriod
  {
  }

  ghost predicate InRange(cfg: Config, p: real) {
    cfg.minPeriod <= p <= cfg.maxPeriod
  }

  /** A tick writes no period that is out of range, unless it copies a zero. */
  lemma TickRange(cfg: Config, it: Item, prev: nat, next: nat)
    requires Sane(cfg) && ItemShape(it) && prev < SLOTS && next < SLOTS
    requires it.period[prev] == 0.0 || InRange(cfg, it.period[prev])
    ensures var r := TickItem(cfg, it, prev, next);
            forall j :: 0 <= j < SLOTS ==>
              || r.period[j] == it.period[j]
              || InRange(cfg, r.period[j])
              || (r.period[j] == 0.0 && it.period[prev] == 0.0)
  {
  }

  ghost predicate EmptyOrInRange(cfg: Config, it: Item) {
    forall j :: 0 <= j < |it.period| ==> it.period[j] == 0.0 || InRange(cfg, it.period[j])
  }

  ghost predicate AllInRange(cfg: Config, it: Item) {
    forall j :: 0 <= j < |it.period| ==> InRange(cfg, it.period[j])
  }

  /** Whatever access ratios and counts are written, and although slots that are not updated keep old
      values, no slot ever leaves the range once it is in it, and a slot that is still empty is zero. */
  lemma {:induction false} PeriodRange(cfg: Config, it: Item, ws: seq<Write>)
    requires Sane(cfg) && ItemShape(it) && EmptyOrInRange(cfg, it)
    ensures EmptyOrInRange(cfg, ItemAfter(cfg, it, ws))
    ensures AllInRange(cfg, it) ==> AllInRange(cfg, ItemAfter(cfg, it, ws))
  {
    if ws != [] {
      var t := |ws| - 1;
      PeriodRange(cfg, it, ws[..t]);
      TickRange(cfg, Written(ItemAfter(cfg, it, ws[..t]), SlotOf(t), ws[t]), SlotOf(t), SlotOf(t + 1));
    }
  }

  /** The zero is real: if an item were found hot at the first tick, or exactly as often accessed as
      updated, the empty slot 1 would become current, and the item would be due all the time. An item
      without updates counts as a tenth of one. */
  lemma HotFirstTickEmptiesPeriod(cfg: Config, frequency: real, ratio: real)
    requires Sane(cfg) && Adaptive(cfg.mode) && frequency >= 0.0
    ensures Current(cfg, Fresh(cfg), [Forced(frequency, ratio)]) == 0.0
            <==> ratio >= if frequency == 0.0 then 0.1 else frequency
  {
    var ws := [Forced(frequency, ratio)];
    assert ws[..0] == [];
    assert ItemAfter(cfg, Fresh(cfg), ws[..0]) == Fresh(cfg);
    QuotientAtLeastOne(ratio, if frequency == 0.0 then 0.1 else frequency);
  }

  lemma QuotientAtLeastOne(x: real, y: real)
    requires y > 0.0
    ensures x / y >= 1.0 <==> x >= y
  {
    var q := x / y;
    assert q * y == x;
    if q >= 1.0 {
      assert q * y >= y;
    } else {
      assert q * y < y;
    }
  }

  // ---------------------------------------------------------------- runs of the sampling timer

  /** A recording by a processing thread, or a tick that finds some number of queued transactions. */
  datatype Event = Done(thread: nat, ok: bool, ms: int) | Sample(queued: nat)

  /** All rows of the statistics have a cell for each thread. */
  ghost predicate Threads(c: Control, threads: nat) {
    Shape(c) && forall i :: 0 <= i < SLOTS ==> |c.stats[i]| == threads
  }

  ghost predicate Allowed(evs: seq<Event>, threads: nat) {
    forall i :: 0 <= i < |evs| && evs[i].Done? ==> evs[i].thread < threads
  }

  function Next(cfg: Config, c: Control, e: Event): Control
    requires Shape(c) && cfg.delayBound > 0.0 && (e.Done? ==> e.thread < |c.stats[c.slot]|)
  {
    match e
    case Done(thread, ok, ms) => Record(cfg, c, thread, ok, ms)
    case Sample(queued) => Tick(cfg, c, queued)
  }

  ghost function RunOf(cfg: Config, c: Control, evs: seq<Event>, threads: nat): (c': Control)
    requires Threads(c, threads) && cfg.delayBound > 0.0 && Allowed(evs, threads)
    ensures Threads(c', threads)
    decreases |evs|
  {
    if evs == [] then c else RunOf(cfg, Next(cfg, c, evs[0]), evs[1..], threads)
  }

  // ---------------------------------------------------------------- conservation of the statistics

  /** What one transaction adds. */
  function Contribution(cfg: Config, ok: bool, ms: int): Stats {
    Recorded(cfg, NoStats, ok, ms)
  }

  /** Everything the threads recorded. */
  function AllRecorded(cfg: Config, evs: seq<Event>): Stats {
    if evs == [] then NoStats
    else if evs[0].Done? then Plus(Contribution(cfg, evs[0].ok, evs[0].ms), AllRecorded(cfg, evs[1..]))
    else AllRecorded(cfg, evs[1..])
  }

  /** Everything the ticks reported: at each, the totals of the slot it leaves. */
  ghost function Reported(cfg: Config, c: Control, evs: seq<Event>, threads: nat): Stats
    requires Threads(c, threads) && cfg.delayBound > 0.0 && Allowed(evs, threads)
    decreases |evs|
  {
    if evs == [] then NoStats
    else
      var later := Reported(cfg, Next(cfg, c, evs[0]), evs[1..], threads);
      if evs[0].Sample? then Plus(Totals(c.stats[c.slot]), later) else later
  }

  lemma {:induction false} TotalsOfEmpty(row: seq<Stats>)
    requires forall j :: 0 <= j < |row| ==> row[j] == NoStats
    ensures Totals(row) == NoStats
  {
    if row != [] {
      TotalsOfEmpty(row[..|row| - 1]);
    }
  }

  lemma {:induction false} TotalsOfRecord(cfg: Config, row: seq<Stats>, thread: nat, ok: bool, ms: int)
    requires thread < |row|
    ensures Totals(row[thread := Recorded(cfg, row[thread], ok, ms)]) == Plus(Totals(row), Contribution(cfg, ok, ms))
  {
    var last := |row| - 1;
    var row' := row[thread := Recorded(cfg, row[thread], ok, ms)];
    if thread == last {
      assert row'[..last] == row[..last];
    } else {
      assert row'[..last] == row[..last][thread := Recorded(cfg, row[thread], ok, ms)];
      TotalsOfRecord(cfg, row[..last], thread, ok, ms);
    }
  }

  lemma TickTotals(cfg: Config, c: Control, queued: nat, threads: nat)
    requires Threads(c, threads) && cfg.delayBound > 0.0
    ensures var c1 := Tick(cfg, c, queued); Threads(c1, threads) && Totals(c1.stats[c1.slot]) == NoStats
  {
    TotalsOfEmpty(Cleared(threads));
  }

  /** What one event does to the totals of the current slot. */
  lemma NextTotals(cfg: Config, c: Control, e: Event, threads: nat)
    requires Threads(c, threads) && cfg.delayBound > 0.0 && (e.Done? ==> e.thread < threads)
    ensures var c1 := Next(cfg, c, e);
            && Threads(c1, threads)
            && (e.Done? ==> Totals(c1.stats[c1.slot]) == Plus(Totals(c.stats[c.slot]), Contribution(cfg, e.ok, e.ms)))
            && (e.Sample? ==> Totals(c1.stats[c1.slot]) == NoStats)
  {
    match e
    case Done(thread, ok, ms) => TotalsOfRecord(cfg, c.stats[c.slot], thread, ok, ms);
    case Sample(queued) => TickTotals(cfg, c, queued, threads);
  }

  lemma PlusAssociative(a: Stats, b: Stats, c: Stats)
    ensures Plus(Plus(a, b), c) == Plus(a, Plus(b, c))
  {
  }

  /** What the first event of a run contributes to the three sums. */
  lemma FirstEvent(cfg: Config, c: Control, evs: seq<Event>, threads: nat)
    requires Threads(c, threads) && cfg.delayBound > 0.0 && Allowed(evs, threads) && evs != []
    ensures var e, c1, later := evs[0], Next(cfg, c, evs[0]), evs[1..];
            && RunOf(cfg, c, evs, threads) == RunOf(cfg, c1, later, threads)
            && Reported(cfg, c, evs, threads)
                 == (if e.Sample? then Plus(Totals(c.stats[c.slot]), Reported(cfg, c1, later, threads))
                     else Reported(cfg, c1, later, threads))
            && AllRecorded(cfg, evs)
                 == (if e.Done? then Plus(Contribution(cfg, e.ok, e.ms), AllRecorded(cfg, later))
                     else AllRecorded(cfg, later))
  {
  }

  /** Over every run, what the ticks reported plus what the current slot still holds is what the slot
      held at the start plus everything recorded since: with five slots used in turn, no transaction
      is reported twice or dropped. */
  lemma {:induction false} StatisticsConserved(cfg: Config, c: Control, evs: seq<Event>, threads: nat)
    requires Threads(c, threads) && cfg.delayBound > 0.0 && Allowed(evs, threads)
    ensures var c' := RunOf(cfg, c, evs, threads);
            Plus(Reported(cfg, c, evs, threads), Totals(c'.stats[c'.slot]))
              == Plus(Totals(c.stats[c.slot]), AllRecorded(cfg, evs))
    decreases |evs|
  {
    if evs != [] {
      var c1, later, held := Next(cfg, c, evs[0]), evs[1..], Totals(c.stats[c.slot]);
      var c' := RunOf(cfg, c1, later, threads);
      FirstEvent(cfg, c, evs, threads);
      NextTotals(cfg, c, evs[0], threads);
      StatisticsConserved(cfg, c1, later, threads);
      match evs[0]
      case Done(_, ok, ms) => PlusAssociative(held, Contribution(cfg, ok, ms), AllRecorded(cfg, later));
      case Sample(_) => PlusAssociative(held, Reported(cfg, c1, later, threads), Totals(c'.stats[c'.slot]));
    }
  }

  ghost predicate TimelyOk(c: Control) {
    forall i, j :: 0 <= i < |c.stats| && 0 <= j < |c.stats[i]| ==> c.stats[i][j].timely <= c.stats[i][j].txns
  }

  /** In every cell, at all times, no more transactions are timely than succeeded. */
  lemma {:induction false} TimelyBelowSuccessful(cfg: Config, c: Control, evs: seq<Event>, threads: nat)
    requires Threads(c, threads) && cfg.delayBound > 0.0 && Allowed(evs, threads) && TimelyOk(c)
    ensures TimelyOk(RunOf(cfg, c, evs, threads))
    decreases |evs|
  {
    if evs != [] {
      TimelyBelowSuccessful(cfg, Next(cfg, c, evs[0]), evs[1..], threads);
    }
  }

  /** A recording by a thread that read the slot number earlier. */
  function LateRecord(cfg: Config, c: Control, slot: nat, thread: nat, ok: bool, ms: int): Control
    requires Shape(c) && slot < SLOTS && thread < |c.stats[slot]|
  {
    c.(stats := c.stats[slot := c.stats[slot][thread := Recorded(cfg, c.stats[slot][thread], ok, ms)]])
  }

  /** The states differ in one row at most, and that is not the current one. */
  ghost predicate SameBut(c: Control, d: Control, slot: nat) {
    && c.slot == d.slot && c.slot != slot && |c.stats| == |d.stats|
    && forall i :: 0 <= i < |c.stats| && i != slot ==> c.stats[i] == d.stats[i]
  }

  lemma {:induction false} OtherRowsUnseen(cfg: Config, c: Control, d: Control, slot: nat, evs: seq<Event>,
                                           threads: nat)
    requires Threads(c, threads) && Threads(d, threads) && cfg.delayBound > 0.0 && Allowed(evs, threads)
    requires SameBut(c, d, slot) || (c.slot == d.slot && c.stats == d.stats)
    ensures Reported(cfg, c, evs, threads) == Reported(cfg, d, evs, threads)
    decreases |evs|
  {
    if evs != [] {
      var c1, d1 := Next(cfg, c, evs[0]), Next(cfg, d, evs[0]);
      if evs[0].Sample? && NextSlot(c.slot) == slot {
        assert c1.stats == d1.stats;
      }
      OtherRowsUnseen(cfg, c1, d1, slot, evs[1..], threads);
    }
  }

  lemma OneTick(cfg: Config, c: Control, threads: nat)
    requires Threads(c, threads) && cfg.delayBound > 0.0
    ensures Allowed([Sample(0)], threads) && Reported(cfg, c, [Sample(0)], threads) == Totals(c.stats[c.slot])
  {
    var evs := [Sample(0)];
    assert evs[1..] == [] && Reported(cfg, Next(cfg, c, evs[0]), evs[1..], threads) == NoStats;
  }

  lemma CurrentRecordSeen(cfg: Config, c: Control, thread: nat, ok: bool, ms: int, threads: nat)
    requires Threads(c, threads) && cfg.delayBound > 0.0 && thread < threads
    ensures Allowed([Sample(0)], threads)
    ensures Reported(cfg, LateRecord(cfg, c, c.slot, thread, ok, ms), [Sample(0)], threads)
         != Reported(cfg, c, [Sample(0)], threads)
  {
    OneTick(cfg, c, threads);
    OneTick(cfg, LateRecord(cfg, c, c.slot, thread, ok, ms), threads);
    TotalsOfRecord(cfg, c.stats[c.slot], thread, ok, ms);
    PlusMore(Totals(c.stats[c.slot]), Contribution(cfg, ok, ms));
  }

  lemma PlusMore(a: Stats, b: Stats)
    requires b.txns + b.failed > 0
    ensures Plus(a, b) != a
  {
  }

  /** Recording is not atomic in the server. A record that arrives after the slot it was meant for has
      been left is never reported, by any later tick, exactly when that slot is not current again. */
  lemma LateRecordLostIff(cfg: Config, c: Control, slot: nat, thread: nat, ok: bool, ms: int, threads: nat)
    requires Threads(c, threads) && cfg.delayBound > 0.0 && slot < SLOTS && thread < threads
    ensures slot != c.slot <==>
            forall evs :: Allowed(evs, threads) ==>
              Reported(cfg, LateRecord(cfg, c, slot, thread, ok, ms), evs, threads) == Reported(cfg, c, evs, threads)
  {
    var d := LateRecord(cfg, c, slot, thread, ok, ms);
    if slot != c.slot {
      forall evs | Allowed(evs, threads) ensures Reported(cfg, d, evs, threads) == Reported(cfg, c, evs, threads) {
        OtherRowsUnseen(cfg, d, c, slot, evs, threads);
      }
    } else {
      CurrentRecordSeen(cfg, c, thread, ok, ms, threads);
    }
  }

  // ---------------------------------------------------------------- the smoothed degree

  /** The degrees the ticks of a run computed. */
  ghost function Degrees(cfg: Config, c: Control, evs: seq<Event>, threads: nat): seq<real>
    requires Threads(c, threads) && cfg.delayBound > 0.0 && Allowed(evs, threads)
    decreases |evs|
  {
    if evs == [] then []
    else (if evs[0].Sample? then [Next(cfg, c, evs[0]).degree] else [])
         + Degrees(cfg, Next(cfg, c, evs[0]), evs[1..], threads)
  }

  /** What is left of a value after n ticks that each keep 3/5 of it. */
  function Faded(n: nat, x: real): real {
    if n == 0 then x else 0.6 * Faded(n - 1, x)
  }

  lemma {:induction false} FadedIsPower(n: nat, x: real)
    ensures Faded(n, x) == Pow(0.6, n) * x
  {
    if n > 0 {
      FadedIsPower(n - 1, x);
    }
  }

  /** The sum of the degrees, each weighted by 0.4 and faded by its age. */
  function Weighted(ds: seq<real>): real {
    if ds == [] then 0.0 else Faded(|ds| - 1, ALPHA * ds[0]) + Weighted(ds[1..])
  }

  lemma {:induction false} FadedSmoothed(n: nat, degree: real, smooth: real)
    ensures Faded(n, Smoothed(degree, smooth)) == Faded(n, ALPHA * degree) + Faded(n + 1, smooth)
  {
    if n > 0 {
      FadedSmoothed(n - 1, degree, smooth);
    }
  }

  /** After any run the smoothed degree is the weighted sum of all degrees so far, plus what is left of
      the value it started from. */
  lemma {:induction false} SmoothedIsWeighted(cfg: Config, c: Control, evs: seq<Event>, threads: nat)
    requires Threads(c, threads) && cfg.delayBound > 0.0 && Allowed(evs, threads)
    ensures var ds := Degrees(cfg, c, evs, threads);
            RunOf(cfg, c, evs, threads).smooth == Faded(|ds|, c.smooth) + Weighted(ds)
    decreases |evs|
  {
    if evs != [] {
      var c1 := Next(cfg, c, evs[0]);
      var ds, ds1 := Degrees(cfg, c, evs, threads), Degrees(cfg, c1, evs[1..], threads);
      SmoothedIsWeighted(cfg, c1, evs[1..], threads);
      if evs[0].Sample? {
        assert ds[1..] == ds1 && ds[0] == c1.degree;
        FadedSmoothed(|ds1|, c1.degree, c.smooth);
      } else {
        assert ds == ds1;
      }
    }
  }

  lemma DegreeNonNegative(average: real, bound: real)
    requires bound > 0.0
    ensures Degree(average, bound) >= 0.0
  {
  }

  /** The smoothed degree never exceeds the largest degree seen, and is never negative. */
  lemma {:induction false} SmoothedBetween(cfg: Config, c: Control, evs: seq<Event>, threads: nat, top: real)
    requires Threads(c, threads) && cfg.delayBound > 0.0 && Allowed(evs, threads)
    requires 0.0 <= c.smooth <= top
    requires forall d :: d in Degrees(cfg, c, evs, threads) ==> d <= top
    ensures 0.0 <= RunOf(cfg, c, evs, threads).smooth <= top
    decreases |evs|
  {
    if evs != [] {
      var c1 := Next(cfg, c, evs[0]);
      var ds, ds1 := Degrees(cfg, c, evs, threads), Degrees(cfg, c1, evs[1..], threads);
      if evs[0].Sample? {
        assert ds == [c1.degree] + ds1 && c1.degree in ds;
        DegreeNonNegative(c1.average, cfg.delayBound);
      }
      assert forall d :: d in ds1 ==> d in ds;
      SmoothedBetween(cfg, c1, evs[1..], threads, top);
    }
  }

  /** What the two ready queues hold together when they are full. */
  const CAPACITY: nat := 2 * Ring.SIZE

  /** A number of quiet ticks after which admission control lets go. */
  function ReleaseTicks(smooth: real): int {
    (30.72 * smooth).Floor + 1
  }

  lemma {:induction false} Bernoulli(m: nat, x: real)
    requires x >= 0.0
    ensures 0.0 <= Faded(m, x) <= x
    ensures Faded(m, x) * (3.0 + 2.0 * m as real) <= 3.0 * x
  {
    if m > 0 {
      Bernoulli(m - 1, x);
      var f, k := Faded(m - 1, x), (m - 1) as real;
      assert m as real == k + 1.0;
      assert (0.6 * f) * (3.0 + 2.0 * (k + 1.0)) == 0.6 * (f * (3.0 + 2.0 * k)) + 1.2 * f;
    }
  }

  lemma Cancel(f: real, x: real, k: real)
    requires f >= 0.0 && x >= 0.0 && f <= x && f * (3.0 + 2.0 * k) <= 3.0 * x && 30.72 * x < k
    ensures 20.48 * f < 1.0
  {
  }

  /** After that many ticks too little is left of the degree for a full queue to yield a transaction. */
  lemma FadedSmall(m: nat, smooth: real)
    requires smooth >= 0.0 && m >= ReleaseTicks(smooth)
    ensures 0.0 <= Faded(m, smooth) && 20.48 * Faded(m, smooth) < 1.0
  {
    Bernoulli(m, smooth);
    Cancel(Faded(m, smooth), smooth, m as real);
  }

  lemma SmallShare(mode: Mode, smooth: real, queued: nat)
    requires 0.0 <= smooth && 20.48 * smooth < 1.0 && queued <= CAPACITY
    ensures WaitCount(mode, smooth, queued) == 0
  {
  }

  lemma {:induction false} WeightedOfZeros(ds: seq<real>)
    requires forall i :: 0 <= i < |ds| ==> ds[i] == 0.0
    ensures Weighted(ds) == 0.0
  {
    if ds != [] {
      Bernoulli(|ds| - 1, ALPHA * ds[0]);
      WeightedOfZeros(ds[1..]);
    }
  }

  /** A stretch of a run, ending with a tick, in which no tick finds a violation. */
  ghost predicate Quiet(cfg: Config, c: Control, evs: seq<Event>, threads: nat)
    requires Threads(c, threads) && cfg.delayBound > 0.0 && Allowed(evs, threads)
  {
    && evs != [] && evs[|evs| - 1].Sample?
    && forall i :: 0 <= i < |Degrees(cfg, c, evs, threads)| ==> Degrees(cfg, c, evs, threads)[i] == 0.0
  }

  lemma QuietSmooth(cfg: Config, c: Control, evs: seq<Event>, threads: nat)
    requires Threads(c, threads) && cfg.delayBound > 0.0 && Allowed(evs, threads)
    requires Quiet(cfg, c, evs, threads)
    ensures RunOf(cfg, c, evs, threads).smooth == Faded(|Degrees(cfg, c, evs, threads)|, c.smooth)
  {
    SmoothedIsWeighted(cfg, c, evs, threads);
    WeightedOfZeros(Degrees(cfg, c, evs, threads));
  }

  /** Once ticks find no violation, the smoothed degree shrinks by a factor of 3/5 at each; as the two
      queues are bounded, the counter handlers wait for is set to zero by every tick from a number of
      ticks on that is known from the degree at the start. */
  lemma QuietTicksRelease(cfg: Config, c: Control, evs: seq<Event>, threads: nat)
    requires Threads(c, threads) && cfg.delayBound > 0.0 && Allowed(evs, threads)
    requires Quiet(cfg, c, evs, threads) && c.smooth >= 0.0
    requires evs[|evs| - 1].queued <= CAPACITY
    ensures |Degrees(cfg, c, evs, threads)| >= ReleaseTicks(c.smooth) ==> RunOf(cfg, c, evs, threads).toWait == 0
  {
    var m := |Degrees(cfg, c, evs, threads)|;
    QuietSmooth(cfg, c, evs, threads);
    LastTick(cfg, c, evs, threads);
    if m >= ReleaseTicks(c.smooth) {
      FadedSmall(m, c.smooth);
      SmallShare(cfg.mode, Faded(m, c.smooth), evs[|evs| - 1].queued);
    }
  }

  lemma {:induction false} LastTick(cfg: Config, c: Control, evs: seq<Event>, threads: nat)
    requires Threads(c, threads) && cfg.delayBound > 0.0 && Allowed(evs, threads)
    requires evs != [] && evs[|evs| - 1].Sample?
    ensures var c' := RunOf(cfg, c, evs, threads);
            c'.toWait == WaitCount(cfg.mode, c'.smooth, evs[|evs| - 1].queued)
    decreases |evs|
  {
    if |evs| > 1 {
      LastTick(cfg, Next(cfg, c, evs[0]), evs[1..], threads);
    } else {
      assert RunOf(cfg, c, evs, threads) == Next(cfg, c, evs[0]);
    }
  }

  /** In the throttling modes the counter is a hundredth of the smoothed degree times the queued
      transactions, rounded down. If the smoothed degree is at most 100, a tick asks handlers to wait for no
      more transactions than are queued; the bound is exact, since any larger degree exceeds it on a long
      enough queue. */
  lemma WaitCountBound(mode: Mode, smooth: real, queued: nat)
    ensures var n := WaitCount(mode, smooth, queued);
            if (mode == Full || mode == AC) && smooth > 0.0
            then 100.0 * n as real <= queued as real * smooth < 100.0 * (n + 1) as real
            else n == 0
    ensures WaitCount(mode, smooth, queued) >= 0
    ensures smooth <= 100.0 ==> WaitCount(mode, smooth, queued) <= queued
    ensures WaitCount(mode, smooth, queued) <= queued <==>
              !Throttling(mode) || queued as real * (smooth - 100.0) < 100.0
  {
  }
}
