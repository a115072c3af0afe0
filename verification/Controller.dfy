/** The sampling timer: a five slot circular history, adaptive update periods, the smoothed degree of
    timing violation, and the number of transactions that admission control waits for. C doubles
    are reals. */
module Controller {

  const SLOTS: nat := 5
  const ALPHA: real := 0.4

  datatype Mode = Base | AC | AUP | Full

  datatype Config = Config(mode: Mode, minPeriod: real, maxPeriod: real, delayBound: real)

  /** What processArguments enforces and derives: a positive validity interval, half of it as the
      smallest period, and twice that as the largest. */
  predicate Sane(cfg: Config) {
    cfg.minPeriod > 0.0 && cfg.maxPeriod == 2.0 * cfg.minPeriod && cfg.delayBound > 0.0
  }

  /** The counters of one thread in one sampling period. */
  datatype Stats = Stats(txns: nat, ms: real, failed: nat, timely: nat)

  const NoStats: Stats := Stats(0, 0.0, 0, 0)

  datatype Item = Item(frequency: seq<real>, ratio: seq<real>, period: seq<real>)

  ghost predicate ItemShape(it: Item) {
    |it.frequency| == SLOTS && |it.ratio| == SLOTS && |it.period| == SLOTS
  }

  datatype Control = Control(
    slot: nat, stats: seq<seq<Stats>>, items: seq<Item>,
    average: real, degree: real, smooth: real, toWait: int, enqueued: nat)

  ghost predicate Shape(c: Control) {
    c.slot < SLOTS && |c.stats| == SLOTS && forall i :: 0 <= i < |c.items| ==> ItemShape(c.items[i])
  }

  predicate Adaptive(mode: Mode) {
    mode == Full || mode == AUP
  }

  predicate Throttling(mode: Mode) {
    mode == Full || mode == AC
  }

  function NextSlot(slot: nat): nat {
    (slot + 1) % SLOTS
  }

  /** What a tick that leaves slot prev for slot next does to a data item. The divisor is never zero:
      an idle item counts as a tenth of an update. A period that would leave its range is not written,
      and the new slot keeps what it held five ticks ago. */
  function TickItem(cfg: Config, it: Item, prev: nat, next: nat): (r: Item)
    requires ItemShape(it) && prev < SLOTS && next < SLOTS
    ensures ItemShape(r)
  {
    var frequency := if it.frequency[prev] == 0.0 then 0.1 else it.frequency[prev];
    var ratio := it.ratio[prev] / frequency;
    var period := it.period[prev];
    var it1 := it.(frequency := it.frequency[prev := frequency], ratio := it.ratio[prev := ratio]);
    if Adaptive(cfg.mode) then
      if ratio < 1.0 && period * 1.1 <= cfg.maxPeriod then it1.(period := it.period[next := period * 1.1])
      else if ratio > 1.0 && period * 0.9 >= cfg.minPeriod then it1.(period := it.period[next := period * 0.9])
      else it1
    else it1.(period := it.period[next := cfg.minPeriod])
  }

  function Plus(a: Stats, b: Stats): Stats {
    if b == NoStats then a
    else Stats(a.txns + b.txns, a.ms + b.ms, a.failed + b.failed, a.timely + b.timely)
  }

  /** The counters of all threads in one period. */
  function Totals(row: seq<Stats>): Stats {
    if row == [] then NoStats else Plus(Totals(row[..|row| - 1]), row[|row| - 1])
  }

  function AverageDelay(t: Stats): real {
    if t.txns > 0 then t.ms / (t.txns as real) else 0.0
  }

  /** The degree of timing violation of one period. */
  function Degree(average: real, bound: real): real
    requires bound > 0.0
  {
    if average > bound then (average - bound) / bound else 0.0
  }

  function Smoothed(degree: real, smooth: real): real {
    ALPHA * degree + (1.0 - ALPHA) * smooth
  }

  /** num_txn_to_wait as a tick sets it: a share of the queued transactions, cut to an int. */
  function WaitCount(mode: Mode, smooth: real, queued: nat): int {
    if Throttling(mode) && smooth > 0.0 then (queued as real * smooth / 100.0).Floor else 0
  }

  /** One throttled transaction less. */
  function Decremented(toWait: int): (n: int)
    ensures toWait >= 0 ==> 0 <= n <= toWait
  {
    if toWait > 0 then toWait - 1 else toWait
  }

  /** The cells of one slot after the memset. */
  function Cleared(threads: nat): (row: seq<Stats>)
    ensures |row| == threads && forall j :: 0 <= j < threads ==> row[j] == NoStats
  {
    if threads == 0 then [] else Cleared(threads - 1) + [NoStats]
  }

  /** handler_sampling, with the number of transactions in the two queues. */
  function Tick(cfg: Config, c: Control, queued: nat): (c': Control)
    requires Shape(c) && cfg.delayBound > 0.0
    ensures Shape(c')
  {
    var next := NextSlot(c.slot);
    var average := AverageDelay(Totals(c.stats[c.slot]));
    var degree := Degree(average, cfg.delayBound);
    var smooth := Smoothed(degree, c.smooth);
    Control(next, c.stats[next := Cleared(|c.stats[next]|)],
            seq(|c.items|, i requires 0 <= i < |c.items| => TickItem(cfg, c.items[i], c.slot, next)),
            average, degree, smooth, WaitCount(cfg.mode, smooth, queued), queued)
  }

  /** What a processing thread adds to its cell when a user transaction is over. */
  function Recorded(cfg: Config, s: Stats, ok: bool, ms: int): Stats {
    if !ok then s.(failed := s.failed + 1)
    else s.(txns := s.txns + 1, ms := s.ms + ms as real,
            timely := s.timely + (if ms as real <= cfg.delayBound then 1 else 0))
  }

  function Record(cfg: Config, c: Control, thread: nat, ok: bool, ms: int): Control
    requires Shape(c) && thread < |c.stats[c.slot]|
  {
    c.(stats := c.stats[c.slot := c.stats[c.slot][thread := Recorded(cfg, c.stats[c.slot][thread], ok, ms)]])
  }
}
