/** The shared server context: the fields the sampling timer and the processing threads update. */
module ServerContext {
  import opened Controller

  class ServerContext {
    const cfg: Config
    const threads: nat
    const statsMatrix: array2<Stats>
    const dataItems: array<Item>
    var currentSlot: nat
    var averageServiceDelay: real
    var degreeTimingViolation: real
    var smoothDegree: real
    var numTxnToWait: int
    var totalTxnsEnqueued: nat

    ghost function Row(i: nat): seq<Stats>
      requires i < statsMatrix.Length0
      reads statsMatrix
    {
      seq(statsMatrix.Length1, j requires 0 <= j < statsMatrix.Length1 reads statsMatrix => statsMatrix[i, j])
    }

    ghost function Rows(): seq<seq<Stats>>
      reads statsMatrix
    {
      seq(statsMatrix.Length0, i requires 0 <= i < statsMatrix.Length0 reads statsMatrix => Row(i))
    }

    ghost function View(): Control
      reads this, statsMatrix, dataItems
    {
      Control(currentSlot, Rows(), dataItems[..], averageServiceDelay, degreeTimingViolation,
              smoothDegree, numTxnToWait, totalTxnsEnqueued)
    }

    ghost predicate Valid()
      reads this, statsMatrix, dataItems
    {
      && statsMatrix.Length0 == SLOTS && statsMatrix.Length1 == threads
      && cfg.delayBound > 0.0
      && Shape(View())
    }

    /** The context as main sets it up: every item starts with its smallest period in slot 0. */
    constructor (cfg: Config, threads: nat, numItems: nat)
      requires Sane(cfg)
      ensures Valid() && fresh(statsMatrix) && fresh(dataItems) && this.cfg == cfg && this.threads == threads
      ensures View() == Control(0, seq(SLOTS, _ => Cleared(threads)),
                                seq(numItems, _ => Item([0.0, 0.0, 0.0, 0.0, 0.0], [0.0, 0.0, 0.0, 0.0, 0.0],
                                                        [cfg.minPeriod, 0.0, 0.0, 0.0, 0.0])),
                                0.0, 0.0, 0.0, 0, 0)
    {
      this.cfg, this.threads := cfg, threads;
      statsMatrix := new Stats[SLOTS, threads]((i, j) => NoStats);
      dataItems := new Item[numItems](i => Item([0.0, 0.0, 0.0, 0.0, 0.0], [0.0, 0.0, 0.0, 0.0, 0.0],
                                                [cfg.minPeriod, 0.0, 0.0, 0.0, 0.0]));
      currentSlot, averageServiceDelay, degreeTimingViolation, smoothDegree := 0, 0.0, 0.0, 0.0;
      numTxnToWait, totalTxnsEnqueued := 0, 0;
      new;
      forall i: nat | i < SLOTS ensures Row(i) == Cleared(threads) {
      }
      assert Rows() == seq(SLOTS, _ => Cleared(threads));
    }

    /** handler_sampling. */
    method HandlerSampling(userOccupied: nat, sysOccupied: nat)
      requires Valid()
      modifies this, statsMatrix, dataItems
      ensures Valid() && View() == Tick(cfg, old(View()), userOccupied + sysOccupied)
    {
      ghost var was := View();
      var previousSlot := currentSlot;
      var newSlot := (previousSlot + 1) % SLOTS;
      ClearRow(newSlot);
      AdaptPeriods(previousSlot, newSlot);
      currentSlot := newSlot;
      MeasureDelay(previousSlot);
      ControlAdmission(userOccupied + sysOccupied);
      ghost var tick := Tick(cfg, was, userOccupied + sysOccupied);
      assert View().stats == tick.stats;
      assert Rows()[previousSlot] == was.stats[previousSlot];
      assert dataItems[..] == tick.items;
    }

    /** The average service delay of the period that just ended. */
    method MeasureDelay(previousSlot: nat)
      requires Valid() && previousSlot < SLOTS
      modifies this`averageServiceDelay
      ensures averageServiceDelay == AverageDelay(Totals(Rows()[previousSlot]))
      ensures var sum := Totals(Rows()[previousSlot]);
              if sum.txns > 0 then averageServiceDelay * sum.txns as real == sum.ms else averageServiceDelay == 0.0
    {
      var sum := SumRow(previousSlot);
      assert Rows()[previousSlot] == Row(previousSlot);
      if sum.txns > 0 {
        averageServiceDelay := sum.ms / (sum.txns as real);
      } else {
        averageServiceDelay := 0.0;
      }
    }

    /** The degree of overload, its smoothed value, and what admission control makes of it. */
    method ControlAdmission(enqueued: nat)
      requires cfg.delayBound > 0.0
      modifies this`degreeTimingViolation, this`smoothDegree, this`numTxnToWait, this`totalTxnsEnqueued
      ensures degreeTimingViolation == Degree(averageServiceDelay, cfg.delayBound)
      ensures cfg.delayBound * (1.0 + degreeTimingViolation)
           == if averageServiceDelay > cfg.delayBound then averageServiceDelay else cfg.delayBound
      ensures smoothDegree == Smoothed(degreeTimingViolation, old(smoothDegree))
      ensures totalTxnsEnqueued == enqueued
      ensures numTxnToWait == WaitCount(cfg.mode, smoothDegree, enqueued)
      ensures if (cfg.mode == Full || cfg.mode == AC) && smoothDegree > 0.0
              then 100.0 * numTxnToWait as real <= enqueued as real * smoothDegree < 100.0 * (numTxnToWait + 1) as real
              else numTxnToWait == 0
    {
      if averageServiceDelay > cfg.delayBound {
        degreeTimingViolation := (averageServiceDelay - cfg.delayBound) / cfg.delayBound;
      } else {
        degreeTimingViolation := 0.0;
      }
      smoothDegree := ALPHA * degreeTimingViolation + (1.0 - ALPHA) * smoothDegree;
      totalTxnsEnqueued := enqueued;
      if (cfg.mode == Full || cfg.mode == AC) && smoothDegree > 0.0 {
        numTxnToWait := (totalTxnsEnqueued as real * smoothDegree / 100.0).Floor;
      } else {
        numTxnToWait := 0;
      }
    }

    /** The memset of every thread's cell in the slot that becomes current. */
    method ClearRow(slot: nat)
      requires Valid() && slot < SLOTS
      modifies statsMatrix
      ensures Valid() && Rows() == old(Rows())[slot := Cleared(threads)]
    {
      ghost var was := Rows();
      for j := 0 to threads
        invariant forall k :: 0 <= k < j ==> statsMatrix[slot, k] == NoStats
        invariant forall i, k :: 0 <= i < SLOTS && 0 <= k < threads && i != slot ==> statsMatrix[i, k] == was[i][k]
      {
        statsMatrix[slot, j] := NoStats;
      }
      assert Row(slot) == Cleared(threads);
      forall i: nat | i < SLOTS && i != slot ensures Row(i) == was[i] {
      }
      assert Rows() == was[slot := Cleared(threads)];
    }

    /** The loop over the data items. */
    method AdaptPeriods(previousSlot: nat, newSlot: nat)
      requires Valid() && previousSlot < SLOTS && newSlot < SLOTS
      modifies dataItems
      ensures Valid()
      ensures dataItems.Length == |old(dataItems[..])|
      ensures forall i :: 0 <= i < dataItems.Length ==>
                dataItems[i] == TickItem(cfg, old(dataItems[i]), previousSlot, newSlot)
    {
      ghost var was := dataItems[..];
      for i := 0 to dataItems.Length
        invariant forall k :: 0 <= k < i ==> dataItems[k] == TickItem(cfg, was[k], previousSlot, newSlot)
        invariant forall k :: i <= k < dataItems.Length ==> dataItems[k] == was[k]
      {
        assert ItemShape(was[i]);
        var item := dataItems[i];
        if item.frequency[previousSlot] == 0.0 {
          item := item.(frequency := item.frequency[previousSlot := 0.1]);
        }
        item := item.(ratio := item.ratio[previousSlot := item.ratio[previousSlot] / item.frequency[previousSlot]]);
        if cfg.mode == Full || cfg.mode == AUP {
          if item.ratio[previousSlot] < 1.0 {
            if item.period[previousSlot] * 1.1 <= cfg.maxPeriod {
              item := item.(period := item.period[newSlot := item.period[previousSlot] * 1.1]);
            }
          } else if item.ratio[previousSlot] > 1.0 {
            if item.period[previousSlot] * 0.9 >= cfg.minPeriod {
              item := item.(period := item.period[newSlot := item.period[previousSlot] * 0.9]);
            }
          }
        } else {
          item := item.(period := item.period[newSlot := cfg.minPeriod]);
        }
        assert was[i].frequency[previousSlot := was[i].frequency[previousSlot]] == was[i].frequency;
        dataItems[i] := item;
      }
    }

    /** The sums over all threads of one slot. */
    method SumRow(slot: nat) returns (sum: Stats)
      requires Valid() && slot < SLOTS
      ensures sum == Totals(Row(slot))
    {
      sum := NoStats;
      ghost var row := Row(slot);
      for j := 0 to threads
        invariant sum == Totals(row[..j])
      {
        assert row[..j + 1][..j] == row[..j];
        sum := Plus(sum, statsMatrix[slot, j]);
      }
      assert row[..threads] == row;
    }

    /** The end of processUserTransaction: one throttled transaction less, and the thread's counters. */
    method Finish(thread: nat, ok: bool, durationMs: int)
      requires Valid() && thread < threads
      modifies this`numTxnToWait, statsMatrix
      ensures Valid()
      ensures View() == Record(cfg, old(View()).(toWait := Decremented(old(numTxnToWait))), thread, ok, durationMs)
      ensures numTxnToWait == old(numTxnToWait) - (if old(numTxnToWait) > 0 then 1 else 0)
      ensures var was, now := old(statsMatrix[currentSlot, thread]), statsMatrix[currentSlot, thread];
              && now.txns == was.txns + (if ok then 1 else 0)
              && now.failed == was.failed + (if ok then 0 else 1)
              && now.ms == was.ms + (if ok then durationMs as real else 0.0)
              && now.timely == was.timely + (if ok && durationMs as real <= cfg.delayBound then 1 else 0)
      ensures forall i, j :: 0 <= i < SLOTS && 0 <= j < threads && (i != currentSlot || j != thread) ==>
                statsMatrix[i, j] == old(statsMatrix[i, j])
    {
      ghost var was := View();
      if numTxnToWait > 0 {
        numTxnToWait := numTxnToWait - 1;
      }
      var cell := statsMatrix[currentSlot, thread];
      if ok {
        cell := cell.(txns := cell.txns + 1);
        cell := cell.(ms := cell.ms + durationMs as real);
        if durationMs as real <= cfg.delayBound {
          cell := cell.(timely := cell.timely + 1);
        }
      } else {
        cell := cell.(failed := cell.failed + 1);
      }
      statsMatrix[currentSlot, thread] := cell;
      forall i: nat | i < SLOTS
        ensures Row(i) == if i == currentSlot then was.stats[i][thread := cell] else was.stats[i]
      {
      }
      assert cell == Recorded(cfg, was.stats[currentSlot][thread], ok, durationMs);
      assert Rows() == was.stats[currentSlot := was.stats[currentSlot][thread := cell]];
    }
  }
}
