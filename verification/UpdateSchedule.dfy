/** The update threads: which data items each one refreshes, when, and how often an item can be refreshed. */
module UpdateSchedule {
  import opened Controller
  import opened ControllerLaws

  // ---------------------------------------------------------------- slices

  /** The items of one update thread, k items for each thread. */
  predicate InSlice(thread: nat, k: nat, item: nat) {
    thread * k <= item < (thread + 1) * k
  }

  ghost predicate SomeSlice(threads: nat, k: nat, item: nat) {
    exists thread: nat :: thread < threads && InSlice(thread, k, item)
  }

  lemma MulMono(a: int, b: int, k: nat)
    ensures a <= b ==> a * k <= b * k
  {
  }

  lemma SliceOf(k: nat, item: nat, thread: nat)
    requires k > 0
    ensures InSlice(thread, k, item) <==> thread == item / k
  {
    var q := item / k;
    assert q * k <= item < q * k + k;
    MulMono(thread + 1, q, k);
    MulMono(q + 1, thread, k);
  }

  /** No item belongs to two threads, the threads own exactly the first threads * k items, and so they
      stay inside the array if and only if threads * k is at most its length, and leave no item stale
      if and only if it is at least its length. */
  lemma SlicesPartition(threads: nat, k: nat, items: nat)
    requires k > 0 && threads > 0
    ensures forall i: nat, j: nat, item: nat :: InSlice(i, k, item) && InSlice(j, k, item) ==> i == j
    ensures forall item: nat :: SomeSlice(threads, k, item) <==> item < threads * k
    ensures (forall item: nat :: SomeSlice(threads, k, item) ==> item < items) <==> threads * k <= items
    ensures (forall item: nat :: item < items ==> SomeSlice(threads, k, item)) <==> items <= threads * k
  {
    forall i: nat, j: nat, item: nat | InSlice(i, k, item) && InSlice(j, k, item) ensures i == j {
      SliceOf(k, item, i);
      SliceOf(k, item, j);
    }
    forall item: nat ensures SomeSlice(threads, k, item) <==> item < threads * k {
      SliceOf(k, item, item / k);
      MulMono(threads, item / k, k);
      forall thread: nat | thread < threads && InSlice(thread, k, item) ensures item < threads * k {
        MulMono(thread + 1, threads, k);
      }
    }
    if threads * k > items {
      assert SomeSlice(threads, k, items);
    }
    if items > threads * k {
      assert !SomeSlice(threads, k, threads * k);
    }
  }

  // ---------------------------------------------------------------- one pass

  /** An update thread looks at an item. If the item is due, the refresh is enqueued at some moment `at`,
      the clock is read again `after`, and the period is the one of the slot that is current in between. */
  datatype Look = Look(now: nat, at: nat, after: nat, period: real)

  predicate Timely(v: Look) {
    v.now <= v.at <= v.after && v.period >= 0.0
  }

  /** The sum of an unsigned integer and a double, cut to an unsigned integer. */
  function DueAgain(v: Look): (next: int)
    ensures next == v.after + v.period.Floor
  {
    (v.after as real + v.period).Floor
  }

  /** nextUpdateTimeMS after the look. */
  function Visit(next: nat, v: Look): nat
    requires Timely(v)
  {
    if next <= v.now then DueAgain(v) else next
  }

  /** The due items among the first n of a slice, in order. */
  function DueItems(items: seq<nat>, first: nat, n: nat, now: nat): seq<nat>
    requires first + n <= |items|
  {
    if n == 0 then []
    else DueItems(items, first, n - 1, now) + (if items[first + n - 1] <= now then [first + n - 1] else [])
  }

  /** In order, without repeats, and all of the due items of the slice but nothing else. */
  ghost predicate ExactlyDue(enqueued: seq<nat>, items: seq<nat>, first: nat, count: nat, now: nat)
    requires first + count <= |items|
  {
    && (forall a, b :: 0 <= a < b < |enqueued| ==> enqueued[a] < enqueued[b])
    && (forall j :: j in enqueued <==> first <= j < first + count && items[j] <= now)
  }

  lemma OneMoreItem(init: seq<nat>, items: seq<nat>, first: nat, n: nat, now: nat)
    requires first + n < |items| && ExactlyDue(init, items, first, n, now)
    ensures items[first + n] > now ==> ExactlyDue(init, items, first, n + 1, now)
    ensures items[first + n] <= now ==> ExactlyDue(init + [first + n], items, first, n + 1, now)
  {
    var all := init + [first + n];
    forall a, b | 0 <= a < b < |all| && items[first + n] <= now ensures all[a] < all[b] {
      assert init[a] in init;
    }
    forall j ensures j in all <==> j in init || j == first + n {
    }
  }

  lemma {:induction false} DueItemsExact(items: seq<nat>, first: nat, n: nat, now: nat)
    requires first + n <= |items|
    ensures ExactlyDue(DueItems(items, first, n, now), items, first, n, now)
  {
    if n > 0 {
      var init := DueItems(items, first, n - 1, now);
      DueItemsExact(items, first, n - 1, now);
      OneMoreItem(init, items, first, n - 1, now);
      assert init + [] == init;
    }
  }

  // ---------------------------------------------------------------- the refreshes of one item

  /** The looks at one item, against a clock that never runs backwards. */
  predicate Timed(vs: seq<Look>) {
    && (forall i :: 0 <= i < |vs| ==> Timely(vs[i]))
    && (forall i, j :: 0 <= i < j < |vs| ==> vs[i].after <= vs[j].now)
  }

  /** nextUpdateTimeMS, and the looks that found the item due. */
  datatype Track = Track(next: nat, fired: seq<Look>)

  function Follow(next: nat, vs: seq<Look>): Track
    requires Timed(vs)
  {
    if vs == [] then Track(next, [])
    else
      var v, t := vs[|vs| - 1], Follow(next, vs[..|vs| - 1]);
      Track(Visit(t.next, v), if t.next <= v.now then t.fired + [v] else t.fired)
  }

  /** Consecutive refreshes are apart by at least the integer part of the period set at the first one. */
  ghost predicate Spaced(fired: seq<Look>) {
    forall i, j :: 0 <= i && j == i + 1 && j < |fired| ==> fired[j].at - fired[i].at >= fired[i].period.Floor
  }

  lemma SpacedMore(fired: seq<Look>, v: Look)
    requires Spaced(fired)
    requires fired != [] ==> v.at - fired[|fired| - 1].at >= fired[|fired| - 1].period.Floor
    ensures Spaced(fired + [v])
  {
  }

  lemma {:induction false} RefreshesSpaced(next: nat, vs: seq<Look>)
    requires Timed(vs)
    ensures var t := Follow(next, vs);
            && Spaced(t.fired) && (forall v :: v in t.fired ==> v in vs)
            && (t.fired != [] ==> t.next == DueAgain(t.fired[|t.fired| - 1]))
  {
    if vs != [] {
      var v, t := vs[|vs| - 1], Follow(next, vs[..|vs| - 1]);
      RefreshesSpaced(next, vs[..|vs| - 1]);
      assert Timely(v);
      if t.fired != [] {
        var last := t.fired[|t.fired| - 1];
        assert last in vs[..|vs| - 1];
        assert last in vs;
      }
      if t.next <= v.now {
        SpacedMore(t.fired, v);
      }
    }
  }

  /** If an item is looked at every d milliseconds, no refresh comes later than d after it was due. */
  lemma {:induction false} RefreshesOnTime(next: nat, vs: seq<Look>, d: nat)
    requires Timed(vs)
    requires forall i, j :: 0 <= i && j == i + 1 && j < |vs| ==> vs[j].now <= vs[i].now + d
    ensures var t := Follow(next, vs);
            && (forall i, j :: 0 <= i && j == i + 1 && j < |t.fired| ==> t.fired[j].now <= DueAgain(t.fired[i]) + d)
            && (t.fired != [] ==> vs[|vs| - 1].now < t.next || vs[|vs| - 1] == t.fired[|t.fired| - 1])
  {
    if vs != [] {
      RefreshesOnTime(next, vs[..|vs| - 1], d);
      RefreshesSpaced(next, vs[..|vs| - 1]);
    }
  }

  /** The refreshes in the w milliseconds from a on. */
  function InWindow(fired: seq<Look>, a: nat, w: nat): nat {
    if fired == [] then 0
    else
      var v := fired[|fired| - 1];
      InWindow(fired[..|fired| - 1], a, w) + (if a <= v.at <= a + w then 1 else 0)
  }

  /** n times f. */
  function Times(f: nat, n: nat): nat {
    if n == 0 then 0 else Times(f, n - 1) + f
  }

  lemma {:induction false} TimesIsProduct(f: nat, n: nat)
    ensures Times(f, n) == n * f
  {
    if n > 0 {
      TimesIsProduct(f, n - 1);
      assert n * f == (n - 1) * f + f;
    }
  }

  lemma {:induction false} WindowSpan(fired: seq<Look>, a: nat, w: nat, f: nat)
    requires Spaced(fired) && forall v :: v in fired ==> v.period.Floor >= f
    ensures var c := InWindow(fired, a, w);
            c > 0 ==> Times(f, c - 1) <= w && Times(f, c - 1) <= fired[|fired| - 1].at - a
  {
    if fired != [] {
      var init := fired[..|fired| - 1];
      WindowSpan(init, a, w, f);
      if init != [] {
        assert init[|init| - 1] in fired;
        assert fired[|init| - 1] == init[|init| - 1];
      }
    }
  }

  lemma CountFromSpan(c: nat, f: nat, w: nat)
    requires f >= 1 && c >= 1 && Times(f, c - 1) <= w
    ensures c <= w / f + 1
  {
    TimesIsProduct(f, c - 1);
    MulMono(w / f + 1, c - 1, f);
    assert w / f * f + f > w;
  }

  /** Refresh rate: if no period is below f milliseconds, any window of w milliseconds holds at most
      w / f + 1 refreshes of an item. */
  lemma RateBound(next: nat, vs: seq<Look>, a: nat, w: nat, f: nat)
    requires Timed(vs) && f >= 1 && forall v :: v in vs ==> v.period.Floor >= f
    ensures InWindow(Follow(next, vs).fired, a, w) <= w / f + 1
  {
    RefreshesSpaced(next, vs);
    var fired := Follow(next, vs).fired;
    WindowSpan(fired, a, w, f);
    if InWindow(fired, a, w) > 0 {
      CountFromSpan(InWindow(fired, a, w), f, w);
    }
  }

  ghost predicate PeriodsAtLeast(vs: seq<Look>, f: nat) {
    forall v :: v in vs ==> v.period.Floor >= f
  }

  /** In every window no more of the looks fired than the periods found at all of them allow. */
  ghost predicate RateOk(fired: seq<Look>, vs: seq<Look>) {
    forall a: nat, w: nat, f: nat :: f >= 1 && PeriodsAtLeast(vs, f) ==> InWindow(fired, a, w) <= w / f + 1
  }

  lemma RateAlways(next: nat, vs: seq<Look>)
    requires Timed(vs)
    ensures RateOk(Follow(next, vs).fired, vs)
  {
    forall a: nat, w: nat, f: nat | f >= 1 && PeriodsAtLeast(vs, f)
      ensures InWindow(Follow(next, vs).fired, a, w) <= w / f + 1
    {
      RateBound(next, vs, a, w, f);
    }
  }

  /** On the server's own runs: whatever number of ticks the sampling timer made before each look, the
      period it finds is one the timer set, so the smallest period bounds the rate in every mode. */
  lemma ServerRate(cfg: Config, next: nat, vs: seq<Look>, ticks: seq<seq<Write>>, a: nat, w: nat)
    requires Sane(cfg) && cfg.minPeriod >= 1.0 && Timed(vs) && |ticks| == |vs|
    requires forall i :: 0 <= i < |vs| ==> vs[i].period == Current(cfg, Fresh(cfg), ticks[i])
    requires forall i, j :: 0 <= i < |vs| && 0 <= j < |ticks[i]| ==> ticks[i][j].Counted?
    ensures InWindow(Follow(next, vs).fired, a, w) <= w / cfg.minPeriod.Floor + 1
  {
    forall v | v in vs ensures v.period.Floor >= cfg.minPeriod.Floor {
      var i :| 0 <= i < |vs| && vs[i] == v;
      if Adaptive(cfg.mode) {
        PeriodClosedForm(cfg, ticks[i]);
      } else {
        PeriodFixed(cfg, ticks[i]);
      }
    }
    RateBound(next, vs, a, w, cfg.minPeriod.Floor);
  }

  /** The looks of a thread that comes by just when the item is due, every f milliseconds. */
  function Prompt(f: nat, period: real, n: nat): seq<Look> {
    if n == 0 then [] else Prompt(f, period, n - 1) + [PromptLook(f, period, n - 1)]
  }

  function PromptLook(f: nat, period: real, i: nat): Look {
    Look(Times(f, i), Times(f, i), Times(f, i), period)
  }

  lemma {:induction false} PromptTimed(f: nat, period: real, n: nat)
    requires period >= 0.0
    ensures var vs := Prompt(f, period, n);
            |vs| == n && Timed(vs) && forall v :: v in vs ==> v.period == period && v.after + f <= Times(f, n)
  {
    if n > 0 {
      PromptTimed(f, period, n - 1);
      assert forall i :: 0 <= i < n - 1 ==> Prompt(f, period, n)[i] in Prompt(f, period, n - 1);
    }
  }

  lemma FollowPrompt(next: nat, vs: seq<Look>, v: Look)
    requires Timed(vs) && Timed(vs + [v]) && Follow(next, vs) == Track(v.now, vs)
    ensures Follow(next, vs + [v]) == Track(v.after + v.period.Floor, vs + [v])
  {
    assert (vs + [v])[..|vs|] == vs;
  }

  lemma {:induction false} PromptFires(f: nat, period: real, n: nat)
    requires period >= 0.0 && period.Floor == f
    ensures Timed(Prompt(f, period, n))
    ensures Follow(0, Prompt(f, period, n)) == Track(Times(f, n), Prompt(f, period, n))
  {
    PromptTimed(f, period, n);
    if n > 0 {
      PromptFires(f, period, n - 1);
      FollowPrompt(0, Prompt(f, period, n - 1), PromptLook(f, period, n - 1));
    }
  }

  lemma {:induction false} PromptCount(f: nat, period: real, n: nat, w: nat)
    requires period >= 0.0 && (n > 0 ==> Times(f, n - 1) <= w)
    ensures InWindow(Prompt(f, period, n), 0, w) == n
  {
    if n > 0 {
      PromptTimed(f, period, n - 1);
      PromptCount(f, period, n - 1, w);
      assert Prompt(f, period, n)[..n - 1] == Prompt(f, period, n - 1);
    }
  }

  /** The bound is reached, and it needs a smallest period of a millisecond: for every n, a thread can
      refresh an item n times within n - 1 times the integer part of the period, which is no time at all
      when that is below one millisecond. */
  lemma RateReached(period: real, n: nat)
    requires period >= 0.0 && n > 0
    ensures var vs := Prompt(period.Floor, period, n);
            && Timed(vs) && (forall v :: v in vs ==> v.period == period)
            && InWindow(Follow(0, vs).fired, 0, Times(period.Floor, n - 1)) == n
  {
    var f := period.Floor;
    PromptTimed(f, period, n);
    PromptFires(f, period, n);
    PromptCount(f, period, n, Times(f, n - 1));
  }

  // ---------------------------------------------------------------- rounds

  /** One round of a thread: what it saw at each item, and the slot it counted the refresh in. */
  datatype Round = Round(now: nat, looks: seq<Look>, slots: seq<nat>)

  ghost predicate RoundOk(r: Round, count: nat) {
    && |r.looks| == |r.slots| == count
    && forall i :: 0 <= i < count ==> Timely(r.looks[i]) && r.looks[i].now == r.now && r.slots[i] < SLOTS
  }

  /** The looks at item i of the slice. */
  function LooksAt(rounds: seq<Round>, i: nat): (vs: seq<Look>)
    requires forall r :: 0 <= r < |rounds| ==> i < |rounds[r].looks|
    ensures |vs| == |rounds| && forall r :: 0 <= r < |rounds| ==> vs[r] == rounds[r].looks[i]
  {
    seq(|rounds|, r requires 0 <= r < |rounds| => rounds[r].looks[i])
  }

  /** Rounds of one thread, against a clock that never runs backwards. */
  ghost predicate Clocked(rounds: seq<Round>, count: nat) {
    && (forall r :: 0 <= r < |rounds| ==> RoundOk(rounds[r], count))
    && (forall i: nat :: i < count ==> Timed(LooksAt(rounds, i)))
  }

  /** The looks, at item i of the slice, of the rounds that enqueued it. */
  function Picked(rounds: seq<Round>, enqueued: seq<seq<nat>>, first: nat, i: nat): seq<Look>
    requires |enqueued| == |rounds| && forall r :: 0 <= r < |rounds| ==> i < |rounds[r].looks|
  {
    if rounds == [] then []
    else
      var last := |rounds| - 1;
      Picked(rounds[..last], enqueued[..last], first, i)
        + (if first + i in enqueued[last] then [rounds[last].looks[i]] else [])
  }

  lemma ClockedPrefix(rounds: seq<Round>, count: nat, r: nat)
    requires Clocked(rounds, count) && r <= |rounds|
    ensures Clocked(rounds[..r], count)
  {
    forall i: nat | i < count ensures Timed(LooksAt(rounds[..r], i)) {
      assert Timed(LooksAt(rounds, i));
    }
  }

  /** From start to now, the items of the slice followed their looks, and were enqueued when due. */
  ghost predicate Followed(start: seq<nat>, now: seq<nat>, rounds: seq<Round>, enqueued: seq<seq<nat>>,
                           first: nat, count: nat)
    requires Clocked(rounds, count) && |enqueued| == |rounds| && first + count <= |start| == |now|
  {
    forall i: nat :: i < count ==>
      Track(now[first + i], Picked(rounds, enqueued, first, i)) == Follow(start[first + i], LooksAt(rounds, i))
  }

  lemma OneMoreRound(rounds: seq<Round>, r: nat, enqueued: seq<seq<nat>>, due: seq<nat>, first: nat, count: nat,
                     start: seq<nat>, was: seq<nat>, now: seq<nat>)
    requires r < |rounds| && Clocked(rounds, count) && Clocked(rounds[..r], count) && Clocked(rounds[..r + 1], count)
    requires |enqueued| == r && first + count <= |start| == |was| == |now|
    requires Followed(start, was, rounds[..r], enqueued, first, count)
    requires forall j :: j in due <==> first <= j < first + count && was[j] <= rounds[r].now
    requires forall j :: first <= j < first + count ==> now[j] == Visit(was[j], rounds[r].looks[j - first])
    ensures Followed(start, now, rounds[..r + 1], enqueued + [due], first, count)
  {
    var done := rounds[..r + 1];
    forall i: nat | i < count
      ensures Track(now[first + i], Picked(done, enqueued + [due], first, i))
           == Follow(start[first + i], LooksAt(done, i))
    {
      MoreLooks(rounds, r, enqueued, due, first, count, i, start[first + i], was[first + i]);
    }
  }

  lemma MoreLooks(rounds: seq<Round>, r: nat, enqueued: seq<seq<nat>>, due: seq<nat>, first: nat, count: nat,
                  i: nat, start: nat, was: nat)
    requires r < |rounds| && Clocked(rounds, count) && Clocked(rounds[..r], count) && Clocked(rounds[..r + 1], count)
    requires |enqueued| == r && i < count
    requires Track(was, Picked(rounds[..r], enqueued, first, i)) == Follow(start, LooksAt(rounds[..r], i))
    requires first + i in due <==> was <= rounds[r].now
    ensures Track(Visit(was, rounds[r].looks[i]), Picked(rounds[..r + 1], enqueued + [due], first, i))
         == Follow(start, LooksAt(rounds[..r + 1], i))
  {
    var vs := LooksAt(rounds[..r + 1], i);
    assert vs[..r] == LooksAt(rounds[..r], i);
    assert rounds[..r + 1][..r] == rounds[..r];
    assert (enqueued + [due])[..r] == enqueued;
  }

  lemma RatesBounded(start: seq<nat>, now: seq<nat>, rounds: seq<Round>, enqueued: seq<seq<nat>>,
                     first: nat, count: nat)
    requires Clocked(rounds, count) && |enqueued| == |rounds| && first + count <= |start| == |now|
    requires Followed(start, now, rounds, enqueued, first, count)
    ensures forall i: nat :: i < count ==> RateOk(Picked(rounds, enqueued, first, i), LooksAt(rounds, i))
  {
    forall i: nat | i < count ensures RateOk(Picked(rounds, enqueued, first, i), LooksAt(rounds, i)) {
      RateAlways(start[first + i], LooksAt(rounds, i));
    }
  }

  // ---------------------------------------------------------------- the thread

  class UpdateThread {
    const items: array<nat>          // nextUpdateTimeMS of all data items, shared with the other threads
    const frequency: array2<real>    // their updateFrequency, by item and slot
    const first: nat
    const count: nat

    ghost predicate Valid() {
      first + count <= items.Length && frequency.Length0 == items.Length && frequency.Length1 == SLOTS
    }

    constructor (items: array<nat>, frequency: array2<real>, thread: nat, k: nat)
      requires (thread + 1) * k <= items.Length == frequency.Length0 && frequency.Length1 == SLOTS
      ensures this.items == items && this.frequency == frequency && first == thread * k && count == k
      ensures Valid()
    {
      this.items, this.frequency, first, count := items, frequency, thread * k, k;
    }

    /** One round of updateThread: due items are enqueued in order, counted in the slot that is current, and
        scheduled again from a clock reading taken after the enqueue; items of other threads, and items
        that are not due, are not touched. */
    method Pass(now: nat, looks: seq<Look>, slots: seq<nat>) returns (enqueued: seq<nat>)
      requires Valid() && |looks| == |slots| == count
      requires forall i :: 0 <= i < count ==> Timely(looks[i]) && looks[i].now == now && slots[i] < SLOTS
      modifies items, frequency
      ensures enqueued == DueItems(old(items[..]), first, count, now)
      ensures forall a, b :: 0 <= a < b < |enqueued| ==> enqueued[a] < enqueued[b]
      ensures forall j :: j in enqueued <==> first <= j < first + count && old(items[j]) <= now
      ensures forall j :: 0 <= j < items.Length ==>
                items[j] == if first <= j < first + count then Visit(old(items[j]), looks[j - first]) else old(items[j])
      ensures forall j, t :: 0 <= j < items.Length && 0 <= t < SLOTS ==>
                frequency[j, t] == old(frequency[j, t]) +
                  if first <= j < first + count && old(items[j]) <= now && slots[j - first] == t then 1.0 else 0.0
    {
      enqueued := [];
      for i := 0 to count
        invariant enqueued == DueItems(old(items[..]), first, i, now)
        invariant forall j :: first <= j < first + i ==> items[j] == Visit(old(items[j]), looks[j - first])
        invariant forall j :: 0 <= j < items.Length && !(first <= j < first + i) ==> items[j] == old(items[j])
        invariant forall j, t :: 0 <= j < items.Length && 0 <= t < SLOTS ==>
                    frequency[j, t] == old(frequency[j, t]) +
                      if first <= j < first + i && old(items[j]) <= now && slots[j - first] == t then 1.0 else 0.0
      {
        if items[first + i] <= now {
          enqueued := enqueued + [first + i];
          frequency[first + i, slots[i]] := frequency[first + i, slots[i]] + 1.0;
          items[first + i] := (looks[i].after as real + looks[i].period).Floor;
        }
      }
      DueItemsExact(old(items[..]), first, count, now);
    }

    /** updateThread's endless loop, for as many rounds as it makes. Each item of the slice goes through its
        looks as Follow says, and the rounds that enqueue it are those at whose looks it was due; so no
        window holds more of them than the periods allow. */
    method Rounds(rounds: seq<Round>) returns (enqueued: seq<seq<nat>>)
      requires Valid() && Clocked(rounds, count)
      modifies items, frequency
      ensures |enqueued| == |rounds| && Followed(old(items[..]), items[..], rounds, enqueued, first, count)
      ensures forall i: nat :: i < count ==> RateOk(Picked(rounds, enqueued, first, i), LooksAt(rounds, i))
      ensures forall j :: 0 <= j < items.Length && !(first <= j < first + count) ==> items[j] == old(items[j])
    {
      enqueued := [];
      for r := 0 to |rounds|
        invariant |enqueued| == r && Clocked(rounds[..r], count)
        invariant Followed(old(items[..]), items[..], rounds[..r], enqueued, first, count)
        invariant forall j :: 0 <= j < items.Length && !(first <= j < first + count) ==> items[j] == old(items[j])
      {
        ghost var was := items[..];
        var due := Pass(rounds[r].now, rounds[r].looks, rounds[r].slots);
        ClockedPrefix(rounds, count, r + 1);
        OneMoreRound(rounds, r, enqueued, due, first, count, old(items[..]), was, items[..]);
        enqueued := enqueued + [due];
      }
      assert rounds[..|rounds|] == rounds;
      RatesBounded(old(items[..]), items[..], rounds, enqueued, first, count);
    }
  }
}
