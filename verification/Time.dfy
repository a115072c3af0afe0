/** The time arithmetic of chronos.h on seconds and nanoseconds, with C's truncating division. */
module Time {

  const NSEC: int := 1_000_000_000
  const SEC_TO_MSEC: int := 1000
  const NSEC_TO_MSEC: int := 1_000_000

  /** A struct timespec. */
  datatype Stamp = Stamp(sec: int, nsec: int)

  /** C's `/` and `%`: the quotient is cut towards zero, the remainder has the dividend's sign. */
  function CDiv(a: int, b: int): int
    requires b != 0
  {
    if a >= 0 then a / b else -((-a) / b)
  }

  function CMod(a: int, b: int): int
    requires b != 0
  {
    a - CDiv(a, b) * b
  }

  /** The nanoseconds a stamp stands for. */
  function Total(t: Stamp): int {
    t.sec * NSEC + t.nsec
  }

  predicate Normal(t: Stamp) {
    0 <= t.nsec < NSEC
  }

  /** A signed interval as CHRONOS_TIME_NANO_OFFSET_GET leaves it. */
  predicate Signed(t: Stamp) {
    -NSEC < t.nsec < NSEC && (t.sec > 0 ==> t.nsec >= 0) && (t.sec < 0 ==> t.nsec <= 0)
  }

  function ToMs(t: Stamp): int {
    t.sec * SEC_TO_MSEC + CDiv(t.nsec, NSEC_TO_MSEC)
  }

  function Negated(t: Stamp): Stamp {
    Stamp(-t.sec, -t.nsec)
  }

  /** CHRONOS_TIME_NANO_OFFSET_GET: for normalised stamps the interval is exact, and its two parts
      never have opposite signs. */
  method NanoOffset(begin: Stamp, end: Stamp) returns (off: Stamp)
    requires Normal(begin) && Normal(end)
    ensures Total(off) == Total(end) - Total(begin)
    ensures Signed(off)
  {
    var tf, to := end, begin;
    if tf.sec > to.sec && tf.nsec < to.nsec {
      tf := tf.(sec := tf.sec - 1);
      tf := tf.(nsec := tf.nsec + NSEC);
    } else if tf.sec < to.sec && tf.nsec > to.nsec {
      to := to.(sec := to.sec - 1);
      to := to.(nsec := to.nsec + NSEC);
    }
    off := Stamp(tf.sec - to.sec, tf.nsec - to.nsec);
  }

  /** The signed form of an amount of time is unique, so NanoOffset's contract fixes its result: one
      amount has one such form, and swapping begin and end negates both parts. */
  lemma SignedUnique(a: Stamp, b: Stamp)
    requires Signed(a) && Signed(b)
    ensures Total(a) == Total(b) ==> a == b
    ensures Total(a) == -Total(b) ==> a == Negated(b)
  {
  }

  /** The millisecond value of an interval is its exact length cut towards zero, and so the same in
      both directions up to sign. */
  lemma MsOfInterval(t: Stamp)
    requires Signed(t)
    ensures ToMs(t) == CDiv(Total(t), NSEC_TO_MSEC)
    ensures ToMs(Negated(t)) == -ToMs(t)
  {
    if t.sec >= 0 && t.nsec >= 0 {
      MsRounds(t.sec, t.nsec);
    } else {
      assert t.sec <= 0 && t.nsec <= 0;
      MsRounds(-t.sec, -t.nsec);
    }
  }

  lemma MsRounds(sec: int, nsec: int)
    requires sec >= 0 && nsec >= 0
    ensures (sec * NSEC + nsec) / NSEC_TO_MSEC == sec * SEC_TO_MSEC + nsec / NSEC_TO_MSEC
  {
  }

  /** CHRONOS_TIME_SEC_OFFSET_GET: the whole seconds between two stamps, cut towards zero. */
  method SecOffset(begin: Stamp, end: Stamp) returns (off: Stamp)
    requires Normal(begin) && Normal(end)
    ensures off == Stamp(CDiv(Total(end) - Total(begin), NSEC), 0)
  {
    var tf, to := end, begin;
    if tf.sec > to.sec && tf.nsec < to.nsec {
      tf := tf.(sec := tf.sec - 1);
      tf := tf.(nsec := tf.nsec + NSEC);
    } else if tf.sec < to.sec && tf.nsec > to.nsec {
      to := to.(sec := to.sec - 1);
      to := to.(nsec := to.nsec + NSEC);
    }
    off := Stamp(tf.sec - to.sec, 0);
  }

  /** What CHRONOS_TIME_ADD computes. */
  function Sum(a: Stamp, b: Stamp): Stamp {
    var n := a.nsec + b.nsec;
    if n > NSEC then Stamp(CDiv(n, NSEC) + (a.sec + b.sec), CMod(n, NSEC)) else Stamp(a.sec + b.sec, n)
  }

  /** CHRONOS_TIME_ADD: the sum is exact; a nanosecond part of exactly one second is not carried. */
  method Add(t1: Stamp, t2: Stamp) returns (res: Stamp)
    ensures res == Sum(t1, t2)
    ensures Total(res) == Total(t1) + Total(t2)
    ensures Normal(t1) && Normal(t2) ==> (Normal(res) <==> t1.nsec + t2.nsec != NSEC)
  {
    res := Stamp(0, t1.nsec + t2.nsec);
    if res.nsec > NSEC {
      res := res.(sec := CDiv(res.nsec, NSEC));
      res := res.(nsec := CMod(res.nsec, NSEC));
    }
    res := res.(sec := res.sec + (t1.sec + t2.sec));
  }

  /** Adding up a list from zero. */
  function SumAll(ts: seq<Stamp>): Stamp {
    if ts == [] then Stamp(0, 0) else Sum(SumAll(ts[..|ts| - 1]), ts[|ts| - 1])
  }

  function TotalAll(ts: seq<Stamp>): int {
    if ts == [] then 0 else TotalAll(ts[..|ts| - 1]) + Total(ts[|ts| - 1])
  }

  /** Over any list of normalised stamps the accumulated total is exact with at most a second of
      nanoseconds. The sum fails to be normalised exactly when the total is a whole number of seconds
      to which some nanoseconds contributed. */
  lemma {:induction false} SumAllExact(ts: seq<Stamp>)
    requires forall i :: 0 <= i < |ts| ==> Normal(ts[i])
    ensures Total(SumAll(ts)) == TotalAll(ts)
    ensures 0 <= SumAll(ts).nsec <= NSEC
    ensures SumAll(ts).nsec == 0 <==> forall i :: 0 <= i < |ts| ==> ts[i].nsec == 0
    ensures Normal(SumAll(ts)) <==>
              TotalAll(ts) % NSEC != 0 || forall i :: 0 <= i < |ts| ==> ts[i].nsec == 0
  {
    if ts != [] {
      var init, last := ts[..|ts| - 1], ts[|ts| - 1];
      SumAllExact(init);
      assert forall i :: 0 <= i < |ts| ==> ts[i] == if i < |init| then init[i] else last;
      assert (forall i :: 0 <= i < |ts| ==> ts[i].nsec == 0)
        <==> last.nsec == 0 && forall i :: 0 <= i < |init| ==> init[i].nsec == 0;
      WholeSeconds(SumAll(ts));
    }
  }

  lemma WholeSeconds(t: Stamp)
    requires 0 <= t.nsec <= NSEC
    ensures Total(t) % NSEC == 0 <==> t.nsec == 0 || t.nsec == NSEC
  {
  }

  /** CHRONOS_TIME_AVERAGE: a count of zero leaves the result field alone. Otherwise the result times the
      count is the total up to less than the count, whatever the signs; and for a positive count and a sum
      without negative parts it is the quotient rounded down, in normal form. */
  method Average(sum: Stamp, num: int, was: Stamp) returns (res: Stamp)
    ensures num == 0 ==> res == was
    ensures num != 0 ==> -Abs(num) < Total(sum) - num * Total(res) < Abs(num)
    ensures num > 0 && sum.sec >= 0 && sum.nsec >= 0 ==> Total(res) == Total(sum) / num && Normal(res)
  {
    res := was;
    if num != 0 {
      res := res.(sec := CDiv(sum.sec, num));
      var mod := NSEC * CMod(sum.sec, num);
      res := res.(nsec := CDiv(mod + sum.nsec, num));
      AverageParts(sum, num);
      if res.nsec >= NSEC {
        mod := CDiv(res.nsec, NSEC);
        res := res.(sec := res.sec + mod);
        mod := CMod(res.nsec, NSEC);
        res := res.(nsec := mod);
      }
      if num > 0 && sum.sec >= 0 && sum.nsec >= 0 {
        AverageExact(sum, num);
      }
    }
  }

  function Abs(x: int): int {
    if x >= 0 then x else -x
  }

  lemma CDivClose(a: int, b: int)
    requires b != 0
    ensures a == CDiv(a, b) * b + CMod(a, b)
    ensures -Abs(b) < CMod(a, b) < Abs(b)
  {
    var x := if a >= 0 then a else -a;
    assert x == x / b * b + x % b;
    if a < 0 {
      assert CDiv(a, b) * b == -(x / b * b);
    }
  }

  /** Before the carry. */
  lemma AverageParts(sum: Stamp, num: int)
    requires num != 0
    ensures var t := CDiv(sum.sec, num) * NSEC + CDiv(NSEC * CMod(sum.sec, num) + sum.nsec, num);
            -Abs(num) < Total(sum) - num * t < Abs(num)
  {
    var q, r := CDiv(sum.sec, num), CMod(sum.sec, num);
    var x := NSEC * r + sum.nsec;
    var y := CDiv(x, num);
    CDivClose(sum.sec, num);
    CDivClose(x, num);
    assert num * (q * NSEC + y) == q * num * NSEC + y * num;
    assert (q * num + r) * NSEC == q * num * NSEC + r * NSEC;
  }

  lemma AverageExact(sum: Stamp, num: int)
    requires num > 0 && sum.sec >= 0 && sum.nsec >= 0
    ensures var y := CDiv(NSEC * CMod(sum.sec, num) + sum.nsec, num);
            y >= 0 && CDiv(sum.sec, num) * NSEC + y == Total(sum) / num
  {
    var q, r := sum.sec / num, sum.sec % num;
    assert sum.sec == q * num + r && 0 <= r < num;
    assert CMod(sum.sec, num) == r;
    var x := NSEC * r + sum.nsec;
    var y := x / num;
    assert x == y * num + x % num;
    assert Total(sum) == (q * NSEC + y) * num + x % num by {
      assert (q * num + r) * NSEC == q * NSEC * num + r * NSEC;
      assert (q * NSEC + y) * num == q * NSEC * num + y * num;
    }
    Quotient(Total(sum), num, q * NSEC + y, x % num);
  }

  lemma Quotient(a: int, b: int, q: int, r: int)
    requires b > 0 && 0 <= r < b && a == q * b + r
    ensures a / b == q
  {
    var d := a / b - q;
    assert d * b == r - a % b;
    Multiple(d, b);
  }

  lemma Multiple(d: int, b: int)
    requires b > 0
    ensures d > 0 ==> d * b >= b
    ensures d < 0 ==> d * b <= -b
  {
  }

  /** CHRONOS_MS_TO_TIME, for any number of milliseconds: converting back gives them again, and the
      parts never have opposite signs. */
  method MsToTime(ms: int) returns (t: Stamp)
    ensures ToMs(t) == ms
    ensures Signed(t)
    ensures Total(t) == ms * NSEC_TO_MSEC
  {
    t := Stamp(CDiv(ms, SEC_TO_MSEC), 0);
    t := t.(nsec := CMod(ms, SEC_TO_MSEC) * NSEC_TO_MSEC);
    assert t.nsec == NSEC_TO_MSEC * CMod(ms, SEC_TO_MSEC);
    assert CDiv(t.nsec, NSEC_TO_MSEC) == CMod(ms, SEC_TO_MSEC);
  }
}
