/** The limiter seen by execution time: a hit may execute up to a delay after it read the clock,
    so a stretch of one window can hold hits of more than two buckets. */
module ExecutionWindows {
  import opened Clock
  import opened RateLimit

  // ---------------------------------------------------------------- at most

  predicate ExecutedIn(e: Event, action: string, identifier: string, from: int, window: int) {
    e.action == action && e.identifier == identifier && from <= e.now < from + window * SECOND
  }

  /** Hits let through that execute in the given `window` seconds. */
  function AdmittedExecuted(run: seq<Event>, window: int, limit: int, n: nat, action: string, identifier: string,
                            from: int): nat
    requires n <= |run| && window >= 1
  {
    if n == 0 then 0
    else AdmittedExecuted(run, window, limit, n - 1, action, identifier, from) +
         (if ExecutedIn(run[n - 1], action, identifier, from, window) && Admits(run, window, limit, n - 1) then 1
          else 0)
  }

  /** How many buckets the hits of such a stretch can belong to: two, and one more for each
      window, or part of one, of delay beyond the first microsecond. */
  function BucketsMet(window: int, delay: nat): (m: nat)
    requires window >= 1
    ensures m == 2 <==> delay <= 1
    ensures m == 3 <==> 2 <= delay <= window * SECOND + 1
  {
    QuotientCases(delay - 2, window * SECOND);
    3 + (delay - 2) / (window * SECOND)
  }

  lemma QuotientCases(d: int, u: int)
    requires d >= -2 && u >= 2
    ensures -1 <= d / u
    ensures d / u == -1 <==> d < 0
    ensures d / u == 0 <==> 0 <= d < u
  {
    var q := d / u;
    assert q * u <= d < q * u + u;
    if q >= 1 {
      assert q * u >= u;
    }
  }

  lemma StartIs(bucket: int, window: int)
    ensures Start(bucket, window) == bucket * (window * SECOND)
  {
  }

  lemma StartMonotone(a: int, b: int, window: int)
    requires window >= 1 && a <= b
    ensures Start(a, window) <= Start(b, window)
  {
    StartIs(a, window);
    StartIs(b, window);
  }

  /** An instant before the start of a bucket is in an earlier one. */
  lemma BeforeBucket(read: int, window: int, bucket: int)
    requires window >= 1 && read < Start(bucket, window)
    ensures Bucket(read, window) < bucket
  {
    BucketIs(read, window, Bucket(read, window));
    if bucket <= Bucket(read, window) {
      StartMonotone(bucket, Bucket(read, window), window);
    }
  }

  lemma BucketMonotone(a: int, b: int, window: int)
    requires window >= 1 && a <= b
    ensures Bucket(a, window) <= Bucket(b, window)
  {
    BucketIs(b, window, Bucket(b, window));
    BeforeBucket(a, window, Bucket(b, window) + 1);
  }

  /** The buckets past the second make up for the delay. */
  lemma DelayFits(window: int, delay: nat)
    requires window >= 1
    ensures delay - 2 < (BucketsMet(window, delay) - 2) * (window * SECOND)
  {
    var u := window * SECOND;
    var q := (delay - 2) / u;
    assert delay - 2 < q * u + u;
    assert (1 + q) * u == q * u + u;
  }

  lemma StretchMeetsBuckets(e: Event, action: string, identifier: string, from: int, window: int, delay: nat)
    requires window >= 1 && ExecutedIn(e, action, identifier, from, window)
    requires e.read <= e.now <= e.read + delay
    ensures var b := Bucket(from - delay, window);
            b <= Bucket(e.read, window) < b + BucketsMet(window, delay)
  {
    var b, m := Bucket(from - delay, window), BucketsMet(window, delay);
    BucketMonotone(from - delay, e.read, window);
    BucketIs(from - delay, window, b);
    DelayFits(window, delay);
    StartAfter(b + 1, m - 1, window);
    OneLess(m - 1, window * SECOND);
    BeforeBucket(e.read, window, b + m);
  }

  lemma StartAfter(bucket: int, more: int, window: int)
    ensures Start(bucket + more, window) == Start(bucket, window) + more * (window * SECOND)
  {
    StartIs(bucket, window);
    StartIs(bucket + more, window);
  }

  lemma OneLess(k: int, u: int)
    ensures k * u == (k - 1) * u + u
  {
  }

  /** Hits let through by m buckets in a row. */
  function AdmittedBy(run: seq<Event>, window: int, limit: int, n: nat, action: string, identifier: string, b: int,
                      m: nat): nat
    requires n <= |run| && window >= 1
  {
    if m == 0 then 0
    else AdmittedBy(run, window, limit, n, action, identifier, b, m - 1)
         + Admitted(run, window, limit, n, Key(action, identifier, b + m - 1))
  }

  /** One more hit let through counts in its own bucket. */
  lemma {:induction false} OneHitMore(run: seq<Event>, window: int, limit: int, n: nat, action: string,
                                      identifier: string, b: int, m: nat)
    requires 0 < n <= |run| && window >= 1
    ensures var e := run[n - 1];
            var c := Bucket(e.read, window);
            AdmittedBy(run, window, limit, n, action, identifier, b, m) ==
            AdmittedBy(run, window, limit, n - 1, action, identifier, b, m)
            + (if e.action == action && e.identifier == identifier && b <= c < b + m
               && Admits(run, window, limit, n - 1) then 1 else 0)
  {
    if m > 0 {
      OneHitMore(run, window, limit, n, action, identifier, b, m - 1);
    }
  }

  lemma {:induction false} AdmittedByAtMost(run: seq<Event>, window: int, limit: int, action: string,
                                            identifier: string, b: int, m: nat)
    requires window >= 1 && Orderly(run)
    ensures AdmittedBy(run, window, limit, |run|, action, identifier, b, m) <= m * Max(limit, 0)
  {
    if m > 0 {
      AdmittedByAtMost(run, window, limit, action, identifier, b, m - 1);
      EachBucketAdmitsTheLimit(run, window, limit, |run|, Key(action, identifier, b + m - 1));
      assert m * Max(limit, 0) == (m - 1) * Max(limit, 0) + Max(limit, 0);
    }
  }

  lemma {:induction false} ExecutedAreOfTheBuckets(
    run: seq<Event>, window: int, limit: int, n: nat, action: string, identifier: string, from: int, delay: nat)
    requires n <= |run| && window >= 1 && OnTime(run, delay)
    ensures AdmittedExecuted(run, window, limit, n, action, identifier, from) <=
            AdmittedBy(run, window, limit, n, action, identifier, Bucket(from - delay, window),
                       BucketsMet(window, delay))
  {
    if n > 0 {
      ExecutedAreOfTheBuckets(run, window, limit, n - 1, action, identifier, from, delay);
      OneHitMore(run, window, limit, n, action, identifier, Bucket(from - delay, window), BucketsMet(window, delay));
      if ExecutedIn(run[n - 1], action, identifier, from, window) {
        StretchMeetsBuckets(run[n - 1], action, identifier, from, window, delay);
      }
    } else {
      NothingAdmitted(run, window, limit, action, identifier, Bucket(from - delay, window), BucketsMet(window, delay));
    }
  }

  lemma {:induction false} NothingAdmitted(run: seq<Event>, window: int, limit: int, action: string,
                                           identifier: string, b: int, m: nat)
    requires window >= 1
    ensures AdmittedBy(run, window, limit, 0, action, identifier, b, m) == 0
  {
    if m > 0 {
      NothingAdmitted(run, window, limit, action, identifier, b, m - 1);
    }
  }

  /** Of the hits that execute in any stretch of `window` seconds, at most so many limits get
      through. */
  lemma ExecutedAtMost(run: seq<Event>, window: int, limit: int, action: string, identifier: string, from: int,
                       delay: nat)
    requires window >= 1 && OnTime(run, delay) && delay <= GRACE * SECOND
    ensures AdmittedExecuted(run, window, limit, |run|, action, identifier, from)
            <= BucketsMet(window, delay) * Max(limit, 0)
  {
    assert Orderly(run);
    ExecutedAreOfTheBuckets(run, window, limit, |run|, action, identifier, from, delay);
    AdmittedByAtMost(run, window, limit, action, identifier, Bucket(from - delay, window), BucketsMet(window, delay));
  }

  // ---------------------------------------------------------------- and no fewer

  /** Hit k of a burst: of bucket k, executed when the first one is, a whole delay after the end
      of its bucket, or when its own bucket begins, if that is later. */
  function BurstEvent(window: int, delay: nat, k: nat): Event {
    var u := window * SECOND;
    var now := Max(u - 1 + delay, k * u);
    Event("a", "x", Min(now, k * u + u - 1), now)
  }

  function Burst(window: int, delay: nat, m: nat): seq<Event> {
    seq(m, k requires 0 <= k < m => BurstEvent(window, delay, k))
  }

  lemma BurstIsOnTime(window: int, delay: nat, m: nat)
    requires window >= 1
    ensures OnTime(Burst(window, delay, m), delay)
  {
    var u := window * SECOND;
    forall k: nat | k < m
      ensures k * u >= 0
    {
    }
    forall i: nat, j: nat | i < j < m
      ensures i * u <= j * u
    {
      OneStepUp(i, j, u);
    }
  }

  lemma OneStepUp(i: nat, j: nat, u: nat)
    requires i <= j
    ensures i * u <= j * u
  {
    assert j * u == i * u + (j - i) * u;
  }

  lemma BurstBucket(window: int, delay: nat, k: nat)
    requires window >= 1
    ensures Bucket(BurstEvent(window, delay, k).read, window) == k
  {
    var u := window * SECOND;
    StartIs(k, window);
    StartIs(k + 1, window);
    assert (k + 1) * u == k * u + u;
    if k == 0 {
      assert k * u == 0;
    } else {
      OneStepUp(1, k, u);
    }
    BucketIs(BurstEvent(window, delay, k).read, window, k);
  }

  /** The first BucketsMet hits execute within one window. */
  lemma BurstIsShort(window: int, delay: nat, k: nat)
    requires window >= 1 && k < BucketsMet(window, delay)
    ensures ExecutedIn(BurstEvent(window, delay, k), "a", "x", window * SECOND - 1 + delay, window)
  {
    var u := window * SECOND;
    var q := (delay - 2) / u;
    assert q * u <= delay - 2;
    assert (q + 2) * u == q * u + 2 * u;
    if k <= q + 2 && q + 2 >= 0 {
      OneStepUp(k, q + 2, u);
    }
  }

  lemma {:induction false} HitsOfBurst(window: int, delay: nat, m: nat, n: nat, k: nat)
    requires window >= 1 && n <= m
    ensures Hits(Burst(window, delay, m), window, n, Key("a", "x", k)) == if k < n then 1 else 0
  {
    if n > 0 {
      HitsOfBurst(window, delay, m, n - 1, k);
      BurstBucket(window, delay, n - 1);
    }
  }

  lemma {:induction false} BurstGetsThrough(window: int, delay: nat, m: nat, n: nat)
    requires window >= 1 && delay <= GRACE * SECOND && n <= m <= BucketsMet(window, delay)
    ensures AdmittedExecuted(Burst(window, delay, m), window, 1, n, "a", "x", window * SECOND - 1 + delay) == n
  {
    if n > 0 {
      var run := Burst(window, delay, m);
      BurstGetsThrough(window, delay, m, n - 1);
      BurstIsOnTime(window, delay, m);
      BurstIsShort(window, delay, n - 1);
      BurstBucket(window, delay, n - 1);
      HitsOfBurst(window, delay, m, n, n - 1);
      AnswerIsTheHitCount(run, window, n - 1);
    }
  }

  // ---------------------------------------------------------------- main results

  /** Whatever the run, a stretch of `window` seconds lets through at most `factor` limits of
      the hits that execute in it. */
  ghost predicate KeepsLimits(window: int, delay: nat, factor: nat)
    requires window >= 1
  {
    forall run, limit: nat, action, identifier, from | OnTime(run, delay) ::
      AdmittedExecuted(run, window, limit, |run|, action, identifier, from) <= factor * limit
  }

  /** BucketsMet is the least number of limits that always holds. */
  lemma LimitsKeptExactly(window: int, delay: nat, factor: nat)
    requires window >= 1 && delay <= GRACE * SECOND
    ensures KeepsLimits(window, delay, factor) <==> BucketsMet(window, delay) <= factor
  {
    var m := BucketsMet(window, delay);
    if m <= factor {
      forall run, limit: nat, action, identifier, from | OnTime(run, delay)
        ensures AdmittedExecuted(run, window, limit, |run|, action, identifier, from) <= factor * limit
      {
        ExecutedAtMost(run, window, limit, action, identifier, from, delay);
        OneStepUp(m, factor, limit);
      }
    } else {
      BurstIsOnTime(window, delay, m);
      BurstGetsThrough(window, delay, m, m);
      var run := Burst(window, delay, m);
      assert AdmittedExecuted(run, window, 1, |run|, "a", "x", window * SECOND - 1 + delay) > factor * 1;
    }
  }

  /** Twice the limit holds by execution time exactly when hits execute within a microsecond of
      reading the clock, whatever the window. */
  lemma TwoLimitsExactly(window: int, delay: nat)
    requires window >= 1
    ensures KeepsLimits(window, delay, 2) <==> delay <= 1
  {
    if delay <= GRACE * SECOND {
      LimitsKeptExactly(window, delay, 2);
    } else {
      LimitsKeptExactly(window, 2, 2);
      if KeepsLimits(window, delay, 2) {
        LongerDelayIsWorse(window, 2, delay, 2);
      }
    }
  }

  lemma LongerDelayIsWorse(window: int, delay: nat, longer: nat, factor: nat)
    requires window >= 1 && delay <= longer && KeepsLimits(window, longer, factor)
    ensures KeepsLimits(window, delay, factor)
  {
    forall run, limit: nat, action, identifier, from | OnTime(run, delay)
      ensures AdmittedExecuted(run, window, limit, |run|, action, identifier, from) <= factor * limit
    {
      assert OnTime(run, longer);
    }
  }

  /** Three hits get through a limit of one within ten seconds of execution: the first one waited
      its five seconds at the end of its bucket. */
  lemma ThreeGetThrough() returns (run: seq<Event>)
    ensures Orderly(run) && AdmittedExecuted(run, 10, 1, |run|, "a", "x", 14 * SECOND) == 3
  {
    var first := Event("a", "x", 9 * SECOND, 14 * SECOND);
    var second := Event("a", "x", 15 * SECOND, 15 * SECOND);
    var third := Event("a", "x", 20 * SECOND, 20 * SECOND);
    run := [first, second, third];
    BucketIs(first.read, 10, 0);
    BucketIs(second.read, 10, 1);
    BucketIs(third.read, 10, 2);
    assert KeyOf(run[0], 10) == Key("a", "x", 0) && KeyOf(run[1], 10) == Key("a", "x", 1)
           && KeyOf(run[2], 10) == Key("a", "x", 2);
    ThreeBuckets(run, Key("a", "x", 0), Key("a", "x", 1), Key("a", "x", 2));
    assert AdmittedExecuted(run, 10, 1, 1, "a", "x", 14 * SECOND) == 1;
    assert AdmittedExecuted(run, 10, 1, 2, "a", "x", 14 * SECOND) == 2;
  }

  /** Three hits of three buckets all get through. */
  lemma ThreeBuckets(run: seq<Event>, k0: Key, k1: Key, k2: Key)
    requires Orderly(run) && |run| == 3 && k0 != k1 && k0 != k2 && k1 != k2
    requires KeyOf(run[0], 10) == k0 && KeyOf(run[1], 10) == k1 && KeyOf(run[2], 10) == k2
    ensures Admits(run, 10, 1, 0) && Admits(run, 10, 1, 1) && Admits(run, 10, 1, 2)
  {
    AnswerIsTheHitCount(run, 10, 0);
    AnswerIsTheHitCount(run, 10, 1);
    AnswerIsTheHitCount(run, 10, 2);
    assert Hits(run, 10, 1, k0) == 1 && Hits(run, 10, 1, k1) == 0 && Hits(run, 10, 1, k2) == 0;
    assert Hits(run, 10, 2, k1) == 1 && Hits(run, 10, 2, k2) == 0;
  }
}
