/** The fixed-window rate limiter: buckets aligned to the clock, one expiring counter each. */
module RateLimit {
  import opened Clock

  /** Seconds a counter outlives its window: the slack between reading the clock and executing. */
  const GRACE := 5

  datatype Key = Key(action: string, identifier: string, bucket: int)

  datatype Counter = Counter(value: nat, until: int)

  type Counters = map<Key, Counter>

  // ---------------------------------------------------------------- buckets

  function Bucket(read: int, window: int): int
    requires window >= 1
  {
    (read / SECOND) / window
  }

  function RetryAfter(read: int, window: int): int
    requires window >= 1
  {
    Max(1, window - (read / SECOND) % window)
  }

  function Start(bucket: int, window: int): int {
    bucket * window * SECOND
  }

  /** Buckets are windows one after the other: an instant is in the only one that contains it. */
  lemma BucketIs(read: int, window: int, bucket: int)
    requires window >= 1
    ensures Bucket(read, window) == bucket <==> Start(bucket, window) <= read < Start(bucket + 1, window)
  {
    QuotientIs(read / SECOND, window, bucket);
    assert Start(bucket, window) == (bucket * window) * SECOND;
    assert Start(bucket + 1, window) == ((bucket + 1) * window) * SECOND;
    SecondsScale(read, bucket * window);
    SecondsScale(read, (bucket + 1) * window);
  }

  lemma ProductsOrdered(a: int, b: int, u: int)
    requires u >= 0 && a <= b
    ensures a * u <= b * u
  {
    assert b * u == a * u + (b - a) * u;
  }

  lemma QuotientIs(s: int, window: int, q: int)
    requires window >= 1
    ensures s / window == q <==> q * window <= s < (q + 1) * window
  {
    var p := s / window;
    assert p * window <= s < (p + 1) * window by {
      assert (p + 1) * window == p * window + window;
    }
    if p < q {
      ProductsOrdered(p + 1, q, window);
    } else if q < p {
      ProductsOrdered(q + 1, p, window);
    }
  }

  lemma SecondsScale(t: int, seconds: int)
    ensures seconds * SECOND <= t <==> seconds <= t / SECOND
  {
  }

  /** `retry_after` is the least number of whole seconds to wait: then, and not a second
      before, the clock is in the next bucket. It lies between 1 and the window. */
  lemma RetryIsTheLeastWait(read: int, window: int, wait: int)
    requires window >= 1 && 0 <= wait <= window
    ensures 1 <= RetryAfter(read, window) <= window
    ensures Bucket(read + wait * SECOND, window) ==
            Bucket(read, window) + (if wait < RetryAfter(read, window) then 0 else 1)
  {
    var s, b := read / SECOND, Bucket(read, window);
    assert (read + wait * SECOND) / SECOND == s + wait;
    assert s == b * window + s % window;
    assert (b + 1) * window == b * window + window && (b + 2) * window == b * window + 2 * window;
    BucketIs(read + wait * SECOND, window, if wait < RetryAfter(read, window) then b else b + 1);
  }

  // ---------------------------------------------------------------- the counters

  predicate Alive(counters: Counters, now: int, key: Key) {
    key in counters && now < counters[key].until
  }

  function Value(counters: Counters, now: int, key: Key): nat {
    if Alive(counters, now, key) then counters[key].value else 0
  }

  /** INCR and EXPIRE in one pipeline. */
  function Hit(counters: Counters, now: int, key: Key, window: int): Counters {
    counters[key := Counter(Value(counters, now, key) + 1, now + (window + GRACE) * SECOND)]
  }

  class RateLimiter {
    var counters: Counters

    constructor ()
      ensures counters == map[]
    {
      counters := map[];
    }

    /** `_hit_rate_limit`: the clock is read at `read` and the pipeline executes at `now`. */
    method HitRateLimit(action: string, identifier: string, limit: int, window: int, read: int, now: int)
      returns (retry: Option<int>)
      requires window >= 1
      modifies this
      ensures var key := Key(action, identifier, Bucket(read, window));
              && counters == Hit(old(counters), now, key, window)
              && retry == if counters[key].value > limit then Some(RetryAfter(read, window)) else None
    {
      var key := Key(action, identifier, Bucket(read, window));
      var current := if key in counters && now < counters[key].until then counters[key].value + 1 else 1;
      counters := counters[key := Counter(current, now + (window + GRACE) * SECOND)];
      retry := if current > limit then Some(RetryAfter(read, window)) else None;
    }

    /** `subject_quota_exhausted`: reads without consuming. */
    method SubjectQuotaExhausted(action: string, subject: string, limit: int, window: int, read: int, now: int)
      returns (retry: Option<int>)
      requires window >= 1
      ensures retry == QuotaRead(counters, action, subject, limit, window, read, now)
    {
      var key := Key(action, "subject:" + subject, Bucket(read, window));
      retry := None;
      if key in counters && now < counters[key].until && counters[key].value >= limit {
        retry := Some(RetryAfter(read, window));
      }
    }

    /** `enforce_rate_limit`: the address first and, only if it is within its limit, the
        subject in lower case; each has its own bucket, and an empty subject has none. */
    method EnforceRateLimit(action: string, ip: string, subject: Option<string>, lower: string -> string,
                            limit: int, window: int, readIp: int, nowIp: int, readSubject: int, nowSubject: int)
      returns (retry: Option<int>)
      requires window >= 1
      modifies this
      ensures var ipKey := Key(action, "ip:" + ip, Bucket(readIp, window));
              var afterIp := Hit(old(counters), nowIp, ipKey, window);
              if afterIp[ipKey].value > limit || subject.GetOr("") == "" then
                counters == afterIp
                && retry == if afterIp[ipKey].value > limit then Some(RetryAfter(readIp, window)) else None
              else
                var key := Key(action, "subject:" + lower(subject.value), Bucket(readSubject, window));
                counters == Hit(afterIp, nowSubject, key, window)
                && retry == if counters[key].value > limit then Some(RetryAfter(readSubject, window)) else None
    {
      retry := HitRateLimit(action, "ip:" + ip, limit, window, readIp, nowIp);
      if retry.None? && subject.GetOr("") != "" {
        retry := HitRateLimit(action, "subject:" + lower(subject.value), limit, window, readSubject, nowSubject);
      }
    }
  }

  function QuotaRead(counters: Counters, action: string, subject: string, limit: int, window: int, read: int,
                     now: int): Option<int>
    requires window >= 1
  {
    var key := Key(action, "subject:" + subject, Bucket(read, window));
    if Alive(counters, now, key) && counters[key].value >= limit then Some(RetryAfter(read, window)) else None
  }

  // ---------------------------------------------------------------- runs

  /** A hit of an action by an identifier; several of them interleave. */
  datatype Event = Event(action: string, identifier: string, read: int, now: int)

  function KeyOf(e: Event, window: int): Key
    requires window >= 1
  {
    Key(e.action, e.identifier, Bucket(e.read, window))
  }

  /** Redis executes one hit after the other, each at most `delay` after its clock read. */
  predicate OnTime(run: seq<Event>, delay: int) {
    && (forall i | 0 <= i < |run| :: run[i].read <= run[i].now <= run[i].read + delay)
    && (forall i, j | 0 <= i < j < |run| :: run[i].now <= run[j].now)
  }

  predicate Orderly(run: seq<Event>) {
    OnTime(run, GRACE * SECOND)
  }

  function After(run: seq<Event>, window: int, n: nat): Counters
    requires n <= |run| && window >= 1
  {
    if n == 0 then map[]
    else Hit(After(run, window, n - 1), run[n - 1].now, KeyOf(run[n - 1], window), window)
  }

  /** Hits of a bucket among the first n events. */
  function Hits(run: seq<Event>, window: int, n: nat, key: Key): nat
    requires n <= |run| && window >= 1
  {
    if n == 0 then 0 else Hits(run, window, n - 1, key) + (if KeyOf(run[n - 1], window) == key then 1 else 0)
  }

  /** What the pipeline of event i answers, and whether the limiter lets it through. */
  function Answer(run: seq<Event>, window: int, i: nat): nat
    requires i < |run| && window >= 1
  {
    After(run, window, i + 1)[KeyOf(run[i], window)].value
  }

  predicate Admits(run: seq<Event>, window: int, limit: int, i: nat)
    requires i < |run| && window >= 1
  {
    Answer(run, window, i) <= limit
  }

  function Admitted(run: seq<Event>, window: int, limit: int, n: nat, key: Key): nat
    requires n <= |run| && window >= 1
  {
    if n == 0 then 0
    else Admitted(run, window, limit, n - 1, key) +
         (if KeyOf(run[n - 1], window) == key && Admits(run, window, limit, n - 1) then 1 else 0)
  }

  /** A counter holds the hits of its bucket and outlives every hit the bucket can still get. */
  ghost predicate Counts(run: seq<Event>, window: int, n: nat, key: Key)
    requires n <= |run| && window >= 1
  {
    var counters := After(run, window, n);
    && (key in counters <==> Hits(run, window, n, key) > 0)
    && (key in counters ==>
          && counters[key].value == Hits(run, window, n, key)
          && Start(key.bucket + 1, window) + GRACE * SECOND <= counters[key].until)
  }

  /** The last instant at which a hit of a bucket can execute comes before its counter expires. */
  lemma HitFindsItAlive(e: Event, window: int)
    requires window >= 1 && e.read <= e.now <= e.read + GRACE * SECOND
    ensures var next := Start(Bucket(e.read, window) + 1, window);
            && e.now < next + GRACE * SECOND
            && next + GRACE * SECOND <= e.now + (window + GRACE) * SECOND
  {
    var b := Bucket(e.read, window);
    BucketIs(e.read, window, b);
    assert (b + 1) * window * SECOND == b * window * SECOND + window * SECOND;
  }

  lemma {:induction false} CountsAlways(run: seq<Event>, window: int, n: nat, key: Key)
    requires n <= |run| && window >= 1 && Orderly(run)
    ensures Counts(run, window, n, key)
  {
    if n > 0 {
      CountsAlways(run, window, n - 1, key);
      HitFindsItAlive(run[n - 1], window);
    }
  }

  // ---------------------------------------------------------------- main results

  /** A counter never expires while its bucket can still be hit: every answer is the exact
      number of hits of the bucket so far. */
  lemma AnswerIsTheHitCount(run: seq<Event>, window: int, i: nat)
    requires i < |run| && window >= 1 && Orderly(run)
    ensures var key := KeyOf(run[i], window);
            && (key in After(run, window, i) ==> Alive(After(run, window, i), run[i].now, key))
            && Answer(run, window, i) == Hits(run, window, i + 1, key)
  {
    var key := KeyOf(run[i], window);
    CounterIsAlive(run, window, i);
    OneHit(After(run, window, i), run[i].now, key, window, Hits(run, window, i, key));
  }

  lemma CounterIsAlive(run: seq<Event>, window: int, i: nat)
    requires i < |run| && window >= 1 && Orderly(run)
    ensures var key, counters := KeyOf(run[i], window), After(run, window, i);
            && (key in counters <==> Hits(run, window, i, key) > 0)
            && (key in counters ==>
                  counters[key].value == Hits(run, window, i, key) && run[i].now < counters[key].until)
  {
    var key, counters := KeyOf(run[i], window), After(run, window, i);
    var last := Start(key.bucket + 1, window) + GRACE * SECOND;
    assert run[i].now < last by {
      HitFindsItAlive(run[i], window);
    }
    CountsAlways(run, window, i, key);
    assert key in counters ==> last <= counters[key].until;
  }

  /** A hit on a counter that is alive, or was never there. */
  lemma OneHit(counters: Counters, now: int, key: Key, window: int, hits: nat)
    requires key in counters <==> hits > 0
    requires key in counters ==> counters[key].value == hits && now < counters[key].until
    ensures Hit(counters, now, key, window)[key].value == hits + 1
    ensures key in counters ==> Alive(counters, now, key)
  {
  }

  /** Each bucket lets through exactly the first `limit` of its hits. */
  lemma {:induction false} EachBucketAdmitsTheLimit(run: seq<Event>, window: int, limit: int, n: nat, key: Key)
    requires n <= |run| && window >= 1 && Orderly(run)
    ensures Admitted(run, window, limit, n, key) == Min(Hits(run, window, n, key), Max(limit, 0))
  {
    if n > 0 {
      EachBucketAdmitsTheLimit(run, window, limit, n - 1, key);
      AnswerIsTheHitCount(run, window, n - 1);
    }
  }

  ghost predicate BucketsKeepTheLimit(window: int, limit: int, delay: int)
    requires window >= 1
  {
    forall run, key | OnTime(run, delay) :: Admitted(run, window, limit, |run|, key) <= limit
  }

  /** The five seconds of grace are exactly the delay the limiter can bear. */
  lemma GraceIsExact(window: int, delay: int)
    requires window >= 1 && delay >= 0
    ensures (forall limit: nat :: BucketsKeepTheLimit(window, limit, delay)) <==> delay <= GRACE * SECOND
  {
    if delay <= GRACE * SECOND {
      forall limit: nat, run, key | OnTime(run, delay)
        ensures Admitted(run, window, limit, |run|, key) <= limit
      {
        EachBucketAdmitsTheLimit(run, window, limit, |run|, key);
      }
    } else {
      var run, key := LateHitIsAdmitted(window, delay);
      assert !BucketsKeepTheLimit(window, 1, delay);
    }
  }

  /** A hit of the last microsecond of a bucket that executes when the counter of the first
      one is already gone. */
  lemma LateHitIsAdmitted(window: int, delay: int) returns (run: seq<Event>, key: Key)
    requires window >= 1 && delay > GRACE * SECOND
    ensures OnTime(run, delay) && Admitted(run, window, 1, |run|, key) == 2
  {
    var last := window * SECOND - 1;
    var first, late := Event("a", "x", 0, 0), Event("a", "x", last, last + delay);
    run := [first, late];
    key := Key("a", "x", 0);
    BucketIs(0, window, 0);
    BucketIs(last, window, 0);
    assert KeyOf(first, window) == key && KeyOf(late, window) == key;
    assert After(run, window, 1) == Hit(map[], 0, key, window);
    assert Start(0, window) == 0;
    assert After(run, window, 2) == Hit(After(run, window, 1), last + delay, key, window);
    assert Answer(run, window, 0) == 1 && Answer(run, window, 1) == 1;
    assert Admitted(run, window, 1, 1, key) == 1;
  }

  predicate InWindow(e: Event, action: string, identifier: string, from: int, window: int) {
    e.action == action && e.identifier == identifier && from <= e.read < from + window * SECOND
  }

  /** Hits let through whose clock read falls in the given `window` seconds, wherever they start. */
  function AdmittedIn(run: seq<Event>, window: int, limit: int, n: nat, action: string, identifier: string,
                      from: int): nat
    requires n <= |run| && window >= 1
  {
    if n == 0 then 0
    else AdmittedIn(run, window, limit, n - 1, action, identifier, from) +
         (if InWindow(run[n - 1], action, identifier, from, window) && Admits(run, window, limit, n - 1) then 1 else 0)
  }

  lemma WindowMeetsTwoBuckets(e: Event, action: string, identifier: string, from: int, window: int)
    requires window >= 1 && InWindow(e, action, identifier, from, window)
    ensures Bucket(from, window) <= Bucket(e.read, window) <= Bucket(from, window) + 1
  {
    var b := Bucket(from, window);
    BucketIs(from, window, b);
    assert (b + 1) * window * SECOND == b * window * SECOND + window * SECOND;
    assert (b + 2) * window * SECOND == b * window * SECOND + 2 * window * SECOND;
    BucketIs(e.read, window, b);
    BucketIs(e.read, window, b + 1);
  }

  lemma {:induction false} WindowIsWithinTwoBuckets(
    run: seq<Event>, window: int, limit: int, n: nat, action: string, identifier: string, from: int)
    requires n <= |run| && window >= 1
    ensures var b := Bucket(from, window);
            AdmittedIn(run, window, limit, n, action, identifier, from) <=
            Admitted(run, window, limit, n, Key(action, identifier, b)) +
            Admitted(run, window, limit, n, Key(action, identifier, b + 1))
  {
    if n > 0 {
      WindowIsWithinTwoBuckets(run, window, limit, n - 1, action, identifier, from);
      if InWindow(run[n - 1], action, identifier, from, window) {
        WindowMeetsTwoBuckets(run[n - 1], action, identifier, from, window);
      }
    }
  }

  /** Any stretch of `window` seconds, aligned or not, lets through at most twice the limit of
      the hits that read the clock in it. */
  lemma AtMostTwiceTheLimit(
    run: seq<Event>, window: int, limit: int, action: string, identifier: string, from: int)
    requires window >= 1 && Orderly(run)
    ensures AdmittedIn(run, window, limit, |run|, action, identifier, from) <= 2 * Max(limit, 0)
  {
    var b := Bucket(from, window);
    WindowIsWithinTwoBuckets(run, window, limit, |run|, action, identifier, from);
    EachBucketAdmitsTheLimit(run, window, limit, |run|, Key(action, identifier, b));
    EachBucketAdmitsTheLimit(run, window, limit, |run|, Key(action, identifier, b + 1));
  }

  // ---------------------------------------------------------------- reading and consuming

  /** The quota read against the consume that comes next in the same bucket: they agree on
      whether the subject is over its quota exactly when the limit is positive or the bucket
      was already hit. With a limit of zero an untouched bucket reads as available although
      no consume is ever let through. */
  lemma QuotaReadForetellsConsume(run: seq<Event>, window: int, limit: int, subject: string, read: int, now: int)
    requires window >= 1 && Orderly(run) && |run| > 0
    requires run[|run| - 1].identifier == "subject:" + subject
    requires read <= now <= read + GRACE * SECOND && now <= run[|run| - 1].now
    requires Bucket(read, window) == Bucket(run[|run| - 1].read, window)
    ensures var before := |run| - 1;
            var key := KeyOf(run[before], window);
            var refused := QuotaRead(After(run, window, before), run[before].action, subject, limit, window, read,
                                     now).Some?;
            (refused <==> !Admits(run, window, limit, before)) <==> limit >= 1 || Hits(run, window, before, key) > 0
  {
    var before := |run| - 1;
    var key := KeyOf(run[before], window);
    CountsAlways(run, window, before, key);
    AnswerIsTheHitCount(run, window, before);
    HitFindsItAlive(run[before], window);
  }

  /** With a limit of zero, an untouched bucket reads as available and the consume is refused. */
  lemma ZeroLimitDisagrees() returns (run: seq<Event>)
    ensures Orderly(run) && |run| == 1 && !Admits(run, 10, 0, 0)
    ensures QuotaRead(After(run, 10, 0), "a", "x", 0, 10, 0, 0).None?
  {
    run := [Event("a", "subject:x", 0, 0)];
  }
}
