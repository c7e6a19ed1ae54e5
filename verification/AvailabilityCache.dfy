/** The versioned availability cache: expiring counters, the days a range touches, and the
    invalidations that bump them. */
module AvailabilityCache {
  import opened Clock

  const SLOTS_TTL: int := 300 * SECOND
  const VERSION_TTL: int := 7 * 24 * 60 * 60 * SECOND

  datatype CounterKey = Generation(store: string) | Version(store: string, day: int)

  datatype Counter = Counter(value: nat, expires: int)

  type Counters = map<CounterKey, Counter>

  predicate Alive(c: Counters, now: int, key: CounterKey) {
    key in c && now < c[key].expires
  }

  /** A missing or expired counter reads 0. */
  function CounterValue(c: Counters, now: int, key: CounterKey): nat {
    if Alive(c, now, key) then c[key].value else 0
  }

  /** GETEX: stretches the expiry of a live counter and never creates one. */
  function Touch(c: Counters, now: int, key: CounterKey): Counters {
    if Alive(c, now, key) then c[key := Counter(c[key].value, now + VERSION_TTL)] else c
  }

  /** INCR + EXPIRE of each key. */
  function Bump(c: Counters, now: int, keys: set<CounterKey>): Counters {
    c + map k | k in keys :: Counter(CounterValue(c, now, k) + 1, now + VERSION_TTL)
  }

  lemma BumpNone(c: Counters, now: int)
    ensures Bump(c, now, {}) == c
  {
  }

  lemma BumpOneMore(c: Counters, now: int, done: set<CounterKey>, key: CounterKey)
    requires key !in done
    ensures var b := Bump(c, now, done);
            Bump(c, now, done + {key}) == b[key := Counter(CounterValue(b, now, key) + 1, now + VERSION_TTL)]
  {
  }

  // ---------------------------------------------------------------- days of a range

  /** Python dates end at 9999-12-31: converting an instant outside raises OverflowError. */
  predicate HasUtcDay(t: int) {
    0 <= UtcDay(t) <= MAX_DAY
  }

  predicate HasLocalDay(t: int) {
    0 <= LocalDay(t) <= MAX_DAY
  }

  /** Stepping past 9999-12-31 raises too, so a range ending on that day has no day set. */
  predicate Representable(r: Range) {
    && HasLocalDay(r.from) && HasLocalDay(r.until) && HasUtcDay(r.from) && HasUtcDay(r.until)
    && (LocalDay(r.from) <= LocalDay(r.until) ==> LocalDay(r.until) < MAX_DAY)
  }

  function DaysBetween(lo: int, hi: int): (days: set<int>)
    ensures forall d :: d in days <==> lo <= d <= hi
    decreases hi - lo
  {
    if lo > hi then {} else DaysBetween(lo, hi - 1) + {hi}
  }

  function DaysOf(r: Range): set<int> {
    DaysBetween(LocalDay(r.from), LocalDay(r.until)) +
    {LocalDay(r.from), UtcDay(r.from), LocalDay(r.until), UtcDay(r.until)}
  }

  function LocalDaysTouched(instants: seq<int>): set<int> {
    (set i | 0 <= i < |instants| :: LocalDay(instants[i])) + (set i | 0 <= i < |instants| :: UtcDay(instants[i]))
  }

  /** Days, local and UTC, of a list of instants; None when some conversion overflows. */
  method DaysTouched(instants: seq<int>) returns (days: Option<set<int>>)
    ensures days.Some? <==> forall t | t in instants :: HasLocalDay(t) && HasUtcDay(t)
    ensures days.Some? ==> days.value == LocalDaysTouched(instants)
  {
    var seen: set<int> := {};
    for i := 0 to |instants|
      invariant forall t | t in instants[..i] :: HasLocalDay(t) && HasUtcDay(t)
      invariant seen == LocalDaysTouched(instants[..i])
    {
      var t := instants[i];
      if !HasLocalDay(t) || !HasUtcDay(t) {
        return None;
      }
      var before, after := instants[..i], instants[..i + 1];
      assert forall j | 0 <= j < i :: before[j] == after[j];
      assert LocalDay(t) == LocalDay(after[i]) && UtcDay(t) == UtcDay(after[i]);
      assert LocalDaysTouched(after) == LocalDaysTouched(before) + {LocalDay(t), UtcDay(t)};
      seen := seen + {LocalDay(t)};
      seen := seen + {UtcDay(t)};
    }
    assert instants[..|instants|] == instants;
    days := Some(seen);
  }

  lemma TouchedByEnds(a: int, b: int)
    ensures LocalDaysTouched([a, b]) == {LocalDay(a), UtcDay(a), LocalDay(b), UtcDay(b)}
  {
    var instants := [a, b];
    assert instants[0] == a && instants[1] == b;
  }

  /** Day by day from `first` to `last`; stepping past the last date raises. */
  method WalkDays(first: int, last: int) returns (days: Option<set<int>>)
    requires 0 <= first <= MAX_DAY && last <= MAX_DAY
    ensures days.Some? <==> (first <= last ==> last < MAX_DAY)
    ensures days.Some? ==> days.value == DaysBetween(first, last)
  {
    var day := first;
    var seen: set<int> := {};
    while day <= last
      invariant first <= day <= MAX_DAY && day <= Max(first, last + 1)
      invariant seen == DaysBetween(first, day - 1)
    {
      seen := seen + {day};
      if day == MAX_DAY {
        return None;
      }
      day := day + 1;
    }
    assert seen == DaysBetween(first, last);
    days := Some(seen);
  }

  /** `_range_days`: every local day of the range and the local and UTC days of its ends. */
  method RangeDays(r: Range) returns (days: Option<set<int>>)
    ensures days.Some? <==> Representable(r)
    ensures days.Some? ==> days.value == DaysOf(r)
  {
    if !HasLocalDay(r.from) || !HasLocalDay(r.until) {
      return None;
    }
    var walked := WalkDays(LocalDay(r.from), LocalDay(r.until));
    if walked.None? {
      return None;
    }
    var ends := DaysTouched([r.from, r.until]);
    assert forall t :: t in [r.from, r.until] <==> t == r.from || t == r.until;
    if ends.None? {
      return None;
    }
    TouchedByEnds(r.from, r.until);
    days := Some(walked.value + ends.value);
  }

  /** Every local day on which a row overlapping the range can be loaded is one of its days. */
  lemma LoadedDaysAreDaysOf(r: Range, day: int)
    requires r.from < DayEnd(day) && r.until > DayStart(day)
    ensures day in DaysOf(r)
  {
    LocalDayBounds(r.from);
    LocalDayBounds(r.until);
    assert LocalDay(r.from) <= day <= LocalDay(r.until);
  }

  function LocalDayCount(r: Range): int {
    LocalDay(r.until) - LocalDay(r.from) + 1
  }

  lemma {:induction false} DaysBetweenSize(lo: int, hi: int)
    requires lo <= hi + 1
    ensures |DaysBetween(lo, hi)| == hi - lo + 1
    decreases hi - lo
  {
    if lo <= hi {
      DaysBetweenSize(lo, hi - 1);
    }
  }

  lemma SubsetSize<T>(a: set<T>, b: set<T>)
    requires a <= b
    ensures |a| <= |b|
  {
    assert b == a + (b - a);
  }

  /** The day set has at most one day more than `days_covered` counts for the range: the UTC day
      of its end, exactly when that is past the local one. */
  lemma DaysOfExactly(r: Range)
    requires r.from <= r.until
    ensures |DaysOf(r)| == LocalDayCount(r) + (if UtcDay(r.until) > LocalDay(r.until) then 1 else 0)
  {
    var lo, hi := LocalDay(r.from), LocalDay(r.until);
    LocalDayMonotone(r.from, r.until);
    var last := if UtcDay(r.until) > hi then hi + 1 else hi;
    DaysBetweenSize(lo, last);
    EndsAreWithin(r);
    assert DaysOf(r) == DaysBetween(lo, last);
  }

  /** The UTC days of the ends lie between the first local day and the last day touched. */
  lemma EndsAreWithin(r: Range)
    requires r.from <= r.until
    ensures LocalDay(r.from) <= UtcDay(r.from) <= UtcDay(r.until)
    ensures LocalDay(r.until) <= UtcDay(r.until) <= LocalDay(r.until) + 1
  {
    UtcDayIsLocalOrNext(r.from);
    UtcDayIsLocalOrNext(r.until);
  }

  // ---------------------------------------------------------------- the client

  /** What one bump of the store or of some of its days adds up to. */
  datatype Invalidation = Invalidation(wholeStore: bool, days: set<int>) {
    function Keys(store: string): set<CounterKey> {
      (if wholeStore then {Generation(store)} else {}) + set d | d in days :: Version(store, d)
    }

    /** The agenda of `day` can no longer be read under the old keys. */
    predicate Reaches(day: int) {
      wholeStore || day in days
    }
  }

  /** The counters of the cache Redis, and its clock. */
  class RedisCounters {
    var counters: Counters
    var now: int

    constructor (now: int)
      ensures counters == map[] && this.now == now
    {
      counters := map[];
      this.now := now;
    }

    method GetEx(key: CounterKey) returns (value: nat)
      modifies this`counters
      ensures value == CounterValue(old(counters), now, key)
      ensures counters == Touch(old(counters), now, key)
    {
      value := CounterValue(counters, now, key);
      counters := Touch(counters, now, key);
    }

    /** Generation, then version, in one round trip that is not a transaction. */
    method CurrentGenerationAndVersion(store: string, day: int) returns (generation: nat, version: nat)
      modifies this`counters
      ensures generation == CounterValue(old(counters), now, Generation(store))
      ensures version == CounterValue(old(counters), now, Version(store, day))
      ensures counters == Touch(Touch(old(counters), now, Generation(store)), now, Version(store, day))
    {
      generation := GetEx(Generation(store));
      version := GetEx(Version(store, day));
    }

    /** One INCR and one EXPIRE per key, all applied together; `sent` counts the INCR. */
    method BumpCounters(keys: set<CounterKey>) returns (ghost sent: nat)
      modifies this`counters
      ensures counters == Bump(old(counters), now, keys) && sent == |keys|
    {
      var pending := keys;
      BumpNone(counters, now);
      assert keys - pending == {};
      sent := 0;
      while pending != {}
        invariant pending <= keys && counters == Bump(old(counters), now, keys - pending)
        invariant sent + |pending| == |keys|
        decreases |pending|
      {
        var key :| key in pending;
        BumpOneMore(old(counters), now, keys - pending, key);
        assert keys - pending + {key} == keys - (pending - {key});
        counters := counters[key := Counter(CounterValue(counters, now, key) + 1, now + VERSION_TTL)];
        sent := sent + 1;
        pending := pending - {key};
      }
      assert keys - pending == keys;
    }

    method InvalidateStore(store: string) returns (ghost sent: nat)
      modifies this`counters
      ensures counters == Bump(old(counters), now, {Generation(store)}) && sent == 1
    {
      sent := BumpCounters({Generation(store)});
    }

    /** A range whose days cannot be represented invalidates the whole store. */
    method InvalidateRange(store: string, r: Range) returns (ghost done: Invalidation, ghost sent: nat)
      modifies this`counters
      ensures done == if Representable(r) then Invalidation(false, DaysOf(r)) else Invalidation(true, {})
      ensures counters == Bump(old(counters), now, done.Keys(store))
      ensures sent <= if Representable(r) then |DaysOf(r)| else 1
    {
      var days := RangeDays(r);
      if days.None? {
        sent := InvalidateStore(store);
        done := Invalidation(true, {});
        assert done.Keys(store) == {Generation(store)};
      } else {
        VersionKeysSize(store, days.value);
        sent := BumpCounters(VersionKeys(store, days.value));
        done := Invalidation(false, days.value);
        assert done.Keys(store) == VersionKeys(store, days.value);
      }
    }
  }

  function VersionKeys(store: string, days: set<int>): set<CounterKey> {
    set d | d in days :: Version(store, d)
  }

  lemma {:induction false} VersionKeysSize(store: string, days: set<int>)
    ensures |VersionKeys(store, days)| <= |days|
    decreases |VersionKeys(store, days)|
  {
    var keys := VersionKeys(store, days);
    if keys != {} {
      var key :| key in keys;
      assert keys - {key} == VersionKeys(store, days - {key.day});
      VersionKeysSize(store, days - {key.day});
    }
  }
}
