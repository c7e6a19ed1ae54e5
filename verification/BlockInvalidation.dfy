/** Every block operation invalidates every day whose loaded blocks it changes. */
module BlockInvalidation {
  import opened Clock
  import opened AvailabilityCache
  import opened AgendaBlocks
  import DayAgenda

  const MAX_DAYS_INVALIDATED_ONE_BY_ONE := 31

  predicate LocalDaysExist(ranges: seq<Range>) {
    forall i | 0 <= i < |ranges| :: HasLocalDay(ranges[i].from) && HasLocalDay(ranges[i].until)
  }

  function TotalDays(ranges: seq<Range>): int {
    if ranges == [] then 0 else TotalDays(ranges[..|ranges| - 1]) + LocalDayCount(ranges[|ranges| - 1])
  }

  /** Local days the ranges touch, added up; None when some day cannot be represented. */
  method DaysCovered(ranges: seq<Range>) returns (total: Option<int>)
    ensures total.Some? <==> LocalDaysExist(ranges)
    ensures total.Some? ==> total.value == TotalDays(ranges)
  {
    var sum := 0;
    for i := 0 to |ranges|
      invariant LocalDaysExist(ranges[..i]) && sum == TotalDays(ranges[..i])
    {
      assert ranges[..i + 1][..i] == ranges[..i];
      var r := ranges[i];
      if !HasLocalDay(r.from) || !HasLocalDay(r.until) {
        return None;
      }
      sum := sum + (LocalDay(r.until) - LocalDay(r.from)) + 1;
    }
    assert ranges[..|ranges|] == ranges;
    total := Some(sum);
  }

  /** The whole store when the ranges touch too many days, or days that do not exist. */
  predicate TooMany(ranges: seq<Range>) {
    !LocalDaysExist(ranges) || TotalDays(ranges) > MAX_DAYS_INVALIDATED_ONE_BY_ONE
  }

  function OfRange(r: Range): Invalidation {
    if Representable(r) then Invalidation(false, DaysOf(r)) else Invalidation(true, {})
  }

  function Merge(a: Invalidation, b: Invalidation): Invalidation {
    Invalidation(a.wholeStore || b.wholeStore, a.days + b.days)
  }

  function OfRanges(ranges: seq<Range>): Invalidation {
    if ranges == [] then Invalidation(false, {})
    else Merge(OfRanges(ranges[..|ranges| - 1]), OfRange(ranges[|ranges| - 1]))
  }

  function InvalidationOf(ranges: seq<Range>): Invalidation {
    if TooMany(ranges) then Invalidation(true, {}) else OfRanges(ranges)
  }

  /** The counter was bumped: it is alive and reads more than it did. */
  ghost predicate Bumped(before: Counters, after: Counters, now: int, key: CounterKey) {
    CounterValue(before, now, key) < CounterValue(after, now, key)
  }

  ghost predicate Untouched(before: Counters, after: Counters, key: CounterKey) {
    (key in before <==> key in after) && (key in before ==> before[key] == after[key])
  }

  /** The counters of these keys went up and no other changed. */
  ghost predicate RaisedExactly(before: Counters, after: Counters, now: int, keys: set<CounterKey>) {
    && (forall key | key in keys :: Bumped(before, after, now, key))
    && (forall key | key !in keys :: Untouched(before, after, key))
  }

  lemma BumpRaises(start: Counters, before: Counters, now: int, done: set<CounterKey>, more: set<CounterKey>)
    requires RaisedExactly(start, before, now, done)
    ensures RaisedExactly(start, Bump(before, now, more), now, done + more)
  {
    var after := Bump(before, now, more);
    forall key | key in done + more
      ensures Bumped(start, after, now, key)
    {
      assert key !in done ==> Untouched(start, before, key);
    }
    forall key | key !in done + more
      ensures Untouched(start, after, key)
    {
      assert Untouched(start, before, key);
    }
  }

  // ---------------------------------------------------------------- cost

  /** At most how many INCR the ranges take, one by one. */
  function RangeCommands(ranges: seq<Range>): nat {
    if ranges == [] then 0
    else
      var last := ranges[|ranges| - 1];
      RangeCommands(ranges[..|ranges| - 1]) + (if Representable(last) then |DaysOf(last)| else 1)
  }

  predicate AllValid(ranges: seq<Range>) {
    forall i | 0 <= i < |ranges| :: ranges[i].Valid()
  }

  /** Each range counts at least one day, and takes at most one INCR more than it counts days. */
  lemma {:induction false} RangeCommandsBounded(ranges: seq<Range>)
    requires AllValid(ranges)
    ensures |ranges| <= TotalDays(ranges) && RangeCommands(ranges) <= TotalDays(ranges) + |ranges|
  {
    if ranges != [] {
      var last := ranges[|ranges| - 1];
      RangeCommandsBounded(ranges[..|ranges| - 1]);
      LocalDayMonotone(last.from, last.until);
      DaysOfExactly(last);
    }
  }

  /** `_invalidate`: raises the counter of every key of the invalidation of the ranges, touches
      no other, and sends at most 62 INCR however many or long the ranges are. */
  method Invalidate(cache: RedisCounters, store: string, ranges: seq<Range>)
    returns (ghost done: Invalidation, ghost sent: nat)
    modifies cache`counters
    ensures done == InvalidationOf(ranges)
    ensures RaisedExactly(old(cache.counters), cache.counters, cache.now, done.Keys(store))
    ensures AllValid(ranges) ==> sent <= 2 * MAX_DAYS_INVALIDATED_ONE_BY_ONE
  {
    var total := DaysCovered(ranges);
    if total.None? || total.value > MAX_DAYS_INVALIDATED_ONE_BY_ONE {
      sent := cache.InvalidateStore(store);
      done := Invalidation(true, {});
      StoreRaises(old(cache.counters), cache.now, store);
      return;
    }
    done, sent := Invalidation(false, {}), 0;
    NothingRaised(cache.counters, cache.now, store);
    for i := 0 to |ranges|
      invariant done == OfRanges(ranges[..i]) && sent <= RangeCommands(ranges[..i])
      invariant RaisedExactly(old(cache.counters), cache.counters, cache.now, done.Keys(store))
    {
      ghost var before := cache.counters;
      ghost var one, more := cache.InvalidateRange(store, ranges[i]);
      OneRangeMore(ranges, i);
      MergeRaises(old(cache.counters), before, cache.now, store, done, one);
      done, sent := Merge(done, one), sent + more;
    }
    assert ranges[..|ranges|] == ranges;
    if AllValid(ranges) {
      RangeCommandsBounded(ranges);
    }
  }

  lemma StoreRaises(start: Counters, now: int, store: string)
    ensures RaisedExactly(start, Bump(start, now, {Generation(store)}), now, Invalidation(true, {}).Keys(store))
  {
    BumpRaises(start, start, now, {}, {Generation(store)});
    assert Invalidation(true, {}).Keys(store) == {Generation(store)} == {} + {Generation(store)};
  }

  lemma NothingRaised(start: Counters, now: int, store: string)
    ensures RaisedExactly(start, start, now, Invalidation(false, {}).Keys(store))
  {
  }

  lemma OneRangeMore(ranges: seq<Range>, i: nat)
    requires i < |ranges|
    ensures OfRanges(ranges[..i + 1]) == Merge(OfRanges(ranges[..i]), OfRange(ranges[i]))
    ensures RangeCommands(ranges[..i + 1]) ==
            RangeCommands(ranges[..i]) + (if Representable(ranges[i]) then |DaysOf(ranges[i])| else 1)
  {
    assert ranges[..i + 1][..i] == ranges[..i];
  }

  lemma MergeRaises(start: Counters, before: Counters, now: int, store: string, done: Invalidation, one: Invalidation)
    requires RaisedExactly(start, before, now, done.Keys(store))
    ensures RaisedExactly(start, Bump(before, now, one.Keys(store)), now, Merge(done, one).Keys(store))
  {
    BumpRaises(start, before, now, done.Keys(store), one.Keys(store));
    assert Merge(done, one).Keys(store) == done.Keys(store) + one.Keys(store);
  }

  // ---------------------------------------------------------------- completeness

  /** What the agenda of a day loads from a block: nothing unless it is active and overlaps. */
  predicate Loads(b: Block, day: int) {
    b.active && DayAgenda.BlockOverlap(b.span, DayStart(day), DayEnd(day))
  }

  /** The block rows of a day: which ones, for whom, when and why. */
  function Loaded(blocks: seq<Block>, day: int): map<nat, Block> {
    map i: nat | i < |blocks| && Loads(blocks[i], day) :: blocks[i]
  }

  lemma {:induction false} RangeIsReached(ranges: seq<Range>, i: nat, day: int)
    requires i < |ranges| && ranges[i].from < DayEnd(day) && ranges[i].until > DayStart(day)
    ensures OfRanges(ranges).Reaches(day)
  {
    if i < |ranges| - 1 {
      RangeIsReached(ranges[..|ranges| - 1], i, day);
    } else {
      LoadedDaysAreDaysOf(ranges[i], day);
    }
  }

  lemma OverlappedDayIsReached(ranges: seq<Range>, i: nat, day: int)
    requires i < |ranges| && ranges[i].from < DayEnd(day) && ranges[i].until > DayStart(day)
    ensures InvalidationOf(ranges).Reaches(day)
  {
    RangeIsReached(ranges, i, day);
  }

  lemma {:induction false} NewBlockSpans(members: seq<string>, ranges: seq<Range>, reason: string,
                                         b: nat) returns (i: nat)
    requires b < |NewBlocks(members, ranges, reason)|
    ensures i < |ranges| && NewBlocks(members, ranges, reason)[b].span == ranges[i]
  {
    var rest := NewBlocks(members[..|members| - 1], ranges, reason);
    if b < |rest| {
      i := NewBlockSpans(members[..|members| - 1], ranges, reason, b);
    } else {
      i := b - |rest|;
    }
  }

  lemma LoadedWithout(blocks: seq<Block>, added: seq<Block>, day: int)
    requires forall b: nat | b < |added| :: !Loads(added[b], day)
    ensures Loaded(blocks + added, day) == Loaded(blocks, day)
  {
    var all := blocks + added;
    forall b: nat | b < |all| ensures b < |blocks| || !Loads(all[b], day) {
      if |blocks| <= b {
        assert all[b] == added[b - |blocks|];
      }
    }
  }

  /** Creating: a day out of reach of the invalidation of the new ranges loads the same. */
  lemma CreateInvalidatesEveryChangedDay(s: Store, active: seq<string>, staffId: Option<string>,
                                         ranges: seq<Range>, reason: string, consent: Consent, day: int)
    requires Create(s, active, staffId, ranges, reason, consent).Success?
    ensures var t := Create(s, active, staffId, ranges, reason, consent).value.0;
            Loaded(s.blocks, day) != Loaded(t.blocks, day) ==> InvalidationOf(ranges).Reaches(day)
  {
    var members := StaffFor(active, staffId).value;
    var added := NewBlocks(members, ranges, reason);
    ResolveKeepsBlocks(s, ListAffected(s.appointments, members, ranges), reason);
    if b: nat :| b < |added| && Loads(added[b], day) {
      var i := NewBlockSpans(members, ranges, reason, b);
      OverlappedDayIsReached(ranges, i, day);
    } else {
      LoadedWithout(s.blocks, added, day);
    }
  }

  /** Editing and deleting: the same for the previous range together with the new one. */
  lemma UpdateInvalidatesEveryChangedDay(s: Store, now: int, id: nat, changes: Changes, consent: Consent, day: int)
    requires Update(s, now, id, changes, consent).Success?
    ensures var t := Update(s, now, id, changes, consent).value.0;
            Loaded(s.blocks, day) != Loaded(t.blocks, day) ==>
              InvalidationOf([s.blocks[id].span, t.blocks[id].span]).Reaches(day)
  {
    var t := Update(s, now, id, changes, consent).value.0;
    var ranges := [s.blocks[id].span, t.blocks[id].span];
    if Loads(s.blocks[id], day) {
      OverlappedDayIsReached(ranges, 0, day);
    } else if Loads(t.blocks[id], day) {
      OverlappedDayIsReached(ranges, 1, day);
    } else {
      assert Loaded(t.blocks, day) == Loaded(s.blocks, day);
    }
  }

  /** Deleting is an edit that keeps the range. */
  lemma DeleteInvalidatesEveryChangedDay(s: Store, now: int, id: nat, day: int)
    requires Delete(s, now, id).Success?
    ensures var t := Delete(s, now, id).value.0;
            Loaded(s.blocks, day) != Loaded(t.blocks, day) ==>
              InvalidationOf([s.blocks[id].span, t.blocks[id].span]).Reaches(day)
  {
    UpdateInvalidatesEveryChangedDay(s, now, id, DEACTIVATE, NO_CONSENT, day);
  }

  // ---------------------------------------------------------------- the service and its cache

  /** The present agenda of the day is under new keys: its version or the generation went up. */
  ghost predicate DayIsInvalidated(before: Counters, after: Counters, now: int, store: string, day: int) {
    Bumped(before, after, now, Version(store, day)) || Bumped(before, after, now, Generation(store))
  }

  lemma ReachedIsInvalidated(before: Counters, after: Counters, now: int, store: string, done: Invalidation, day: int)
    requires RaisedExactly(before, after, now, done.Keys(store)) && done.Reaches(day)
    ensures DayIsInvalidated(before, after, now, store, day)
  {
    assert done.wholeStore ==> Generation(store) in done.Keys(store);
    assert day in done.days ==> Version(store, day) in done.Keys(store);
  }

  /** A day whose loaded blocks did not change has the same agenda of every professional. */
  lemma {:induction false} SameLoadedSameBlocks(before: seq<Block>, after: seq<Block>, staff: string, day: int)
    requires |before| <= |after| && Loaded(before, day) == Loaded(after, day)
    ensures DayAgenda.BlocksOf(before, staff, DayAgenda.InDay(day))
            == DayAgenda.BlocksOf(after, staff, DayAgenda.InDay(day))
  {
    if after != [] {
      var last := |after| - 1;
      assert last in Loaded(after, day) <==> Loads(after[last], day);
      if |before| == |after| {
        assert last in Loaded(before, day) <==> Loads(before[last], day);
        LoadedPrefix(before, day);
        LoadedPrefix(after, day);
        SameLoadedSameBlocks(before[..last], after[..last], staff, day);
      } else {
        LoadedPrefix(after, day);
        assert last !in Loaded(before, day);
        SameLoadedSameBlocks(before, after[..last], staff, day);
      }
    }
  }

  lemma LoadedPrefix(blocks: seq<Block>, day: int)
    requires blocks != []
    ensures Loaded(blocks[..|blocks| - 1], day) == Loaded(blocks, day) - {|blocks| - 1}
  {
  }

  /** `create_blocks` to its end: after the commit, every day that loads other blocks than
      before is invalidated. */
  method CreateAndInvalidate(service: AppointmentBlockService, cache: RedisCounters, store: string,
                             staffId: Option<string>, ranges: seq<Range>, reason: string, consent: Consent)
    returns (r: Result<Resolution>)
    modifies service`appointments, service`blocks, service`outbox, service`audit, cache`counters
    ensures r.Success? <==> Create(old(service.State()), service.activeStaff, staffId, ranges, reason, consent).Success?
    ensures r.Failure? ==> service.State() == old(service.State()) && cache.counters == old(cache.counters)
    ensures forall day | Loaded(old(service.blocks), day) != Loaded(service.blocks, day) ::
              DayIsInvalidated(old(cache.counters), cache.counters, cache.now, store, day)
  {
    r := service.CreateBlocks(staffId, ranges, reason, consent);
    if r.Failure? {
      return;
    }
    ghost var done, _ := Invalidate(cache, store, ranges);
    forall day | Loaded(old(service.blocks), day) != Loaded(service.blocks, day)
      ensures DayIsInvalidated(old(cache.counters), cache.counters, cache.now, store, day)
    {
      CreateInvalidatesEveryChangedDay(old(service.State()), service.activeStaff, staffId, ranges, reason, consent,
                                       day);
      ReachedIsInvalidated(old(cache.counters), cache.counters, cache.now, store, done, day);
    }
  }

  /** `update_block` to its end, and so `delete_block`. */
  method UpdateAndInvalidate(service: AppointmentBlockService, cache: RedisCounters, store: string,
                             now: int, id: nat, changes: Changes, consent: Consent)
    returns (r: Result<Block>)
    modifies service`appointments, service`blocks, service`outbox, service`audit, cache`counters
    ensures r.Success? <==> Update(old(service.State()), now, id, changes, consent).Success?
    ensures r.Failure? ==> service.State() == old(service.State()) && cache.counters == old(cache.counters)
    ensures forall day | Loaded(old(service.blocks), day) != Loaded(service.blocks, day) ::
              DayIsInvalidated(old(cache.counters), cache.counters, cache.now, store, day)
  {
    var previous := if id < |service.blocks| then service.blocks[id].span else Range(0, 0);
    r := service.UpdateBlock(now, id, changes, consent);
    if r.Failure? {
      return;
    }
    ghost var done, _ := Invalidate(cache, store, [previous, r.value.span]);
    forall day | Loaded(old(service.blocks), day) != Loaded(service.blocks, day)
      ensures DayIsInvalidated(old(cache.counters), cache.counters, cache.now, store, day)
    {
      UpdateInvalidatesEveryChangedDay(old(service.State()), now, id, changes, consent, day);
      ReachedIsInvalidated(old(cache.counters), cache.counters, cache.now, store, done, day);
    }
  }
}
