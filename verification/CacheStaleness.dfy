/** How old served slots can be when an invalidation is lost: nothing here looks at versions. */
module CacheStaleness {
  import opened Clock
  import opened AvailabilityCache
  import opened CacheProtocol

  /** When the oldest of the reads behind some slots was made, the rules of the store counted. */
  function OldestOf(source: Source, origin: Option<Origin>): int {
    if origin.Some? then Min(source.at, origin.value.rules.at) else source.at
  }

  /** 301 s and twice the longest request, less the microsecond by which each of the two levels
      must still be alive when it is read. */
  function WorstAge(limit: int): int {
    SLOTS_TTL + SECOND + 2 * limit - 2
  }

  function Oldest(agenda: Agenda): int {
    OldestOf(agenda.source, Some(agenda.origin))
  }

  /** An agenda entry dies 300 s after a write that the writer's own bound limits, and was
      built within one lookup of its database reads. */
  ghost predicate TimelyAgenda(now: int, limit: int, e: AgendaEntry) {
    && e.agenda.builtAt <= now
    && e.expires <= Oldest(e.agenda) + limit + SLOTS_TTL
    && Oldest(e.agenda) <= e.agenda.builtAt <= Oldest(e.agenda) + limit
  }

  ghost predicate TimelySlots(limit: int, e: SlotsEntry) {
    e.expires <= OldestOf(e.source, e.origin) + 2 * limit + SLOTS_TTL + SECOND - 1
  }

  /** An agenda in hand: its lookup started before the agenda could die. */
  ghost predicate TimelyInHand(now: int, limit: int, q: Lookup, agenda: Agenda) {
    && agenda.builtAt <= now
    && q.started.at < Oldest(agenda) + limit + SLOTS_TTL
    && Oldest(agenda) <= agenda.builtAt <= Oldest(agenda) + limit
  }

  ghost predicate TimelyStage(now: int, limit: int, q: Lookup) {
    match q.phase
    case Selected(_, selection) => q.started.at <= selection.at <= now
    case NoAgenda(_, selection) => q.started.at <= selection.at <= now
    case Loading(_, selection, loading, rulesFrom) =>
      && q.started.at <= selection.at <= now && q.started.at <= loading.at <= now
      && q.started.at <= rulesFrom.rules.at <= now
    case HasAgenda(_, selection, agenda, fromDatabase) =>
      && q.started.at <= selection.at && TimelyInHand(now, limit, q, agenda)
      && (fromDatabase ==> q.started.at <= Oldest(agenda))
    case Derived(_, source, origin, toWrite, ttl) =>
      && q.started.at + ttl * SECOND <= OldestOf(source, origin) + limit + SLOTS_TTL + SECOND - 1 && 1 <= ttl
      && (toWrite.Some? ==> q.started.at <= Oldest(toWrite.value) && TimelyInHand(now, limit, q, toWrite.value))
    case _ => true
  }

  ghost predicate TimelyLookup(now: int, limit: int, q: Lookup) {
    && q.started.at <= now && (q.rules.Some? ==> q.started.at <= q.rules.value.at <= now)
    && TimelyStage(now, limit, q)
  }

  ghost predicate TimelyAnswer(limit: int, x: Answer) {
    x.at <= OldestOf(x.source, x.origin) + WorstAge(limit)
  }

  ghost predicate Timely(s: State, limit: int) {
    && (forall k | k in s.agendas :: TimelyAgenda(s.now, limit, s.agendas[k]))
    && (forall k | k in s.slots :: TimelySlots(limit, s.slots[k]))
    && (forall id | id in s.lookups :: TimelyLookup(s.now, limit, s.lookups[id]))
    && (forall x | x in s.answers :: TimelyAnswer(limit, x))
  }

  /** What the age floored to seconds and the minimum of one second can add. */
  lemma RemainingTtlBounds(builtAt: int, now: int)
    ensures 1 <= RemainingTtl(builtAt, now)
    ensures builtAt <= now ==>
              RemainingTtl(builtAt, now) == 1
                  || now + RemainingTtl(builtAt, now) * SECOND < builtAt + SLOTS_TTL + SECOND
    ensures builtAt <= now ==> RemainingTtl(builtAt, now) * SECOND <= SLOTS_TTL
  {
  }

  /** A step of one lookup keeps times: the lookup moves to a timely phase, ends, or writes. */
  ghost predicate OneTimely(s: State, t: State, limit: int, id: nat) {
    && t.now == s.now
    && (forall i | i in t.lookups ::
          (i in s.lookups && t.lookups[i] == s.lookups[i]) || TimelyLookup(t.now, limit, t.lookups[i]))
    && (forall x | x in t.answers :: x in s.answers || TimelyAnswer(limit, x))
    && (forall k | k in t.agendas ::
          (k in s.agendas && t.agendas[k] == s.agendas[k]) || TimelyAgenda(t.now, limit, t.agendas[k]))
    && (forall k | k in t.slots :: (k in s.slots && t.slots[k] == s.slots[k]) || TimelySlots(limit, t.slots[k]))
  }

  lemma MoveIsTimely(s: State, t: State, limit: int, id: nat, q: Lookup)
    requires t.now == s.now && t.agendas == s.agendas && t.slots == s.slots && t.answers == s.answers
    requires t.lookups == s.lookups[id := q] && TimelyLookup(s.now, limit, q)
    ensures OneTimely(s, t, limit, id)
  {
  }

  lemma ReplyIsTimely(s: State, limit: int, id: nat, q: Lookup, source: Source, origin: Option<Origin>)
    requires s.now <= OldestOf(source, origin) + WorstAge(limit)
    ensures OneTimely(s, Reply(s, id, q, source, origin), limit, id)
  {
  }

  lemma ReadSlotsIsTimely(s: State, limit: int, id: nat, q: Lookup)
    requires TimelyLookup(s.now, limit, q)
    requires forall k | k in s.slots :: TimelySlots(limit, s.slots[k])
    ensures OneTimely(s, ReadSlotsStep(s, id, q), limit, id)
  {
    if q.phase.Resolved? {
      var key := SlotsKeyOf(q, q.phase.resolved);
      if SlotsHit(s, key) {
        ReplyIsTimely(s, limit, id, q, s.slots[key].source, s.slots[key].origin);
      } else {
        MoveIsTimely(s, ReadSlotsStep(s, id, q), limit, id, q.(phase := Missed(Some(q.phase.resolved))));
      }
    }
  }

  lemma ReadAgendaIsTimely(s: State, limit: int, id: nat, q: Lookup)
    requires TimelyLookup(s.now, limit, q)
    requires forall k | k in s.agendas :: TimelyAgenda(s.now, limit, s.agendas[k])
    ensures OneTimely(s, ReadAgendaStep(s, id, q), limit, id)
  {
    if q.phase.Selected? {
      var t := ReadAgendaStep(s, id, q);
      MoveIsTimely(s, t, limit, id, t.lookups[id]);
    }
  }

  lemma LosingIsTimely(s: State, limit: int, id: nat, q: Lookup)
    requires TimelyLookup(s.now, limit, q)
    ensures OneTimely(s, LoseRedisStep(s, id, q), limit, id)
  {
    var t := LoseRedisStep(s, id, q);
    if t != s {
      MoveIsTimely(s, t, limit, id, t.lookups[id]);
    }
  }

  lemma KeysAreTimely(s: State, limit: int, id: nat, q: Lookup, a: Action)
    requires TimelyLookup(s.now, limit, q) && (a.ReadRules? || a.ReadGeneration? || a.ReadVersion?)
    ensures OneTimely(s, LookupStep(s, id, q, a), limit, id)
  {
    var t := LookupStep(s, id, q, a);
    if t != s {
      MoveIsTimely(s, t, limit, id, t.lookups[id]);
    }
  }

  lemma DatabaseIsTimely(s: State, limit: int, id: nat, q: Lookup)
    requires limit >= 0 && TimelyLookup(s.now, limit, q) && s.now <= q.started.at + limit
    ensures OneTimely(s, StartLoadingStep(s, id, q), limit, id)
    ensures OneTimely(s, FinishLoadingStep(s, id, q), limit, id)
  {
    if q.phase.NoAgenda? {
      var t := StartLoadingStep(s, id, q);
      MoveIsTimely(s, t, limit, id, t.lookups[id]);
    } else if q.phase.Loading? {
      var t := FinishLoadingStep(s, id, q);
      MoveIsTimely(s, t, limit, id, t.lookups[id]);
    }
  }

  lemma SelectionIsTimely(s: State, limit: int, id: nat, q: Lookup, found: Selection)
    requires limit >= 0 && TimelyLookup(s.now, limit, q)
    ensures OneTimely(s, SelectionStep(s, id, q, found), limit, id)
  {
    if q.phase.Missed? {
      if found.UnknownService? {
        ReplyIsTimely(s, limit, id, q, Here(s), None);
      } else {
        var t := SelectionStep(s, id, q, found);
        MoveIsTimely(s, t, limit, id, t.lookups[id]);
      }
    }
  }

  lemma DeriveIsTimely(s: State, limit: int, id: nat, q: Lookup)
    requires limit >= 0 && TimelyLookup(s.now, limit, q)
    ensures OneTimely(s, DeriveStep(s, id, q), limit, id)
  {
    if q.phase.HasAgenda? {
      RemainingTtlBounds(q.phase.agenda.builtAt, s.now);
      MoveIsTimely(s, DeriveStep(s, id, q), limit, id, q.(phase := DerivedFrom(s, q.phase)));
    }
  }

  lemma FinishIsTimely(s: State, limit: int, id: nat, q: Lookup)
    requires limit >= 0 && TimelyLookup(s.now, limit, q) && s.now <= q.started.at + limit
    ensures OneTimely(s, FinishStep(s, id, q), limit, id)
  {
    if q.phase.Derived? {
      ReplyIsTimely(s, limit, id, q, q.phase.source, q.phase.origin);
    }
  }

  lemma WriteAgendaIsTimely(s: State, limit: int, id: nat, q: Lookup)
    requires limit >= 0 && TimelyLookup(s.now, limit, q) && s.now <= q.started.at + limit
    ensures OneTimely(s, WriteAgendaStep(s, id, q), limit, id)
  {
    var p := q.phase;
    if p.Derived? && p.keys.Some? && p.toWrite.Some? {
      var e := AgendaEntry(p.toWrite.value, s.now + SLOTS_TTL, p.keys.value);
      assert TimelyAgenda(s.now, limit, e);
      var next := q.(phase := p.(toWrite := None));
      assert TimelyLookup(s.now, limit, next);
      assert WriteAgendaStep(s, id, q) ==
             s.(lookups := s.lookups[id := next], agendas := s.agendas[DayKeyOf(q, p.keys.value) := e]);
    }
  }

  lemma WriteSlotsIsTimely(s: State, limit: int, id: nat, q: Lookup)
    requires limit >= 0 && TimelyLookup(s.now, limit, q) && s.now <= q.started.at + limit
    ensures OneTimely(s, WriteSlotsStep(s, id, q), limit, id)
  {
  }

  predicate UsesDatabase(a: Action) {
    a.ReadSelection? || a.StartLoading? || a.FinishLoading? || a.Derive? || a.Finish?
  }

  lemma DatabaseLookupIsTimely(s: State, limit: int, id: nat, q: Lookup, a: Action)
    requires limit >= 0 && TimelyLookup(s.now, limit, q) && s.now <= q.started.at + limit && UsesDatabase(a)
    ensures OneTimely(s, LookupStep(s, id, q, a), limit, id)
  {
    match a
    case ReadSelection(_, found) => SelectionIsTimely(s, limit, id, q, found);
    case StartLoading(_) => DatabaseIsTimely(s, limit, id, q);
    case FinishLoading(_) => DatabaseIsTimely(s, limit, id, q);
    case Derive(_) => DeriveIsTimely(s, limit, id, q);
    case Finish(_) => FinishIsTimely(s, limit, id, q);
  }

  lemma LookupIsTimely(s: State, limit: int, id: nat, q: Lookup, a: Action)
    requires limit >= 0 && Timely(s, limit) && TimelyLookup(s.now, limit, q) && s.now <= q.started.at + limit
    requires !Global(a)
    ensures OneTimely(s, LookupStep(s, id, q, a), limit, id)
  {
    if UsesDatabase(a) {
      DatabaseLookupIsTimely(s, limit, id, q, a);
    } else {
      match a
      case ReadSlots(_) => ReadSlotsIsTimely(s, limit, id, q);
      case ReadAgenda(_) => ReadAgendaIsTimely(s, limit, id, q);
      case WriteAgenda(_) => WriteAgendaIsTimely(s, limit, id, q);
      case WriteSlots(_) => WriteSlotsIsTimely(s, limit, id, q);
      case LoseRedis(_) => LosingIsTimely(s, limit, id, q);
      case _ => KeysAreTimely(s, limit, id, q, a);
    }
  }

  lemma OneTimelyKeeps(s: State, t: State, limit: int, id: nat)
    requires Timely(s, limit) && OneTimely(s, t, limit, id)
    ensures Timely(t, limit)
  {
  }

  lemma GlobalKeepsTimely(s: State, t: State, limit: int)
    requires Timely(s, limit) && s.now <= t.now
    requires t.agendas == s.agendas && t.slots == s.slots && t.answers == s.answers
    requires forall i | i in t.lookups ::
               if i in s.lookups then t.lookups[i] == s.lookups[i] else JustBegun(s, t, t.lookups[i])
    ensures Timely(t, limit)
  {
  }

  lemma StepKeepsTimely(s: State, limit: int, a: Action)
    requires limit >= 0 && Timely(s, limit)
    ensures Timely(Next(s, limit, a), limit)
  {
    if Global(a) {
      GlobalShape(s, limit, a);
      GlobalKeepsTimely(s, Next(s, limit, a), limit);
    } else if Live(s, limit, a.id) {
      var t := LookupStep(s, a.id, s.lookups[a.id], a);
      LookupIsTimely(s, limit, a.id, s.lookups[a.id], a);
      OneTimelyKeeps(s, t, limit, a.id);
      assert Next(s, limit, a) == t.(step := s.step + 1);
    }
  }

  lemma {:induction false} TimelyAlways(start: int, limit: int, run: seq<Action>, n: nat)
    requires limit >= 0 && n <= |run|
    ensures Timely(After(start, limit, run, n), limit)
  {
    if n > 0 {
      TimelyAlways(start, limit, run, n - 1);
      StepKeepsTimely(After(start, limit, run, n - 1), limit, run[n - 1]);
    }
  }

  /** Whatever invalidations are lost, and for any request length, no read behind an answer,
      of rows or of the store's rules, is older than 301 s plus twice the longest request:
      through both levels, the floored age and the minimum life of one second. */
  lemma StalenessIsBounded(start: int, limit: int, run: seq<Action>, x: Answer)
    requires limit >= 0 && x in After(start, limit, run, |run|).answers
    ensures x.at - x.source.at <= WorstAge(limit) < 301 * SECOND + 2 * limit
    ensures x.origin.Some? ==> x.at - x.origin.value.rules.at <= WorstAge(limit)
  {
    TimelyAlways(start, limit, run, |run|);
  }
}
