/** Coherence of the availability cache over every run. */
module CacheCoherence {
  import opened Clock
  import opened AvailabilityCache
  import opened CacheProtocol
  import opened CacheLog

  // ---------------------------------------------------------------- what data is worth

  /** Readings of both counters that some lookup made. */
  ghost predicate Known(log: Log, store: string, day: int, keys: Keys) {
    && Seen(Generation(store), keys.generation) in log.readings
    && Seen(Version(store, day), keys.version) in log.readings
    && keys.generation.bumps <= |Bumps(log, Generation(store))|
    && keys.version.bumps <= |Bumps(log, Version(store, day))|
  }

  /** A data source that has seen every commit made before the bumps the reading counts. */
  ghost predicate NotOlder(log: Log, key: CounterKey, r: Reading, source: Source) {
    forall i | 0 <= i < |Bumps(log, key)| && i < r.bumps :: Bumps(log, key)[i].commits <= source.commits
  }

  /** The source has seen every commit invalidated before the keys were resolved. */
  ghost predicate Fresh(log: Log, store: string, day: int, keys: Keys, source: Source) {
    && NotOlder(log, Generation(store), keys.generation, source)
    && NotOlder(log, Version(store, day), keys.version, source)
  }

  /** No invalidation of theirs lies between the two resolutions. */
  predicate SameBumps(a: Keys, b: Keys) {
    a.generation.bumps == b.generation.bumps && a.version.bumps == b.version.bumps
  }

  /** The rules were read after the loader resolved its keys. */
  predicate RulesAfterKeys(rules: Moment, keys: Keys) {
    keys.generation.step <= rules.step && keys.version.step <= rules.step
  }

  /** The origin of data held under these keys: its loader resolved the same ones. */
  ghost predicate KeyedOrigin(log: Log, store: string, day: int, keys: Keys, o: Origin) {
    && o.rules in log.moments && o.loader.Some? && Known(log, store, day, o.loader.value)
    && SameBumps(keys, o.loader.value) && (o.early || RulesAfterKeys(o.rules, o.loader.value))
  }

  /** An entry dies while its writer's readings still stand. */
  ghost predicate GoodEntry(log: Log, limit: int, k: DayKey, keys: Keys, source: Source, origin: Option<Origin>,
                            expires: int) {
    && Known(log, k.store, k.day, keys) && Fresh(log, k.store, k.day, keys, source)
    && (origin.Some? ==> KeyedOrigin(log, k.store, k.day, keys, origin.value))
    && keys.generation.value == k.generation && keys.version.value == k.version
    && expires <= keys.generation.at + limit + SLOTS_TTL
    && expires <= keys.version.at + limit + SLOTS_TTL
  }

  /** Who asks: what a lookup and its answer have in common. */
  datatype Reader = Reader(store: string, day: int, started: Moment, seen: Option<Keys>)

  function Of(q: Lookup): Reader {
    Reader(q.store, q.day, q.started, q.seen)
  }

  function By(x: Answer): Reader {
    Reader(x.store, x.day, x.started, x.seen)
  }

  ghost predicate GoodReader(log: Log, r: Reader) {
    && r.started in log.moments
    && (r.seen.Some? ==>
          && Known(log, r.store, r.day, r.seen.value)
          && r.started.at <= r.seen.value.generation.at && r.started.at <= r.seen.value.version.at)
  }

  /** With keys, fresh for them; without, read after the lookup began. */
  ghost predicate FreshFor(log: Log, r: Reader, source: Source) {
    match r.seen
    case Some(keys) => Fresh(log, r.store, r.day, keys, source)
    case None => r.started.commits <= source.commits
  }

  ghost predicate OriginFor(log: Log, r: Reader, o: Origin) {
    match r.seen
    case Some(keys) => KeyedOrigin(log, r.store, r.day, keys, o)
    case None => o.rules in log.moments && o.loader.None? && r.started.rules <= o.rules.rules
  }

  ghost predicate GoodAgenda(log: Log, r: Reader, agenda: Agenda) {
    FreshFor(log, r, agenda.source) && OriginFor(log, r, agenda.origin)
  }

  ghost predicate GoodSlots(log: Log, r: Reader, source: Source, origin: Option<Origin>) {
    FreshFor(log, r, source) && (origin.Some? ==> OriginFor(log, r, origin.value))
  }

  ghost predicate GoodStage(log: Log, q: Lookup) {
    var r := Of(q);
    match q.phase
    case Starting => q.seen.None?
    case GotGeneration(g) =>
      && q.seen.None? && Seen(Generation(q.store), g) in log.readings && q.started.at <= g.at
      && g.bumps <= |Bumps(log, Generation(q.store))|
    case Resolved(keys) => q.seen == Some(keys)
    case Missed(keys) => keys.Some? ==> q.seen == keys
    case Selected(keys, selection) => (keys.Some? ==> q.seen == keys) && FreshFor(log, r, selection)
    case NoAgenda(keys, selection) => (keys.Some? ==> q.seen == keys) && FreshFor(log, r, selection)
    case Loading(keys, selection, loading, rulesFrom) =>
      && (keys.Some? ==> q.seen == keys) && FreshFor(log, r, selection)
      && FreshFor(log, r, loading) && OriginFor(log, r, rulesFrom)
    case HasAgenda(keys, selection, agenda, _) =>
      (keys.Some? ==> q.seen == keys) && FreshFor(log, r, selection) && GoodAgenda(log, r, agenda)
    case Derived(keys, source, origin, toWrite, ttl) =>
      && (keys.Some? ==> q.seen == keys) && GoodSlots(log, r, source, origin) && ttl * SECOND <= SLOTS_TTL
      && (toWrite.Some? ==> GoodAgenda(log, r, toWrite.value))
  }

  ghost predicate GoodPhase(log: Log, q: Lookup) {
    && GoodReader(log, Of(q)) && GoodStage(log, q)
    && (q.rules.Some? ==> q.rules.value in log.moments && q.started.rules <= q.rules.value.rules)
  }

  ghost predicate GoodAnswer(log: Log, x: Answer) {
    GoodReader(log, By(x)) && GoodSlots(log, By(x), x.source, x.origin)
  }

  ghost predicate GoodAgendaEntry(log: Log, limit: int, k: DayKey, e: AgendaEntry) {
    GoodEntry(log, limit, k, e.keys, e.agenda.source, Some(e.agenda.origin), e.expires)
  }

  ghost predicate GoodSlotsEntry(log: Log, limit: int, k: SlotsKey, e: SlotsEntry) {
    GoodEntry(log, limit, k.day, e.keys, e.source, e.origin, e.expires)
  }

  /** Everything stored in `s` is good by `log`. */
  ghost predicate DataGood(s: State, log: Log, limit: int) {
    && (forall k | k in s.agendas :: GoodAgendaEntry(log, limit, k, s.agendas[k]))
    && (forall k | k in s.slots :: GoodSlotsEntry(log, limit, k, s.slots[k]))
    && (forall id | id in s.lookups :: GoodPhase(log, s.lookups[id]))
    && (forall x | x in s.answers :: GoodAnswer(log, x))
  }

  ghost predicate Inv(s: State, limit: int) {
    LogInv(s) && DataGood(s, s.log, limit)
  }

  // ---------------------------------------------------------------- a longer log changes nothing

  lemma FreshExtends(old_: Log, new_: Log, store: string, day: int, keys: Keys, source: Source)
    requires Extends(old_, new_)
    requires Known(old_, store, day, keys)
    ensures Known(new_, store, day, keys)
    ensures Fresh(old_, store, day, keys, source) ==> Fresh(new_, store, day, keys, source)
  {
    assert Bumps(old_, Generation(store)) <= Bumps(new_, Generation(store));
    assert Bumps(old_, Version(store, day)) <= Bumps(new_, Version(store, day));
  }

  lemma OriginExtends(old_: Log, new_: Log, store: string, day: int, keys: Keys, o: Origin)
    requires Extends(old_, new_) && KeyedOrigin(old_, store, day, keys, o)
    ensures KeyedOrigin(new_, store, day, keys, o)
  {
    FreshExtends(old_, new_, store, day, o.loader.value, Source(0, 0));
  }

  lemma EntryExtends(old_: Log, new_: Log, limit: int, k: DayKey, keys: Keys, source: Source, origin: Option<Origin>,
                     expires: int)
    requires Extends(old_, new_) && GoodEntry(old_, limit, k, keys, source, origin, expires)
    ensures GoodEntry(new_, limit, k, keys, source, origin, expires)
  {
    FreshExtends(old_, new_, k.store, k.day, keys, source);
    if origin.Some? {
      OriginExtends(old_, new_, k.store, k.day, keys, origin.value);
    }
  }

  lemma ReaderExtends(old_: Log, new_: Log, r: Reader)
    requires Extends(old_, new_) && GoodReader(old_, r)
    ensures GoodReader(new_, r)
  {
    if r.seen.Some? {
      FreshExtends(old_, new_, r.store, r.day, r.seen.value, Source(0, 0));
    }
  }

  lemma SourceExtends(old_: Log, new_: Log, r: Reader, source: Source)
    requires Extends(old_, new_) && GoodReader(old_, r) && FreshFor(old_, r, source)
    ensures FreshFor(new_, r, source)
  {
    if r.seen.Some? {
      FreshExtends(old_, new_, r.store, r.day, r.seen.value, source);
    }
  }

  lemma OriginForExtends(old_: Log, new_: Log, r: Reader, o: Origin)
    requires Extends(old_, new_) && OriginFor(old_, r, o)
    ensures OriginFor(new_, r, o)
  {
    if r.seen.Some? {
      OriginExtends(old_, new_, r.store, r.day, r.seen.value, o);
    }
  }

  lemma SlotsExtend(old_: Log, new_: Log, r: Reader, source: Source, origin: Option<Origin>)
    requires Extends(old_, new_) && GoodReader(old_, r) && GoodSlots(old_, r, source, origin)
    ensures GoodSlots(new_, r, source, origin)
  {
    SourceExtends(old_, new_, r, source);
    if origin.Some? {
      OriginForExtends(old_, new_, r, origin.value);
    }
  }

  lemma StageExtends(old_: Log, new_: Log, q: Lookup)
    requires Extends(old_, new_) && GoodReader(old_, Of(q)) && GoodStage(old_, q)
    ensures GoodStage(new_, q)
  {
    var r := Of(q);
    match q.phase
    case GotGeneration(g) => assert Bumps(old_, Generation(q.store)) <= Bumps(new_, Generation(q.store));
    case Selected(_, selection) => SourceExtends(old_, new_, r, selection);
    case NoAgenda(_, selection) => SourceExtends(old_, new_, r, selection);
    case Loading(_, selection, loading, rulesFrom) =>
      SourceExtends(old_, new_, r, selection);
      SourceExtends(old_, new_, r, loading);
      OriginForExtends(old_, new_, r, rulesFrom);
    case HasAgenda(_, selection, agenda, _) =>
      SourceExtends(old_, new_, r, selection);
      SlotsExtend(old_, new_, r, agenda.source, Some(agenda.origin));
    case Derived(_, source, origin, toWrite, _) =>
      SlotsExtend(old_, new_, r, source, origin);
      if toWrite.Some? {
        SlotsExtend(old_, new_, r, toWrite.value.source, Some(toWrite.value.origin));
      }
    case _ =>
  }

  lemma PhaseExtends(old_: Log, new_: Log, q: Lookup)
    requires Extends(old_, new_) && GoodPhase(old_, q)
    ensures GoodPhase(new_, q)
  {
    ReaderExtends(old_, new_, Of(q));
    StageExtends(old_, new_, q);
  }

  lemma AnswerExtends(old_: Log, new_: Log, x: Answer)
    requires Extends(old_, new_) && GoodAnswer(old_, x)
    ensures GoodAnswer(new_, x)
  {
    ReaderExtends(old_, new_, By(x));
    SlotsExtend(old_, new_, By(x), x.source, x.origin);
  }

  lemma DataExtends(s: State, log: Log, limit: int)
    requires Extends(s.log, log) && DataGood(s, s.log, limit)
    ensures DataGood(s, log, limit)
  {
    forall k | k in s.agendas ensures GoodAgendaEntry(log, limit, k, s.agendas[k]) {
      var e := s.agendas[k];
      EntryExtends(s.log, log, limit, k, e.keys, e.agenda.source, Some(e.agenda.origin), e.expires);
    }
    forall k | k in s.slots ensures GoodSlotsEntry(log, limit, k, s.slots[k]) {
      var e := s.slots[k];
      EntryExtends(s.log, log, limit, k.day, e.keys, e.source, e.origin, e.expires);
    }
    forall id | id in s.lookups ensures GoodPhase(log, s.lookups[id]) {
      PhaseExtends(s.log, log, s.lookups[id]);
    }
    forall x | x in s.answers ensures GoodAnswer(log, x) {
      AnswerExtends(s.log, log, x);
    }
  }

  // ---------------------------------------------------------------- reads are fresh

  /** A database read made now is fresh for every key resolved so far. */
  lemma ReadingNowIsFresh(s: State, r: Reader)
    requires LogInv(s) && GoodReader(s.log, r)
    ensures FreshFor(s.log, r, Here(s))
  {
    assert GoodMoment(s, r.started);
    assert GoodBumps(s, Generation(r.store)) && GoodBumps(s, Version(r.store, r.day));
  }

  /** The rules a lookup loads an agenda with: its own, read before or after its keys. */
  lemma OwnOrigin(s: State, q: Lookup)
    requires LogInv(s) && GoodPhase(s.log, q) && q.phase.NoAgenda?
    ensures OriginFor(Note(s).log, Of(q), OriginOf(s, q))
  {
    assert GoodMoment(s, q.started);
    if q.seen.Some? {
      var keys := q.seen.value;
      assert GoodReading(s, Seen(Generation(q.store), keys.generation));
      assert GoodReading(s, Seen(Version(q.store, q.day), keys.version));
    }
  }

  /** The heart of the cache: an entry found alive under the keys a lookup resolved was
      written by a lookup with the same bumps behind it, so its data is fresh for this one. */
  lemma HitIsFresh(s: State, limit: int, q: Lookup, keys: Keys, writer: Keys, source: Source, origin: Option<Origin>,
                   expires: int)
    requires CountersInv(s) && GoodReader(s.log, Of(q)) && q.seen == Some(keys)
    requires GoodEntry(s.log, limit, DayKeyOf(q, keys), writer, source, origin, expires)
    requires s.now < expires && s.now <= q.started.at + limit
    requires limit + SLOTS_TTL <= VERSION_TTL
    ensures SameBumps(keys, writer) && GoodSlots(s.log, Of(q), source, origin)
  {
    var g, v := Generation(q.store), Version(q.store, q.day);
    assert Agree(s.now, Seen(g, keys.generation), Seen(g, writer.generation));
    assert Agree(s.now, Seen(v, keys.version), Seen(v, writer.version));
  }

  // ---------------------------------------------------------------- every step keeps the data fresh

  /** A step of one lookup changes that lookup, perhaps the answers, perhaps one entry. */
  ghost predicate OneLookup(s: State, t: State, limit: int, id: nat) {
    && (forall i | i in t.lookups ::
          (i in s.lookups && t.lookups[i] == s.lookups[i]) || GoodPhase(t.log, t.lookups[i]))
    && (forall x | x in t.answers :: x in s.answers || GoodAnswer(t.log, x))
    && (forall k | k in t.agendas ::
          (k in s.agendas && t.agendas[k] == s.agendas[k]) || GoodAgendaEntry(t.log, limit, k, t.agendas[k]))
    && (forall k | k in t.slots ::
          (k in s.slots && t.slots[k] == s.slots[k]) || GoodSlotsEntry(t.log, limit, k, t.slots[k]))
  }

  lemma OneLookupKeepsData(s: State, t: State, limit: int, id: nat)
    requires DataGood(s, t.log, limit) && OneLookup(s, t, limit, id)
    ensures DataGood(t, t.log, limit)
  {
  }

  lemma MoveKeepsData(s: State, t: State, limit: int, id: nat, q: Lookup)
    requires t.agendas == s.agendas && t.slots == s.slots && t.answers == s.answers
    requires t.lookups == s.lookups[id := q] && GoodPhase(t.log, q)
    ensures OneLookup(s, t, limit, id)
  {
  }

  lemma ReplyKeepsData(s: State, limit: int, id: nat, q: Lookup, source: Source, origin: Option<Origin>)
    requires GoodReader(s.log, Of(q)) && GoodSlots(s.log, Of(q), source, origin)
    ensures OneLookup(s, Reply(s, id, q, source, origin), limit, id)
  {
    assert By(Answer(q.store, q.day, q.started, q.seen, source, origin, s.now)) == Of(q);
  }

  lemma ReadRulesKeepsData(s: State, limit: int, id: nat, q: Lookup)
    requires LogInv(s) && id in s.lookups && q == s.lookups[id] && GoodPhase(s.log, q)
    ensures OneLookup(s, ReadRulesStep(s, id, q), limit, id)
  {
    if q.phase.Starting? && q.rules.None? {
      assert GoodMoment(s, q.started);
      MoveKeepsData(s, ReadRulesStep(s, id, q), limit, id, q.(rules := Some(Now(s))));
    }
  }

  lemma ReadingsKeepData(s: State, limit: int, id: nat, q: Lookup)
    requires LogInv(s) && id in s.lookups && q == s.lookups[id] && GoodPhase(s.log, q)
    ensures OneLookup(s, ReadGenerationStep(s, id, q), limit, id)
    ensures OneLookup(s, ReadVersionStep(s, id, q), limit, id)
  {
    assert GoodMoment(s, q.started);
    if q.phase.Starting? {
      MoveKeepsData(s, ReadGenerationStep(s, id, q), limit, id,
                    q.(phase := GotGeneration(Read(s, Generation(q.store)))));
    }
    if q.phase.GotGeneration? {
      var keys := Keys(q.phase.generation, Read(s, Version(q.store, q.day)));
      MoveKeepsData(s, ReadVersionStep(s, id, q), limit, id, q.(seen := Some(keys), phase := Resolved(keys)));
    }
  }

  lemma LosingKeepsData(s: State, limit: int, id: nat, q: Lookup)
    requires id in s.lookups && q == s.lookups[id] && GoodPhase(s.log, q)
    ensures OneLookup(s, LoseRedisStep(s, id, q), limit, id)
  {
    if q.phase.Selected? {
      MoveKeepsData(s, LoseRedisStep(s, id, q), limit, id, q.(phase := NoAgenda(None, q.phase.selection)));
    } else if q.phase.Starting? || q.phase.GotGeneration? || q.phase.Resolved? {
      MoveKeepsData(s, LoseRedisStep(s, id, q), limit, id, q.(phase := Missed(None)));
    }
  }

  lemma SlotsHitIsFresh(s: State, limit: int, q: Lookup)
    requires Inv(s, limit) && GoodPhase(s.log, q) && q.phase.Resolved? && SlotsHit(s, SlotsKeyOf(q, q.phase.resolved))
    requires s.now <= q.started.at + limit && limit + SLOTS_TTL <= VERSION_TTL
    ensures var e := s.slots[SlotsKeyOf(q, q.phase.resolved)];
            GoodSlots(s.log, Of(q), e.source, e.origin)
  {
    var e := s.slots[SlotsKeyOf(q, q.phase.resolved)];
    assert GoodSlotsEntry(s.log, limit, SlotsKeyOf(q, q.phase.resolved), e);
    HitIsFresh(s, limit, q, q.phase.resolved, e.keys, e.source, e.origin, e.expires);
  }

  predicate FindsAgenda(s: State, q: Lookup) {
    q.phase.Selected? && q.phase.keys.Some? && AgendaHit(s, DayKeyOf(q, q.phase.keys.value))
  }

  lemma AgendaHitIsFresh(s: State, limit: int, q: Lookup)
    requires Inv(s, limit) && GoodPhase(s.log, q) && FindsAgenda(s, q)
    requires s.now <= q.started.at + limit && limit + SLOTS_TTL <= VERSION_TTL
    ensures GoodAgenda(s.log, Of(q), s.agendas[DayKeyOf(q, q.phase.keys.value)].agenda)
  {
    var e := s.agendas[DayKeyOf(q, q.phase.keys.value)];
    assert GoodAgendaEntry(s.log, limit, DayKeyOf(q, q.phase.keys.value), e);
    HitIsFresh(s, limit, q, q.phase.keys.value, e.keys, e.agenda.source, Some(e.agenda.origin), e.expires);
  }

  lemma ReadSlotsKeepsData(s: State, limit: int, id: nat, q: Lookup)
    requires Inv(s, limit) && id in s.lookups && q == s.lookups[id] && GoodPhase(s.log, q)
    requires s.now <= q.started.at + limit && limit + SLOTS_TTL <= VERSION_TTL
    ensures OneLookup(s, ReadSlotsStep(s, id, q), limit, id)
  {
    if q.phase.Resolved? {
      var keys := q.phase.resolved;
      if SlotsHit(s, SlotsKeyOf(q, keys)) {
        SlotsHitIsFresh(s, limit, q);
        var e := s.slots[SlotsKeyOf(q, keys)];
        ReplyKeepsData(s, limit, id, q, e.source, e.origin);
      } else {
        MoveKeepsData(s, ReadSlotsStep(s, id, q), limit, id, q.(phase := Missed(Some(keys))));
      }
    }
  }

  lemma SelectionKeepsData(s: State, limit: int, id: nat, q: Lookup, found: Selection)
    requires LogInv(s) && id in s.lookups && q == s.lookups[id] && GoodPhase(s.log, q)
    ensures OneLookup(s, SelectionStep(s, id, q, found), limit, id)
  {
    if q.phase.Missed? {
      ReadingNowIsFresh(s, Of(q));
      var t := SelectionStep(s, id, q, found);
      match found
      case UnknownService => ReplyKeepsData(s, limit, id, q, Here(s), None);
      case NoStaff => MoveKeepsData(s, t, limit, id,
                                    q.(phase := Derived(q.phase.keys, Here(s), None, None, SLOTS_TTL / SECOND)));
      case SomeStaff => MoveKeepsData(s, t, limit, id, q.(phase := Selected(q.phase.keys, Here(s))));
    }
  }

  lemma ReadAgendaKeepsData(s: State, limit: int, id: nat, q: Lookup)
    requires Inv(s, limit) && id in s.lookups && q == s.lookups[id] && GoodPhase(s.log, q)
    requires s.now <= q.started.at + limit && limit + SLOTS_TTL <= VERSION_TTL
    ensures OneLookup(s, ReadAgendaStep(s, id, q), limit, id)
  {
    if q.phase.Selected? {
      var keys, selection := q.phase.keys, q.phase.selection;
      var t := ReadAgendaStep(s, id, q);
      if FindsAgenda(s, q) {
        AgendaHitIsFresh(s, limit, q);
        var agenda := s.agendas[DayKeyOf(q, keys.value)].agenda;
        MoveKeepsData(s, t, limit, id, q.(phase := HasAgenda(keys, selection, agenda, false)));
      } else {
        MoveKeepsData(s, t, limit, id, q.(phase := NoAgenda(keys, selection)));
      }
    }
  }

  lemma StartLoadingKeepsData(s: State, limit: int, id: nat, q: Lookup)
    requires LogInv(s) && id in s.lookups && q == s.lookups[id] && GoodPhase(s.log, q)
    ensures OneLookup(s, StartLoadingStep(s, id, q), limit, id)
  {
    if q.phase.NoAgenda? {
      var p := q.phase;
      ReadingNowIsFresh(s, Of(q));
      OwnOrigin(s, q);
      var t := StartLoadingStep(s, id, q);
      assert t.log == Note(s).log && Extends(s.log, t.log);
      var next := q.(phase := Loading(p.keys, p.selection, Here(s), OriginOf(s, q)));
      ReaderExtends(s.log, t.log, Of(q));
      SourceExtends(s.log, t.log, Of(q), p.selection);
      SourceExtends(s.log, t.log, Of(q), Here(s));
      assert Of(next) == Of(q);
      MoveKeepsData(s, t, limit, id, next);
    }
  }

  lemma FinishLoadingKeepsData(s: State, limit: int, id: nat, q: Lookup)
    requires id in s.lookups && q == s.lookups[id] && GoodPhase(s.log, q)
    ensures OneLookup(s, FinishLoadingStep(s, id, q), limit, id)
  {
    var p := q.phase;
    if p.Loading? {
      var agenda := Agenda(p.loading, s.now, p.rulesFrom);
      var next := q.(phase := HasAgenda(p.keys, p.selection, agenda, true));
      assert Of(next) == Of(q);
      MoveKeepsData(s, FinishLoadingStep(s, id, q), limit, id, next);
    }
  }

  lemma DeriveKeepsData(s: State, limit: int, id: nat, q: Lookup)
    requires id in s.lookups && q == s.lookups[id] && GoodPhase(s.log, q)
    ensures OneLookup(s, DeriveStep(s, id, q), limit, id)
  {
    var p := q.phase;
    if p.HasAgenda? {
      var next := q.(phase := DerivedFrom(s, p));
      assert Of(next) == Of(q);
      assert FreshFor(s.log, Of(q), Older(p.selection, p.agenda.source));
      MoveKeepsData(s, DeriveStep(s, id, q), limit, id, next);
    }
  }

  lemma FinishKeepsData(s: State, limit: int, id: nat, q: Lookup)
    requires id in s.lookups && q == s.lookups[id] && GoodPhase(s.log, q)
    ensures OneLookup(s, FinishStep(s, id, q), limit, id)
  {
    if q.phase.Derived? {
      ReplyKeepsData(s, limit, id, q, q.phase.source, q.phase.origin);
    }
  }

  /** What is written under the keys dies before the readings behind them stop standing. */
  lemma WriteSlotsKeepsData(s: State, limit: int, id: nat, q: Lookup)
    requires id in s.lookups && q == s.lookups[id] && GoodPhase(s.log, q) && s.now <= q.started.at + limit
    ensures OneLookup(s, WriteSlotsStep(s, id, q), limit, id)
  {
    var p := q.phase;
    if p.Derived? && p.keys.Some? {
      var keys := p.keys.value;
      var e := SlotsEntry(p.source, p.origin, s.now + p.ttl * SECOND, keys);
      assert GoodSlotsEntry(s.log, limit, SlotsKeyOf(q, keys), e);
      assert WriteSlotsStep(s, id, q) == s.(slots := s.slots[SlotsKeyOf(q, keys) := e]);
    }
  }

  lemma WriteAgendaKeepsData(s: State, limit: int, id: nat, q: Lookup)
    requires id in s.lookups && q == s.lookups[id] && GoodPhase(s.log, q) && s.now <= q.started.at + limit
    ensures OneLookup(s, WriteAgendaStep(s, id, q), limit, id)
  {
    var p := q.phase;
    if p.Derived? && p.keys.Some? && p.toWrite.Some? {
      var keys := p.keys.value;
      var e := AgendaEntry(p.toWrite.value, s.now + SLOTS_TTL, keys);
      assert GoodAgendaEntry(s.log, limit, DayKeyOf(q, keys), e);
      var next := q.(phase := p.(toWrite := None));
      assert Of(next) == Of(q) && GoodPhase(s.log, next);
      assert WriteAgendaStep(s, id, q) ==
             s.(lookups := s.lookups[id := next], agendas := s.agendas[DayKeyOf(q, keys) := e]);
    }
  }

  predicate Reads(a: Action) {
    a.ReadRules? || a.ReadGeneration? || a.ReadVersion? || a.ReadSlots? || a.ReadSelection? || a.ReadAgenda?
  }

  lemma ResolvingLookupKeepsData(s: State, limit: int, id: nat, q: Lookup, a: Action)
    requires LogInv(s) && id in s.lookups && q == s.lookups[id] && GoodPhase(s.log, q)
    requires a.ReadRules? || a.ReadGeneration? || a.ReadVersion?
    ensures OneLookup(s, LookupStep(s, id, q, a), limit, id)
  {
    if a.ReadRules? {
      ReadRulesKeepsData(s, limit, id, q);
    } else {
      ReadingsKeepData(s, limit, id, q);
    }
  }

  lemma ReadingLookupKeepsData(s: State, limit: int, id: nat, q: Lookup, a: Action)
    requires Inv(s, limit) && id in s.lookups && q == s.lookups[id] && GoodPhase(s.log, q)
    requires s.now <= q.started.at + limit && limit + SLOTS_TTL <= VERSION_TTL
    requires a.ReadSlots? || a.ReadSelection? || a.ReadAgenda?
    ensures OneLookup(s, LookupStep(s, id, q, a), limit, id)
  {
    if a.ReadSlots? {
      ReadSlotsKeepsData(s, limit, id, q);
    } else if a.ReadSelection? {
      SelectionKeepsData(s, limit, id, q, a.found);
    } else {
      ReadAgendaKeepsData(s, limit, id, q);
    }
  }

  lemma WorkingLookupKeepsData(s: State, limit: int, id: nat, q: Lookup, a: Action)
    requires LogInv(s) && id in s.lookups && q == s.lookups[id] && GoodPhase(s.log, q)
    requires s.now <= q.started.at + limit && !Reads(a) && !Global(a)
    ensures OneLookup(s, LookupStep(s, id, q, a), limit, id)
  {
    match a
    case LoseRedis(_) => LosingKeepsData(s, limit, id, q);
    case StartLoading(_) => StartLoadingKeepsData(s, limit, id, q);
    case FinishLoading(_) => FinishLoadingKeepsData(s, limit, id, q);
    case Derive(_) => DeriveKeepsData(s, limit, id, q);
    case WriteAgenda(_) => WriteAgendaKeepsData(s, limit, id, q);
    case WriteSlots(_) => WriteSlotsKeepsData(s, limit, id, q);
    case Finish(_) => FinishKeepsData(s, limit, id, q);
  }

  lemma LookupKeepsData(s: State, limit: int, id: nat, a: Action)
    requires Inv(s, limit) && id in s.lookups && s.now <= s.lookups[id].started.at + limit
    requires limit + SLOTS_TTL <= VERSION_TTL && !Global(a)
    ensures OneLookup(s, LookupStep(s, id, s.lookups[id], a), limit, id)
  {
    assert GoodPhase(s.log, s.lookups[id]);
    if a.ReadRules? || a.ReadGeneration? || a.ReadVersion? {
      ResolvingLookupKeepsData(s, limit, id, s.lookups[id], a);
    } else if Reads(a) {
      ReadingLookupKeepsData(s, limit, id, s.lookups[id], a);
    } else {
      WorkingLookupKeepsData(s, limit, id, s.lookups[id], a);
    }
  }

  lemma GlobalKeepsData(s: State, t: State, limit: int)
    requires DataGood(s, t.log, limit)
    requires t.agendas == s.agendas && t.slots == s.slots && t.answers == s.answers
    requires forall i | i in t.lookups ::
               if i in s.lookups then t.lookups[i] == s.lookups[i] else GoodPhase(t.log, t.lookups[i])
    ensures DataGood(t, t.log, limit)
  {
  }

  lemma GlobalStepKeepsData(s: State, limit: int, a: Action)
    requires Inv(s, limit) && Global(a) && Extends(s.log, Next(s, limit, a).log)
    ensures DataGood(Next(s, limit, a), Next(s, limit, a).log, limit)
  {
    DataExtends(s, Next(s, limit, a).log, limit);
    GlobalShape(s, limit, a);
    GlobalKeepsData(s, Next(s, limit, a), limit);
  }

  lemma LookupStepKeepsData(s: State, limit: int, id: nat, a: Action)
    requires Inv(s, limit) && id in s.lookups && s.now <= s.lookups[id].started.at + limit
    requires limit + SLOTS_TTL <= VERSION_TTL && !Global(a)
    requires Extends(s.log, LookupStep(s, id, s.lookups[id], a).log)
    ensures var t := LookupStep(s, id, s.lookups[id], a); DataGood(t, t.log, limit)
  {
    var t := LookupStep(s, id, s.lookups[id], a);
    DataExtends(s, t.log, limit);
    LookupKeepsData(s, limit, id, a);
    OneLookupKeepsData(s, t, limit, id);
  }

  lemma StepKeepsInv(s: State, limit: int, a: Action)
    requires Inv(s, limit) && limit + SLOTS_TTL <= VERSION_TTL
    ensures Inv(Next(s, limit, a), limit)
  {
    StepKeepsLog(s, limit, a);
    StepExtends(s, limit, a);
    if Global(a) {
      GlobalStepKeepsData(s, limit, a);
    } else if Live(s, limit, a.id) {
      LookupStepKeepsData(s, limit, a.id, a);
      assert Next(s, limit, a) == LookupStep(s, a.id, s.lookups[a.id], a).(step := s.step + 1);
    }
  }

  lemma {:induction false} InvAlways(start: int, limit: int, run: seq<Action>, n: nat)
    requires n <= |run| && limit + SLOTS_TTL <= VERSION_TTL
    ensures Inv(After(start, limit, run, n), limit)
  {
    if n > 0 {
      InvAlways(start, limit, run, n - 1);
      StepKeepsInv(After(start, limit, run, n - 1), limit, run[n - 1]);
    }
  }
}
