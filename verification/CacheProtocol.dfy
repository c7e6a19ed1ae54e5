/** The availability cache as a concurrent protocol. A lookup may read the store's rules,
    resolves its keys, reads two cache levels and the database, and writes later under the keys
    it read; commits, invalidations, expiries and other lookups happen in between, in any order. */
module CacheProtocol {
  import opened Clock
  import opened AvailabilityCache

  /** One reading of a counter: its value, when and at which step of the run it was read,
      and how many times the counter had been bumped before. */
  datatype Reading = Reading(value: nat, at: int, step: nat, bumps: nat)

  /** The two readings the keys of a lookup are built from. */
  datatype Keys = Keys(generation: Reading, version: Reading)

  /** What a read of rows is worth: how many commits it had seen, and when it was made. */
  datatype Source = Source(commits: nat, at: int)

  /** A moment of the run: the commits and the commits of store rules made by then, the time
      and the step. */
  datatype Moment = Moment(commits: nat, rules: nat, at: int, step: nat)

  /** Where the rules of an agenda come from: when they were read, whether that was before
      resolving the keys, and the keys of the lookup that loaded the agenda. */
  datatype Origin = Origin(rules: Moment, early: bool, loader: Option<Keys>)

  /** A day agenda: when its rows and its rules were read, and `built_at`. */
  datatype Agenda = Agenda(source: Source, builtAt: int, origin: Origin)

  datatype DayKey = DayKey(store: string, day: int, generation: nat, version: nat)

  datatype SlotsKey = SlotsKey(day: DayKey, segment: string)

  datatype AgendaEntry = AgendaEntry(agenda: Agenda, expires: int, keys: Keys)

  datatype SlotsEntry = SlotsEntry(source: Source, origin: Option<Origin>, expires: int, keys: Keys)

  /** Where a lookup is. A lookup without keys lost Redis and does not write. Slots of nobody
      have no origin: no rules enter in them. */
  datatype Phase =
    | Starting
    | GotGeneration(generation: Reading)
    | Resolved(resolved: Keys)
    | Missed(keys: Option<Keys>)
    | Selected(keys: Option<Keys>, selection: Source)
    | NoAgenda(keys: Option<Keys>, selection: Source)
    | Loading(keys: Option<Keys>, selection: Source, loading: Source, rulesFrom: Origin)
    | HasAgenda(keys: Option<Keys>, selection: Source, agenda: Agenda, fromDatabase: bool)
    | Derived(keys: Option<Keys>, source: Source, origin: Option<Origin>, toWrite: Option<Agenda>, ttl: int)

  /** `rules` is what the public endpoint reads before asking for slots, None on the panel's
      path; `seen` the keys once resolved, also when Redis is lost afterwards. */
  datatype Lookup = Lookup(
    store: string,
    day: int,
    segment: string,
    started: Moment,
    rules: Option<Moment>,
    seen: Option<Keys>,
    phase: Phase)

  /** Slots handed to a client. */
  datatype Answer = Answer(
    store: string,
    day: int,
    started: Moment,
    seen: Option<Keys>,
    source: Source,
    origin: Option<Origin>,
    at: int)

  /** A reading some lookup made of a counter. */
  datatype Seen = Seen(key: CounterKey, reading: Reading)

  /** What the query for the service and its professionals finds. */
  datatype Selection = UnknownService | NoStaff | SomeStaff

  /** One INCR: its step, and the commits and rules commits the database had by then. */
  datatype BumpRecord = BumpRecord(step: nat, commits: nat, rules: nat)

  /** What really happened, which no lookup can see: every bump, every reading of a counter,
      the steps of the commits of rules, and every moment a lookup noted. */
  datatype Log = Log(
    history: map<CounterKey, seq<BumpRecord>>,
    readings: set<Seen>,
    ruleCommits: seq<nat>,
    moments: set<Moment>)

  datatype State = State(
    now: int,
    step: nat,
    commits: nat,
    counters: Counters,
    log: Log,
    agendas: map<DayKey, AgendaEntry>,
    slots: map<SlotsKey, SlotsEntry>,
    lookups: map<nat, Lookup>,
    answers: set<Answer>)

  datatype Action =
    | Tick(elapsed: nat)
    | Commit(rules: bool)
    | Invalidate(keys: set<CounterKey>)
    | Begin(id: nat, store: string, day: int, segment: string)
    | ReadRules(id: nat)
    | ReadGeneration(id: nat)
    | ReadVersion(id: nat)
    | LoseRedis(id: nat)
    | ReadSlots(id: nat)
    | ReadSelection(id: nat, found: Selection)
    | ReadAgenda(id: nat)
    | StartLoading(id: nat)
    | FinishLoading(id: nat)
    | Derive(id: nat)
    | WriteAgenda(id: nat)
    | WriteSlots(id: nat)
    | Finish(id: nat)

  function Start(now: int): State {
    State(now, 0, 0, map[], Log(map[], {}, [], {}), map[], map[], map[], {})
  }

  function Bumps(log: Log, key: CounterKey): seq<BumpRecord> {
    if key in log.history then log.history[key] else []
  }

  function Read(s: State, key: CounterKey): Reading {
    Reading(CounterValue(s.counters, s.now, key), s.now, s.step, |Bumps(s.log, key)|)
  }

  function DayKeyOf(q: Lookup, keys: Keys): DayKey {
    DayKey(q.store, q.day, keys.generation.value, keys.version.value)
  }

  function SlotsKeyOf(q: Lookup, keys: Keys): SlotsKey {
    SlotsKey(DayKeyOf(q, keys), q.segment)
  }

  function Here(s: State): Source {
    Source(s.commits, s.now)
  }

  function Now(s: State): Moment {
    Moment(s.commits, |s.log.ruleCommits|, s.now, s.step)
  }

  function Note(s: State): State {
    s.(log := s.log.(moments := s.log.moments + {Now(s)}))
  }

  function Older(a: Source, b: Source): Source {
    Source(if a.commits < b.commits then a.commits else b.commits, Min(a.at, b.at))
  }

  /** Seconds left to a cached agenda, at least one. */
  function RemainingTtl(builtAt: int, now: int): int {
    Max(1, SLOTS_TTL / SECOND - Max(0, (now - builtAt) / SECOND))
  }

  predicate SlotsHit(s: State, key: SlotsKey) {
    key in s.slots && s.now < s.slots[key].expires
  }

  predicate AgendaHit(s: State, key: DayKey) {
    key in s.agendas && s.now < s.agendas[key].expires
  }

  /** The lookup exists, is in time (it started at most `limit` ago), and is at that phase. */
  predicate Live(s: State, limit: int, id: nat) {
    id in s.lookups && s.now <= s.lookups[id].started.at + limit
  }

  function Move(s: State, id: nat, q: Lookup, phase: Phase): State {
    s.(lookups := s.lookups[id := q.(phase := phase)])
  }

  function Reply(s: State, id: nat, q: Lookup, source: Source, origin: Option<Origin>): State {
    s.(lookups := s.lookups - {id},
       answers := s.answers + {Answer(q.store, q.day, q.started, q.seen, source, origin, s.now)})
  }

  /** GETEX of a counter. */
  function Observe(s: State, key: CounterKey): State {
    s.(counters := Touch(s.counters, s.now, key),
       log := s.log.(readings := s.log.readings + {Seen(key, Read(s, key))}))
  }

  // The steps of a lookup, in the order it makes them. A step that is not enabled changes
  // nothing.

  /** The public endpoint reads notice and buffer with the store, before the cache. */
  function ReadRulesStep(s: State, id: nat, q: Lookup): State {
    if q.phase.Starting? && q.rules.None? then Note(Move(s, id, q.(rules := Some(Now(s))), Starting)) else s
  }

  function ReadGenerationStep(s: State, id: nat, q: Lookup): State {
    var key := Generation(q.store);
    if q.phase.Starting? then Observe(Move(s, id, q, GotGeneration(Read(s, key))), key) else s
  }

  function ReadVersionStep(s: State, id: nat, q: Lookup): State {
    var key := Version(q.store, q.day);
    if q.phase.GotGeneration? then
      var keys := Keys(q.phase.generation, Read(s, key));
      Observe(Move(s, id, q.(seen := Some(keys)), Resolved(keys)), key)
    else s
  }

  /** Redis fails: before the first level is read, or when the agenda is. */
  function LoseRedisStep(s: State, id: nat, q: Lookup): State {
    if q.phase.Starting? || q.phase.GotGeneration? || q.phase.Resolved? then Move(s, id, q, Missed(None))
    else if q.phase.Selected? then Move(s, id, q, NoAgenda(None, q.phase.selection))
    else s
  }

  function ReadSlotsStep(s: State, id: nat, q: Lookup): State {
    if !q.phase.Resolved? then s
    else
      var key := SlotsKeyOf(q, q.phase.resolved);
      if SlotsHit(s, key) then Reply(s, id, q, s.slots[key].source, s.slots[key].origin)
      else Move(s, id, q, Missed(Some(q.phase.resolved)))
  }

  function SelectionStep(s: State, id: nat, q: Lookup, found: Selection): State {
    if !q.phase.Missed? then s
    else if found.UnknownService? then Reply(s, id, q, Here(s), None)
    else if found.NoStaff? then Move(s, id, q, Derived(q.phase.keys, Here(s), None, None, SLOTS_TTL / SECOND))
    else Move(s, id, q, Selected(q.phase.keys, Here(s)))
  }

  function ReadAgendaStep(s: State, id: nat, q: Lookup): State {
    if !q.phase.Selected? then s
    else if q.phase.keys.Some? && AgendaHit(s, DayKeyOf(q, q.phase.keys.value)) then
      var agenda := s.agendas[DayKeyOf(q, q.phase.keys.value)].agenda;
      Move(s, id, q, HasAgenda(q.phase.keys, q.phase.selection, agenda, false))
    else Move(s, id, q, NoAgenda(q.phase.keys, q.phase.selection))
  }

  /** The rules the request brought; without them, they are read first. */
  function OriginOf(s: State, q: Lookup): Origin {
    Origin(q.rules.GetOr(Now(s)), q.rules.Some?, q.seen)
  }

  function StartLoadingStep(s: State, id: nat, q: Lookup): State {
    if q.phase.NoAgenda? then
      Note(Move(s, id, q, Loading(q.phase.keys, q.phase.selection, Here(s), OriginOf(s, q))))
    else s
  }

  function FinishLoadingStep(s: State, id: nat, q: Lookup): State {
    if q.phase.Loading? then
      Move(s, id, q, HasAgenda(q.phase.keys, q.phase.selection, Agenda(q.phase.loading, s.now, q.phase.rulesFrom),
                               true))
    else s
  }

  function DerivedFrom(s: State, p: Phase): Phase
    requires p.HasAgenda?
  {
    Derived(p.keys, Older(p.selection, p.agenda.source), Some(p.agenda.origin),
            if p.fromDatabase then Some(p.agenda) else None,
            RemainingTtl(p.agenda.builtAt, s.now))
  }

  function DeriveStep(s: State, id: nat, q: Lookup): State {
    if q.phase.HasAgenda? then Move(s, id, q, DerivedFrom(s, q.phase)) else s
  }

  function WriteAgendaStep(s: State, id: nat, q: Lookup): State {
    if q.phase.Derived? && q.phase.keys.Some? && q.phase.toWrite.Some? then
      var keys := q.phase.keys.value;
      Move(s, id, q, q.phase.(toWrite := None))
        .(agendas := s.agendas[DayKeyOf(q, keys) := AgendaEntry(q.phase.toWrite.value, s.now + SLOTS_TTL, keys)])
    else s
  }

  function WriteSlotsStep(s: State, id: nat, q: Lookup): State {
    if q.phase.Derived? && q.phase.keys.Some? then
      var keys := q.phase.keys.value;
      s.(slots := s.slots[SlotsKeyOf(q, keys) := SlotsEntry(q.phase.source, q.phase.origin,
                                                            s.now + q.phase.ttl * SECOND, keys)])
    else s
  }

  function FinishStep(s: State, id: nat, q: Lookup): State {
    if q.phase.Derived? then Reply(s, id, q, q.phase.source, q.phase.origin) else s
  }

  function LookupStep(s: State, id: nat, q: Lookup, a: Action): State {
    match a
    case ReadRules(_) => ReadRulesStep(s, id, q)
    case ReadGeneration(_) => ReadGenerationStep(s, id, q)
    case ReadVersion(_) => ReadVersionStep(s, id, q)
    case LoseRedis(_) => LoseRedisStep(s, id, q)
    case ReadSlots(_) => ReadSlotsStep(s, id, q)
    case ReadSelection(_, found) => SelectionStep(s, id, q, found)
    case ReadAgenda(_) => ReadAgendaStep(s, id, q)
    case StartLoading(_) => StartLoadingStep(s, id, q)
    case FinishLoading(_) => FinishLoadingStep(s, id, q)
    case Derive(_) => DeriveStep(s, id, q)
    case WriteAgenda(_) => WriteAgendaStep(s, id, q)
    case WriteSlots(_) => WriteSlotsStep(s, id, q)
    case Finish(_) => FinishStep(s, id, q)
    case _ => s
  }

  function Act(s: State, limit: int, a: Action): State {
    match a
    case Tick(elapsed) => s.(now := s.now + elapsed)
    case Commit(rules) =>
      s.(commits := s.commits + 1,
         log := s.log.(ruleCommits := s.log.ruleCommits + if rules then [s.step] else []))
    case Invalidate(keys) =>
      s.(counters := Bump(s.counters, s.now, keys),
         log := s.log.(history := s.log.history +
                         map k | k in keys :: Bumps(s.log, k) + [BumpRecord(s.step, s.commits, |s.log.ruleCommits|)]))
    case Begin(id, store, day, segment) =>
      if id in s.lookups then s
      else Note(s).(lookups := s.lookups[id := Lookup(store, day, segment, Now(s), None, None, Starting)])
    case _ =>
      if Live(s, limit, a.id) then LookupStep(s, a.id, s.lookups[a.id], a) else s
  }

  function Next(s: State, limit: int, a: Action): State {
    Act(s, limit, a).(step := s.step + 1)
  }

  /** The state after the first n actions; `limit` bounds the length of every lookup. */
  function After(start: int, limit: int, run: seq<Action>, n: nat): State
    requires n <= |run|
  {
    if n == 0 then Start(start) else Next(After(start, limit, run, n - 1), limit, run[n - 1])
  }

  /** Steps that are not of one lookup touch no entry and no lookup; they may begin one. */
  predicate Global(a: Action) {
    a.Tick? || a.Commit? || a.Invalidate? || a.Begin?
  }

  predicate JustBegun(s: State, t: State, q: Lookup) {
    q.phase.Starting? && q.started == Now(s) && q.rules.None? && q.seen.None? && Now(s) in t.log.moments
  }

  lemma GlobalShape(s: State, limit: int, a: Action)
    requires Global(a)
    ensures var t := Next(s, limit, a);
            && s.now <= t.now && t.agendas == s.agendas && t.slots == s.slots && t.answers == s.answers
            && (forall i | i in t.lookups :: if i in s.lookups then t.lookups[i] == s.lookups[i]
                else JustBegun(s, t, t.lookups[i]))
  {
  }

  /** When nothing happens in between, the two readings of a lookup are the pair that the
      client reads in one round trip. */
  lemma ReadingsAreThePair(s: State, id: nat, q: Lookup)
    requires id in s.lookups && q == s.lookups[id] && q.phase.Starting?
    ensures var m := ReadGenerationStep(s, id, q);
            var t := ReadVersionStep(m, id, m.lookups[id]);
            var g, v := Generation(q.store), Version(q.store, q.day);
            && t.counters == Touch(Touch(s.counters, s.now, g), s.now, v)
            && t.lookups[id].phase.Resolved?
            && t.lookups[id].phase.resolved.generation.value == CounterValue(s.counters, s.now, g)
            && t.lookups[id].phase.resolved.version.value == CounterValue(s.counters, s.now, v)
  {
  }

  /** The run has these two actions from place n on. */
  predicate Has(run: seq<Action>, n: nat, a: Action, b: Action) {
    n + 2 <= |run| && run[n] == a && run[n + 1] == b
  }

  lemma TwoSteps(start: int, limit: nat, run: seq<Action>, n: nat, a: Action, b: Action)
    requires Has(run, n, a, b)
    ensures After(start, limit, run, n + 2) == Next(Next(After(start, limit, run, n), limit, a), limit, b)
  {
    assert After(start, limit, run, n + 1) == Next(After(start, limit, run, n), limit, run[n]);
  }
}
