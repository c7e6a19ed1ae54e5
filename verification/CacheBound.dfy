/** The two runs that bound the promise of the cache: a write too late, and a change of rules
    that overtakes a request. */
module CacheBound {
  import opened Clock
  import opened AvailabilityCache
  import opened CacheProtocol
  import opened CacheLog
  import opened CacheCoherence
  import opened CacheAnswers

  const STORE := "store"
  const VERSION := Version(STORE, 0)
  const GENERATION := Generation(STORE)

  // ---------------------------------------------------------------- a late write

  const KEY := SlotsKey(DayKey(STORE, 0, 0, 0), "service")

  /** The first lookup reads before the commit and writes `limit` later; by then (or shortly
      after) the bumped counter has expired, so the second lookup resolves the same keys. */
  function LateWrite(limit: nat): seq<Action> {
    [Begin(0, STORE, 0, "service"), ReadGeneration(0), ReadVersion(0), ReadSlots(0), ReadSelection(0, NoStaff),
     Commit(false), Invalidate({VERSION}), Tick(limit), WriteSlots(0), Tick(Max(0, VERSION_TTL - limit))]
  }

  function SecondRead(): seq<Action> {
    [Begin(1, STORE, 0, "service"), ReadGeneration(1), ReadVersion(1), ReadSlots(1)]
  }

  /** Keys resolved from step `step` on while no counter is alive. */
  function ZeroKeys(at: int, step: nat, versionBumps: nat): Keys {
    Keys(Reading(0, at, step, 0), Reading(0, at, step + 1, versionBumps))
  }

  function FirstReader(start: int): Lookup {
    var keys := Some(ZeroKeys(start, 1, 0));
    Lookup(STORE, 0, "service", Moment(0, 0, start, 0), None, keys, Derived(keys, Source(0, start), None, None, 300))
  }

  /** Nobody has bumped anything yet. */
  predicate Untouched(s: State) {
    s.counters == map[] && s.log.history == map[] && s.log.ruleCommits == []
  }

  /** The present state of the run: the lookups and the slots, with nothing bumped yet. */
  predicate Quietly(s: State, start: int, step: nat, commits: nat, lookups: map<nat, Lookup>) {
    s.now == start && s.step == step && s.commits == commits && Untouched(s) && s.slots == map[] && s.lookups == lookups
  }

  lemma FirstReads(start: int, limit: nat, s: State)
    requires s == Next(Next(Start(start), limit, Begin(0, STORE, 0, "service")), limit, ReadGeneration(0))
    ensures var q := Lookup(STORE, 0, "service", Moment(0, 0, start, 0), None, None,
                            GotGeneration(Reading(0, start, 1, 0)));
            Quietly(s, start, 2, 0, map[0 := q])
  {
    var m := Next(Start(start), limit, Begin(0, STORE, 0, "service"));
    var q := Lookup(STORE, 0, "service", Moment(0, 0, start, 0), None, None, Starting);
    assert Quietly(m, start, 1, 0, map[0 := q]);
  }

  lemma FirstMisses(start: int, limit: nat, s: State, t: State)
    requires var q := Lookup(STORE, 0, "service", Moment(0, 0, start, 0), None, None,
                             GotGeneration(Reading(0, start, 1, 0)));
             Quietly(s, start, 2, 0, map[0 := q])
    requires t == Next(Next(s, limit, ReadVersion(0)), limit, ReadSlots(0))
    ensures Quietly(t, start, 4, 0, map[0 := FirstReader(start).(phase := Missed(Some(ZeroKeys(start, 1, 0))))])
  {
    var m := Next(s, limit, ReadVersion(0));
    assert Quietly(m, start, 3, 0, map[0 := FirstReader(start).(phase := Resolved(ZeroKeys(start, 1, 0)))]);
  }

  lemma FirstDerives(start: int, limit: nat, s: State, t: State)
    requires Quietly(s, start, 4, 0, map[0 := FirstReader(start).(phase := Missed(Some(ZeroKeys(start, 1, 0))))])
    requires t == Next(Next(s, limit, ReadSelection(0, NoStaff)), limit, Commit(false))
    ensures Quietly(t, start, 6, 1, map[0 := FirstReader(start)])
  {
    var m := Next(s, limit, ReadSelection(0, NoStaff));
    assert Quietly(m, start, 5, 0, map[0 := FirstReader(start)]);
  }

  lemma FirstBump(s: State, limit: nat, key: CounterKey)
    requires s.counters == map[] && s.log.history == map[]
    ensures var t := Next(s, limit, Invalidate({key}));
            && t.counters == map[key := Counter(1, s.now + VERSION_TTL)]
            && t.log.history == map[key := [BumpRecord(s.step, s.commits, |s.log.ruleCommits|)]]
  {
    var bump := BumpRecord(s.step, s.commits, |s.log.ruleCommits|);
    assert Bumps(s.log, key) + [bump] == [bump];
  }

  /** After the invalidation, one counter lives. */
  predicate Bumped(s: State, start: int) {
    && s.counters == map[VERSION := Counter(1, start + VERSION_TTL)]
    && s.log.history == map[VERSION := [BumpRecord(6, 1, 0)]] && s.commits == 1 && s.log.ruleCommits == []
  }

  predicate LateBegins(run: seq<Action>) {
    && Has(run, 0, Begin(0, STORE, 0, "service"), ReadGeneration(0)) && Has(run, 2, ReadVersion(0), ReadSlots(0))
    && Has(run, 4, ReadSelection(0, NoStaff), Commit(false))
  }

  lemma FirstLookup(start: int, limit: nat, run: seq<Action>)
    requires LateBegins(run)
    ensures Quietly(After(start, limit, run, 6), start, 6, 1, map[0 := FirstReader(start)])
  {
    TwoSteps(start, limit, run, 0, run[0], run[1]);
    TwoSteps(start, limit, run, 2, run[2], run[3]);
    TwoSteps(start, limit, run, 4, run[4], run[5]);
    var s2, s4 := After(start, limit, run, 2), After(start, limit, run, 4);
    FirstReads(start, limit, s2);
    FirstMisses(start, limit, s2, s4);
    FirstDerives(start, limit, s4, After(start, limit, run, 6));
  }

  lemma WaitsLong(start: int, limit: nat, s: State, t: State)
    requires Quietly(s, start, 6, 1, map[0 := FirstReader(start)])
    requires t == Next(Next(s, limit, Invalidate({VERSION})), limit, Tick(limit))
    ensures Bumped(t, start) && t.now == start + limit && t.step == 8 && t.slots == map[] && t.lookups == s.lookups
  {
    FirstBump(s, limit, VERSION);
  }

  function LateEntry(start: int, limit: nat): SlotsEntry {
    SlotsEntry(Source(0, start), None, start + limit + SLOTS_TTL, ZeroKeys(start, 1, 0))
  }

  lemma WritesLate(start: int, limit: nat, s: State, t: State)
    requires Bumped(s, start) && s.now == start + limit && s.step == 8 && s.slots == map[]
    requires s.lookups == map[0 := FirstReader(start)]
    requires t == Next(Next(s, limit, WriteSlots(0)), limit, Tick(Max(0, VERSION_TTL - limit)))
    ensures Bumped(t, start) && t.now == start + Max(limit, VERSION_TTL) && t.step == 10
    ensures t.slots == map[KEY := LateEntry(start, limit)] && t.lookups == s.lookups
  {
    var m := Next(s, limit, WriteSlots(0));
    assert m.slots == map[KEY := LateEntry(start, limit)];
  }

  /** The second lookup, begun when every counter has expired. */
  function LateReader(now: int): Lookup {
    Lookup(STORE, 0, "service", Moment(1, 0, now, 10), None, None, Starting)
  }

  lemma SecondReads(start: int, limit: nat, s: State, t: State)
    requires Bumped(s, start) && start + VERSION_TTL <= s.now && s.step == 10 && 1 !in s.lookups
    requires t == Next(Next(s, limit, Begin(1, STORE, 0, "service")), limit, ReadGeneration(1))
    ensures Bumped(t, start) && t.now == s.now && t.step == 12 && t.slots == s.slots && 1 in t.lookups
    ensures t.lookups[1] == LateReader(s.now).(phase := GotGeneration(Reading(0, s.now, 11, 0)))
  {
    var m := Next(s, limit, Begin(1, STORE, 0, "service"));
    assert m.lookups[1] == LateReader(s.now) && m.step == 11 && Bumped(m, start);
    assert Bumps(m.log, GENERATION) == [];
  }

  function LateAnswer(start: int, now: int): Answer {
    Answer(STORE, 0, Moment(1, 0, now, 10), Some(ZeroKeys(now, 11, 1)), Source(0, start), None, now)
  }

  predicate LateContinues(run: seq<Action>, limit: nat) {
    && Has(run, 6, Invalidate({VERSION}), Tick(limit))
    && Has(run, 8, WriteSlots(0), Tick(Max(0, VERSION_TTL - limit)))
  }

  lemma LateWritten(start: int, limit: nat, run: seq<Action>)
    requires LateBegins(run) && LateContinues(run, limit)
    ensures var s := After(start, limit, run, 10);
            && Bumped(s, start) && s.now == start + Max(limit, VERSION_TTL) && s.step == 10
            && s.slots == map[KEY := LateEntry(start, limit)] && 1 !in s.lookups
  {
    FirstLookup(start, limit, run);
    TwoSteps(start, limit, run, 6, run[6], run[7]);
    TwoSteps(start, limit, run, 8, run[8], run[9]);
    var s8 := After(start, limit, run, 8);
    WaitsLong(start, limit, After(start, limit, run, 6), s8);
    WritesLate(start, limit, s8, After(start, limit, run, 10));
  }

  /** The second lookup has read the generation, and the late entry is there. */
  predicate LateReading(s: State, start: int, limit: nat) {
    && Bumped(s, start) && s.now == start + Max(limit, VERSION_TTL) && s.step == 12
    && s.slots == map[KEY := LateEntry(start, limit)] && 1 in s.lookups
    && s.lookups[1] == LateReader(s.now).(phase := GotGeneration(Reading(0, s.now, 11, 0)))
  }

  lemma LateReadBegins(start: int, limit: nat, run: seq<Action>)
    requires LateBegins(run) && LateContinues(run, limit)
    requires Has(run, 10, Begin(1, STORE, 0, "service"), ReadGeneration(1))
    ensures LateReading(After(start, limit, run, 12), start, limit)
  {
    LateWritten(start, limit, run);
    TwoSteps(start, limit, run, 10, run[10], run[11]);
    SecondReads(start, limit, After(start, limit, run, 10), After(start, limit, run, 12));
  }

  lemma SecondResolvesLate(start: int, limit: nat, s: State)
    requires LateReading(s, start, limit)
    ensures var m, keys := Next(s, limit, ReadVersion(1)), ZeroKeys(s.now, 11, 1);
            && m.slots == s.slots && m.now == s.now && 1 in m.lookups
            && m.lookups[1] == LateReader(s.now).(seen := Some(keys), phase := Resolved(keys))
  {
  }

  lemma SecondIsServedLate(start: int, limit: nat, s: State, t: State)
    requires LateReading(s, start, limit) && limit + SLOTS_TTL > VERSION_TTL
    requires t == Next(Next(s, limit, ReadVersion(1)), limit, ReadSlots(1))
    ensures LateAnswer(start, start + Max(limit, VERSION_TTL)) in t.answers
  {
    SecondResolvesLate(start, limit, s);
    assert SlotsHit(Next(s, limit, ReadVersion(1)), KEY);
  }

  lemma LateRead(start: int, limit: nat, run: seq<Action>)
    requires Has(run, 12, ReadVersion(1), ReadSlots(1)) && limit + SLOTS_TTL > VERSION_TTL
    requires LateReading(After(start, limit, run, 12), start, limit)
    ensures LateAnswer(start, start + Max(limit, VERSION_TTL)) in After(start, limit, run, 14).answers
  {
    TwoSteps(start, limit, run, 12, ReadVersion(1), ReadSlots(1));
    SecondIsServedLate(start, limit, After(start, limit, run, 12), After(start, limit, run, 14));
  }

  /** A run of that shape, without any change of rules. */
  ghost predicate LateRun(run: seq<Action>, limit: nat) {
    && LateBegins(run) && LateContinues(run, limit) && |run| == 14
    && Has(run, 10, Begin(1, STORE, 0, "service"), ReadGeneration(1)) && Has(run, 12, ReadVersion(1), ReadSlots(1))
    && RulesStay(run)
  }

  ghost predicate RulesStay(run: seq<Action>) {
    forall j | 0 <= j < |run| :: run[j] != Commit(true)
  }

  lemma LateWriteIs(limit: nat, rest: seq<Action>)
    ensures var run := LateWrite(limit) + rest; LateBegins(run) && LateContinues(run, limit)
    ensures RulesStay(LateWrite(limit))
  {
  }

  lemma SecondReadIs(before: seq<Action>)
    requires |before| == 10
    ensures var run := before + SecondRead();
            Has(run, 10, Begin(1, STORE, 0, "service"), ReadGeneration(1)) && Has(run, 12, ReadVersion(1), ReadSlots(1))
    ensures RulesStay(SecondRead())
  {
  }

  lemma LateWriteIsLate(limit: nat) returns (run: seq<Action>)
    ensures LateRun(run, limit)
  {
    var first, second := LateWrite(limit), SecondRead();
    run := first + second;
    LateWriteIs(limit, second);
    SecondReadIs(first);
  }

  /** The late entry is served to a lookup that resolved its keys after the invalidation. */
  lemma LateWriteIsServed(start: int, limit: nat) returns (run: seq<Action>)
    requires limit + SLOTS_TTL > VERSION_TTL
    ensures !RowsCoherent(start, limit, run) && !SomeOvertaken(start, limit, run)
  {
    run := LateWriteIsLate(limit);
    LateIsIncoherent(start, limit, run);
    assert forall from, j, i :: !ChangedBetween(run, from, j, i);
  }

  lemma LateIsIncoherent(start: int, limit: nat, run: seq<Action>)
    requires LateRun(run, limit) && limit + SLOTS_TTL > VERSION_TTL
    ensures !RowsCoherent(start, limit, run)
  {
    FirstLookup(start, limit, run);
    LateReadBegins(start, limit, run);
    LateRead(start, limit, run);
    var x := LateAnswer(start, start + Max(limit, VERSION_TTL));
    assert Invalidates(run, 6, VERSION) && Owes(x, VERSION, 6) && !RowsSee(x, 1);
  }

  /** Coherent exactly when nobody is overtaken: over every run, this holds exactly when the
      longest request plus the life of a cached entry fits in the life of a counter. */
  lemma BoundIsExact(limit: nat)
    ensures (forall start, run :: Coherent(start, limit, run) <==> !SomeOvertaken(start, limit, run))
            <==> limit + SLOTS_TTL <= VERSION_TTL
  {
    if limit + SLOTS_TTL <= VERSION_TTL {
      forall start, run ensures Coherent(start, limit, run) <==> !SomeOvertaken(start, limit, run) {
        CacheIsCoherentExactly(start, limit, run);
      }
    } else {
      var run := LateWriteIsServed(0, limit);
      assert !Coherent(0, limit, run);
    }
  }

  // ---------------------------------------------------------------- an overtaken request

  /** The public request reads the rules; they change and the generation is bumped; then the
      request resolves its keys, loads the agenda with the old rules and writes both levels. A
      second request, begun after all that, is served from the cache. */
  function Overtaken(): seq<Action> {
    [Begin(0, STORE, 0, "service"), ReadRules(0), Commit(true), Invalidate({GENERATION})] +
    [ReadGeneration(0), ReadVersion(0), ReadSlots(0), ReadSelection(0, SomeStaff), ReadAgenda(0),
     StartLoading(0), FinishLoading(0), Derive(0)]
  }

  function WrittenAndRead(): seq<Action> {
    [WriteAgenda(0), WriteSlots(0),
     Begin(1, STORE, 0, "service"), ReadRules(1), ReadGeneration(1), ReadVersion(1), ReadSlots(1)]
  }

  const SECOND_KEY := SlotsKey(DayKey(STORE, 0, 1, 0), "service")

  function OneKeys(start: int, step: nat): Keys {
    Keys(Reading(1, start, step, 1), Reading(0, start, step + 1, 0))
  }

  /** What the first request brings: rules read before the change. */
  function OldRules(start: int): Origin {
    Origin(Moment(0, 0, start, 1), true, Some(OneKeys(start, 4)))
  }

  function OvertakenReader(start: int, phase: Phase): Lookup {
    Lookup(STORE, 0, "service", Moment(0, 0, start, 0), Some(Moment(0, 0, start, 1)), Some(OneKeys(start, 4)), phase)
  }

  /** The generation was bumped once, by the change of rules; nothing expires in this run. */
  predicate RulesChanged(s: State, start: int) {
    && s.now == start && s.commits == 1 && s.log.ruleCommits == [2]
    && s.counters == map[GENERATION := Counter(1, start + VERSION_TTL)]
    && s.log.history == map[GENERATION := [BumpRecord(3, 1, 1)]]
  }

  /** The state of the run once the rules have changed: only the lookups and the slots move. */
  predicate Stands(s: State, start: int, step: nat, lookups: map<nat, Lookup>, slots: map<SlotsKey, SlotsEntry>) {
    RulesChanged(s, start) && s.step == step && s.lookups == lookups && s.slots == slots
  }

  lemma RulesAreRead(start: int, limit: nat, s: State)
    requires s == Next(Next(Start(start), limit, Begin(0, STORE, 0, "service")), limit, ReadRules(0))
    ensures s.lookups == map[0 := OvertakenReader(start, Starting).(seen := None)]
    ensures s.now == start && s.step == 2 && s.commits == 0 && Untouched(s) && s.slots == map[] && s.agendas == map[]
  {
    var s1 := Next(Start(start), limit, Begin(0, STORE, 0, "service"));
    assert s1.lookups == map[0 := Lookup(STORE, 0, "service", Moment(0, 0, start, 0), None, None, Starting)];
    assert s1.step == 1 && s1.now == start && s1.commits == 0;
  }

  lemma RulesChange(start: int, limit: nat, s: State, t: State)
    requires s.now == start && s.step == 2 && s.commits == 0 && Untouched(s)
    requires t == Next(Next(s, limit, Commit(true)), limit, Invalidate({GENERATION}))
    ensures Stands(t, start, 4, s.lookups, s.slots) && t.agendas == s.agendas
    ensures Next(s, limit, Commit(true)).log.ruleCommits == [2]
  {
    FirstBump(Next(s, limit, Commit(true)), limit, GENERATION);
  }

  lemma KeysAreResolved(start: int, limit: nat, s: State, t: State)
    requires Stands(s, start, 4, map[0 := OvertakenReader(start, Starting).(seen := None)], map[])
    requires t == Next(Next(s, limit, ReadGeneration(0)), limit, ReadVersion(0))
    ensures Stands(t, start, 6, map[0 := OvertakenReader(start, Resolved(OneKeys(start, 4)))], map[])
    ensures t.agendas == s.agendas
  {
    var m := Next(s, limit, ReadGeneration(0));
    assert m.lookups == map[0 := OvertakenReader(start, GotGeneration(Reading(1, start, 4, 1))).(seen := None)];
    assert RulesChanged(m, start) && m.step == 5;
    assert Bumps(m.log, VERSION) == [];
  }

  lemma SelectionIsRead(start: int, limit: nat, s: State, t: State)
    requires Stands(s, start, 6, map[0 := OvertakenReader(start, Resolved(OneKeys(start, 4)))], map[])
    requires t == Next(Next(s, limit, ReadSlots(0)), limit, ReadSelection(0, SomeStaff))
    ensures Stands(t, start, 8, map[0 := OvertakenReader(start, Selected(Some(OneKeys(start, 4)), Source(1, start)))],
                   map[])
    ensures t.agendas == s.agendas
  {
    var m := Next(s, limit, ReadSlots(0));
    assert Stands(m, start, 7, map[0 := OvertakenReader(start, Missed(Some(OneKeys(start, 4))))], map[]);
  }

  lemma LoadingStarts(start: int, limit: nat, s: State, t: State)
    requires Stands(s, start, 8,
                    map[0 := OvertakenReader(start, Selected(Some(OneKeys(start, 4)), Source(1, start)))], map[])
    requires s.agendas == map[] && t == Next(Next(s, limit, ReadAgenda(0)), limit, StartLoading(0))
    ensures var p := Loading(Some(OneKeys(start, 4)), Source(1, start), Source(1, start), OldRules(start));
            Stands(t, start, 10, map[0 := OvertakenReader(start, p)], map[])
  {
    var m := Next(s, limit, ReadAgenda(0));
    assert Stands(m, start, 9, map[0 := OvertakenReader(start, NoAgenda(Some(OneKeys(start, 4)), Source(1, start)))],
                  map[]);
  }

  function OldAgenda(start: int): Agenda {
    Agenda(Source(1, start), start, OldRules(start))
  }

  function DerivedFromOld(start: int, toWrite: Option<Agenda>): Lookup {
    OvertakenReader(start, Derived(Some(OneKeys(start, 4)), Source(1, start), Some(OldRules(start)), toWrite, 300))
  }

  lemma SlotsAreDerived(start: int, limit: nat, s: State, t: State)
    requires var p := Loading(Some(OneKeys(start, 4)), Source(1, start), Source(1, start), OldRules(start));
             Stands(s, start, 10, map[0 := OvertakenReader(start, p)], map[])
    requires t == Next(Next(s, limit, FinishLoading(0)), limit, Derive(0))
    ensures Stands(t, start, 12, map[0 := DerivedFromOld(start, Some(OldAgenda(start)))], map[])
  {
    var m := Next(s, limit, FinishLoading(0));
    var p := HasAgenda(Some(OneKeys(start, 4)), Source(1, start), OldAgenda(start), true);
    assert Stands(m, start, 11, map[0 := OvertakenReader(start, p)], map[]);
  }

  function OldEntry(start: int): SlotsEntry {
    SlotsEntry(Source(1, start), Some(OldRules(start)), start + SLOTS_TTL, OneKeys(start, 4))
  }

  lemma BothLevelsAreWritten(start: int, limit: nat, s: State, t: State)
    requires Stands(s, start, 12, map[0 := DerivedFromOld(start, Some(OldAgenda(start)))], map[])
    requires t == Next(Next(s, limit, WriteAgenda(0)), limit, WriteSlots(0))
    ensures Stands(t, start, 14, map[0 := DerivedFromOld(start, None)], map[SECOND_KEY := OldEntry(start)])
  {
    var m := Next(s, limit, WriteAgenda(0));
    assert Stands(m, start, 13, map[0 := DerivedFromOld(start, None)], map[]);
  }

  /** The second request, begun and with the present rules in hand. */
  function SecondReader(start: int): Lookup {
    Lookup(STORE, 0, "service", Moment(1, 1, start, 14), Some(Moment(1, 1, start, 15)), None, Starting)
  }

  lemma SecondBegins(start: int, limit: nat, s: State, t: State)
    requires Stands(s, start, 14, map[0 := DerivedFromOld(start, None)], map[SECOND_KEY := OldEntry(start)])
    requires t == Next(Next(s, limit, Begin(1, STORE, 0, "service")), limit, ReadRules(1))
    ensures Stands(t, start, 16, map[0 := DerivedFromOld(start, None), 1 := SecondReader(start)],
                   map[SECOND_KEY := OldEntry(start)])
  {
    var m := Next(s, limit, Begin(1, STORE, 0, "service"));
    var begun := SecondReader(start).(rules := None);
    assert Stands(m, start, 15, map[0 := DerivedFromOld(start, None), 1 := begun], map[SECOND_KEY := OldEntry(start)]);
  }

  function SecondResolved(start: int): Lookup {
    var keys := OneKeys(start, 16);
    SecondReader(start).(seen := Some(keys), phase := Resolved(keys))
  }

  lemma SecondResolves(start: int, limit: nat, s: State, t: State)
    requires RulesChanged(s, start) && s.step == 16 && 1 in s.lookups && s.lookups[1] == SecondReader(start)
    requires t == Next(Next(s, limit, ReadGeneration(1)), limit, ReadVersion(1))
    ensures t.now == start && t.slots == s.slots && 1 in t.lookups
    ensures t.lookups[1] == SecondResolved(start)
  {
    var m := Next(s, limit, ReadGeneration(1));
    assert 1 in m.lookups && m.lookups[1] == SecondReader(start).(phase := GotGeneration(Reading(1, start, 16, 1)));
    assert RulesChanged(m, start) && m.step == 17;
    assert Bumps(m.log, VERSION) == [];
  }

  function SecondAnswer(start: int): Answer {
    Answer(STORE, 0, Moment(1, 1, start, 14), Some(OneKeys(start, 16)), Source(1, start), Some(OldRules(start)), start)
  }

  lemma SecondIsServed(start: int, limit: nat, s: State)
    requires s.now == start && s.slots == map[SECOND_KEY := OldEntry(start)] && 1 in s.lookups
    requires s.lookups[1] == SecondResolved(start)
    ensures SecondAnswer(start) in Next(s, limit, ReadSlots(1)).answers
  {
    assert SlotsHit(s, SECOND_KEY);
  }

  predicate RulesOvertake(run: seq<Action>) {
    && Has(run, 0, Begin(0, STORE, 0, "service"), ReadRules(0))
    && Has(run, 2, Commit(true), Invalidate({GENERATION}))
  }

  lemma FirstPart(start: int, limit: nat, run: seq<Action>)
    requires RulesOvertake(run)
    ensures Stands(After(start, limit, run, 4), start, 4, map[0 := OvertakenReader(start, Starting).(seen := None)],
                   map[])
    ensures After(start, limit, run, 4).agendas == map[] && After(start, limit, run, 3).log.ruleCommits == [2]
  {
    TwoSteps(start, limit, run, 0, run[0], run[1]);
    TwoSteps(start, limit, run, 2, run[2], run[3]);
    var s2 := After(start, limit, run, 2);
    RulesAreRead(start, limit, s2);
    RulesChange(start, limit, s2, After(start, limit, run, 4));
  }

  lemma SecondPart(start: int, limit: nat, run: seq<Action>)
    requires RulesOvertake(run)
    requires Has(run, 4, ReadGeneration(0), ReadVersion(0)) && Has(run, 6, ReadSlots(0), ReadSelection(0, SomeStaff))
    ensures Stands(After(start, limit, run, 8), start, 8,
                   map[0 := OvertakenReader(start, Selected(Some(OneKeys(start, 4)), Source(1, start)))], map[])
    ensures After(start, limit, run, 8).agendas == map[]
  {
    FirstPart(start, limit, run);
    TwoSteps(start, limit, run, 4, run[4], run[5]);
    TwoSteps(start, limit, run, 6, run[6], run[7]);
    var s6 := After(start, limit, run, 6);
    KeysAreResolved(start, limit, After(start, limit, run, 4), s6);
    SelectionIsRead(start, limit, s6, After(start, limit, run, 8));
  }

  predicate OldAgendaIsUsed(run: seq<Action>) {
    && RulesOvertake(run)
    && Has(run, 4, ReadGeneration(0), ReadVersion(0)) && Has(run, 6, ReadSlots(0), ReadSelection(0, SomeStaff))
    && Has(run, 8, ReadAgenda(0), StartLoading(0)) && Has(run, 10, FinishLoading(0), Derive(0))
  }

  lemma ThirdPart(start: int, limit: nat, run: seq<Action>)
    requires OldAgendaIsUsed(run)
    ensures Stands(After(start, limit, run, 12), start, 12, map[0 := DerivedFromOld(start, Some(OldAgenda(start)))],
                   map[])
  {
    SecondPart(start, limit, run);
    TwoSteps(start, limit, run, 8, run[8], run[9]);
    TwoSteps(start, limit, run, 10, run[10], run[11]);
    var s10 := After(start, limit, run, 10);
    LoadingStarts(start, limit, After(start, limit, run, 8), s10);
    SlotsAreDerived(start, limit, s10, After(start, limit, run, 12));
  }

  predicate OldEntryIsWritten(run: seq<Action>) {
    && OldAgendaIsUsed(run) && Has(run, 12, WriteAgenda(0), WriteSlots(0))
    && Has(run, 14, Begin(1, STORE, 0, "service"), ReadRules(1))
  }

  lemma FourthPart(start: int, limit: nat, run: seq<Action>)
    requires OldEntryIsWritten(run)
    ensures Stands(After(start, limit, run, 16), start, 16,
                   map[0 := DerivedFromOld(start, None), 1 := SecondReader(start)], map[SECOND_KEY := OldEntry(start)])
  {
    ThirdPart(start, limit, run);
    TwoSteps(start, limit, run, 12, run[12], run[13]);
    TwoSteps(start, limit, run, 14, run[14], run[15]);
    var s14 := After(start, limit, run, 14);
    BothLevelsAreWritten(start, limit, After(start, limit, run, 12), s14);
    SecondBegins(start, limit, s14, After(start, limit, run, 16));
  }

  lemma LastPart(start: int, limit: nat, run: seq<Action>)
    requires OldEntryIsWritten(run) && Has(run, 16, ReadGeneration(1), ReadVersion(1)) && |run| == 19
             && run[18] == ReadSlots(1)
    ensures SecondAnswer(start) in After(start, limit, run, 19).answers
  {
    FourthPart(start, limit, run);
    TwoSteps(start, limit, run, 16, run[16], run[17]);
    var s18 := After(start, limit, run, 18);
    SecondResolves(start, limit, After(start, limit, run, 16), s18);
    SecondIsServed(start, limit, s18);
    assert After(start, limit, run, 19) == Next(s18, limit, run[18]);
  }

  predicate OvertakenRun(run: seq<Action>) {
    OldEntryIsWritten(run) && Has(run, 16, ReadGeneration(1), ReadVersion(1)) && |run| == 19 && run[18] == ReadSlots(1)
  }

  lemma OvertakenIsOne() returns (run: seq<Action>)
    ensures OvertakenRun(run)
  {
    var first, second := Overtaken(), WrittenAndRead();
    run := first + second;
    OvertakenIs(second);
    WrittenAndReadIs(first);
  }

  lemma OvertakenIs(rest: seq<Action>)
    ensures OldAgendaIsUsed(Overtaken() + rest)
  {
  }

  lemma WrittenAndReadIs(before: seq<Action>)
    requires |before| == 12
    ensures var run := before + WrittenAndRead();
            && |run| == 19 && run[18] == ReadSlots(1) && Has(run, 12, WriteAgenda(0), WriteSlots(0))
            && Has(run, 14, Begin(1, STORE, 0, "service"), ReadRules(1))
                && Has(run, 16, ReadGeneration(1), ReadVersion(1))
  {
  }

  /** However short requests are, a request that begins after a finished invalidation can be
      served slots computed with the rules from before it. */
  lemma OldRulesAreServed(start: int, limit: nat) returns (run: seq<Action>)
    ensures OvertakenRun(run) && !RulesCoherent(start, limit, run) && SomeOvertaken(start, limit, run)
  {
    run := OvertakenIsOne();
    var x := SecondAnswer(start);
    FirstPart(start, limit, run);
    LastPart(start, limit, run);
    assert Invalidates(run, 3, GENERATION) && Owes(x, GENERATION, 3) && !RulesSee(x, 1);
    assert ChangedBetween(run, 1, 2, 3);
    assert OvertakenAt(run, x, 2, 3, GENERATION);
  }
}
