/** The age that slots can reach when invalidations are lost: the bound is attained. */
module CacheWorstAge {
  import opened Clock
  import opened AvailabilityCache
  import opened CacheProtocol
  import opened CacheStaleness

  const STORE := "store"
  const DAY_KEY := DayKey(STORE, 0, 0, 0)
  const SLOTS_KEY := SlotsKey(DAY_KEY, "service")

  // ---------------------------------------------------------------- shapes

  /** No counter was ever bumped, and nothing was committed. */
  predicate Calm(s: State, now: int, step: nat) {
    && s.counters == map[] && s.log.history == map[] && s.log.ruleCommits == [] && s.commits == 0
    && s.now == now && s.step == step
  }

  predicate At(s: State, id: nat, q: Lookup) {
    id in s.lookups && s.lookups[id] == q
  }

  /** What both levels hold. */
  predicate Holds(s: State, agendas: map<DayKey, AgendaEntry>, slots: map<SlotsKey, SlotsEntry>) {
    s.agendas == agendas && s.slots == slots
  }

  function ZeroKeys(now: int, step: nat): Keys {
    Keys(Reading(0, now, step, 0), Reading(0, now, step + 1, 0))
  }

  /** A request begun at that step, with its keys resolved in the two next ones. */
  function Asker(now: int, step: nat, phase: Phase): Lookup {
    Lookup(STORE, 0, "service", Moment(0, 0, now, step), None, Some(ZeroKeys(now, step + 1)), phase)
  }

  function HalfResolved(now: int, step: nat): Lookup {
    Asker(now, step, GotGeneration(Reading(0, now, step + 1, 0))).(seen := None)
  }

  lemma BeginsAndReads(s: State, limit: nat, id: nat, now: int, step: nat, t: State)
    requires Calm(s, now, step) && id !in s.lookups
    requires t == Next(Next(s, limit, Begin(id, STORE, 0, "service")), limit, ReadGeneration(id))
    ensures Calm(t, now, step + 2) && At(t, id, HalfResolved(now, step)) && Holds(t, s.agendas, s.slots)
    ensures t.lookups.Keys == s.lookups.Keys + {id}
  {
    var m := Next(s, limit, Begin(id, STORE, 0, "service"));
    assert Calm(m, now, step + 1) && Holds(m, s.agendas, s.slots);
    assert At(m, id, Asker(now, step, Starting).(seen := None));
    assert Bumps(m.log, Generation(STORE)) == [];
  }

  lemma Resolves(s: State, limit: nat, id: nat, now: int, step: nat)
    requires Calm(s, now, step + 2) && At(s, id, HalfResolved(now, step))
    ensures var m := Next(s, limit, ReadVersion(id));
            && Calm(m, now, step + 3) && Holds(m, s.agendas, s.slots) && m.lookups.Keys == s.lookups.Keys
            && At(m, id, Asker(now, step, Resolved(ZeroKeys(now, step + 1))))
  {
    assert Bumps(s.log, Version(STORE, 0)) == [];
  }

  lemma ResolvesAndMisses(s: State, limit: nat, id: nat, now: int, step: nat, t: State)
    requires Calm(s, now, step + 2) && At(s, id, HalfResolved(now, step)) && SLOTS_KEY !in s.slots
    requires t == Next(Next(s, limit, ReadVersion(id)), limit, ReadSlots(id))
    ensures Calm(t, now, step + 4) && Holds(t, s.agendas, s.slots) && t.lookups.Keys == s.lookups.Keys
    ensures At(t, id, Asker(now, step, Missed(Some(ZeroKeys(now, step + 1)))))
  {
    Resolves(s, limit, id, now, step);
  }

  // ---------------------------------------------------------------- the first request

  /** The rules are read after the keys, when the agenda starts to load. */
  function FirstOrigin(start: int): Origin {
    Origin(Moment(0, 0, start, 6), false, Some(ZeroKeys(start, 1)))
  }

  function FirstAgenda(start: int): Agenda {
    Agenda(Source(0, start), start, FirstOrigin(start))
  }

  lemma FirstSelects(start: int, limit: nat, s: State, t: State)
    requires Calm(s, start, 4) && Holds(s, map[], map[]) && At(s, 0, Asker(start, 0, Missed(Some(ZeroKeys(start, 1)))))
    requires t == Next(Next(s, limit, ReadSelection(0, SomeStaff)), limit, ReadAgenda(0))
    ensures Calm(t, start, 6) && Holds(t, map[], map[]) && t.lookups.Keys == s.lookups.Keys
    ensures At(t, 0, Asker(start, 0, NoAgenda(Some(ZeroKeys(start, 1)), Source(0, start))))
  {
    var m := Next(s, limit, ReadSelection(0, SomeStaff));
    assert Calm(m, start, 5) && At(m, 0, Asker(start, 0, Selected(Some(ZeroKeys(start, 1)), Source(0, start))));
  }

  lemma FirstLoads(start: int, limit: nat, s: State, t: State)
    requires Calm(s, start, 6) && Holds(s, map[], map[])
    requires At(s, 0, Asker(start, 0, NoAgenda(Some(ZeroKeys(start, 1)), Source(0, start))))
    requires t == Next(Next(s, limit, StartLoading(0)), limit, FinishLoading(0))
    ensures Calm(t, start, 8) && Holds(t, map[], map[]) && t.lookups.Keys == s.lookups.Keys
    ensures At(t, 0, Asker(start, 0, HasAgenda(Some(ZeroKeys(start, 1)), Source(0, start), FirstAgenda(start), true)))
  {
    var m := Next(s, limit, StartLoading(0));
    var p := Loading(Some(ZeroKeys(start, 1)), Source(0, start), Source(0, start), FirstOrigin(start));
    assert Calm(m, start, 7) && At(m, 0, Asker(start, 0, p));
  }

  function FirstDerived(start: int): Phase {
    Derived(Some(ZeroKeys(start, 1)), Source(0, start), Some(FirstOrigin(start)), Some(FirstAgenda(start)), 300)
  }

  lemma FirstDerives(start: int, limit: nat, s: State, t: State)
    requires Calm(s, start, 8) && Holds(s, map[], map[])
    requires At(s, 0, Asker(start, 0, HasAgenda(Some(ZeroKeys(start, 1)), Source(0, start), FirstAgenda(start), true)))
    requires t == Next(Next(s, limit, Derive(0)), limit, Tick(limit))
    ensures Calm(t, start + limit, 10) && Holds(t, map[], map[]) && t.lookups.Keys == s.lookups.Keys
    ensures At(t, 0, Asker(start, 0, FirstDerived(start)))
  {
    var m := Next(s, limit, Derive(0));
    assert Calm(m, start, 9) && At(m, 0, Asker(start, 0, FirstDerived(start)));
  }

  /** The agenda written late, and the moment before it dies. */
  function LateAgenda(start: int, limit: nat): AgendaEntry {
    AgendaEntry(FirstAgenda(start), start + limit + SLOTS_TTL, ZeroKeys(start, 1))
  }

  function SecondStart(start: int, limit: nat): int {
    start + limit + SLOTS_TTL - 1
  }

  lemma FirstWrites(start: int, limit: nat, s: State, t: State)
    requires Calm(s, start + limit, 10) && Holds(s, map[], map[]) && At(s, 0, Asker(start, 0, FirstDerived(start)))
    requires t == Next(Next(s, limit, WriteAgenda(0)), limit, Tick(SLOTS_TTL - 1))
    ensures Calm(t, SecondStart(start, limit), 12) && t.lookups.Keys == s.lookups.Keys
    ensures Holds(t, map[DAY_KEY := LateAgenda(start, limit)], map[])
  {
    var m := Next(s, limit, WriteAgenda(0));
    assert Calm(m, start + limit, 11) && m.lookups.Keys == s.lookups.Keys;
    assert Holds(m, map[DAY_KEY := LateAgenda(start, limit)], map[]);
  }

  // ---------------------------------------------------------------- the second request

  lemma SecondSelects(start: int, limit: nat, s: State, t: State)
    requires var now := SecondStart(start, limit);
             && Calm(s, now, 16) && Holds(s, map[DAY_KEY := LateAgenda(start, limit)], map[])
             && At(s, 1, Asker(now, 12, Missed(Some(ZeroKeys(now, 13)))))
    requires t == Next(Next(s, limit, ReadSelection(1, SomeStaff)), limit, ReadAgenda(1))
    ensures var now := SecondStart(start, limit);
            && Calm(t, now, 18) && t.slots == map[] && t.lookups.Keys == s.lookups.Keys
            && At(t, 1, Asker(now, 12, HasAgenda(Some(ZeroKeys(now, 13)), Source(0, now), FirstAgenda(start), false)))
  {
    var now := SecondStart(start, limit);
    var m := Next(s, limit, ReadSelection(1, SomeStaff));
    assert Calm(m, now, 17) && At(m, 1, Asker(now, 12, Selected(Some(ZeroKeys(now, 13)), Source(0, now))));
    assert AgendaHit(m, DAY_KEY);
  }

  /** An agenda that old leaves its slots the minimum of one second. */
  function SecondDerived(start: int, limit: nat): Phase {
    Derived(Some(ZeroKeys(SecondStart(start, limit), 13)), Source(0, start), Some(FirstOrigin(start)), None, 1)
  }

  lemma SecondDerives(start: int, limit: nat, s: State, t: State)
    requires var now := SecondStart(start, limit);
             && Calm(s, now, 18) && s.slots == map[]
             && At(s, 1, Asker(now, 12, HasAgenda(Some(ZeroKeys(now, 13)), Source(0, now), FirstAgenda(start), false)))
    requires t == Next(Next(s, limit, Derive(1)), limit, Tick(limit))
    ensures var now := SecondStart(start, limit);
            && Calm(t, now + limit, 20) && t.slots == map[] && t.lookups.Keys == s.lookups.Keys
            && At(t, 1, Asker(now, 12, SecondDerived(start, limit)))
  {
    var now := SecondStart(start, limit);
    assert RemainingTtl(start, now) == 1;
    var m := Next(s, limit, Derive(1));
    assert Calm(m, now, 19) && At(m, 1, Asker(now, 12, SecondDerived(start, limit)));
  }

  function LateSlots(start: int, limit: nat): SlotsEntry {
    var now := SecondStart(start, limit);
    SlotsEntry(Source(0, start), Some(FirstOrigin(start)), now + limit + SECOND, ZeroKeys(now, 13))
  }

  function ThirdStart(start: int, limit: nat): int {
    SecondStart(start, limit) + limit + SECOND - 1
  }

  lemma SecondWrites(start: int, limit: nat, s: State, t: State)
    requires var now := SecondStart(start, limit);
             Calm(s, now + limit, 20) && s.slots == map[] && At(s, 1, Asker(now, 12, SecondDerived(start, limit)))
    requires t == Next(Next(s, limit, WriteSlots(1)), limit, Tick(SECOND - 1))
    ensures Calm(t, ThirdStart(start, limit), 22) && t.lookups.Keys == s.lookups.Keys
    ensures t.slots == map[SLOTS_KEY := LateSlots(start, limit)]
  {
    var m := Next(s, limit, WriteSlots(1));
    assert Calm(m, SecondStart(start, limit) + limit, 21) && m.lookups.Keys == s.lookups.Keys;
    assert m.slots == map[SLOTS_KEY := LateSlots(start, limit)];
  }

  // ---------------------------------------------------------------- the third request

  function OldAnswer(start: int, limit: nat): Answer {
    var now := ThirdStart(start, limit);
    Answer(STORE, 0, Moment(0, 0, now, 22), Some(ZeroKeys(now, 23)), Source(0, start), Some(FirstOrigin(start)), now)
  }

  lemma ThirdIsServed(start: int, limit: nat, s: State, t: State)
    requires var now := ThirdStart(start, limit); Calm(s, now, 24) && At(s, 2, HalfResolved(now, 22))
    requires s.slots == map[SLOTS_KEY := LateSlots(start, limit)]
    requires t == Next(Next(s, limit, ReadVersion(2)), limit, ReadSlots(2))
    ensures OldAnswer(start, limit) in t.answers
  {
    Resolves(s, limit, 2, ThirdStart(start, limit), 22);
    assert SlotsHit(Next(s, limit, ReadVersion(2)), SLOTS_KEY);
  }

  // ---------------------------------------------------------------- the run

  /** The first request loads the agenda at once and writes it at the end of its time. The
      second one finds it in its last microsecond, derives slots that live one second, and
      writes them at the end of its own time. The third finds those in their last microsecond. */
  function FirstActions(limit: nat): seq<Action> {
    [Begin(0, STORE, 0, "service"), ReadGeneration(0), ReadVersion(0), ReadSlots(0),
     ReadSelection(0, SomeStaff), ReadAgenda(0), StartLoading(0), FinishLoading(0),
     Derive(0), Tick(limit), WriteAgenda(0), Tick(SLOTS_TTL - 1)]
  }

  function SecondActions(limit: nat): seq<Action> {
    [Begin(1, STORE, 0, "service"), ReadGeneration(1), ReadVersion(1), ReadSlots(1),
     ReadSelection(1, SomeStaff), ReadAgenda(1), Derive(1), Tick(limit), WriteSlots(1), Tick(SECOND - 1)]
  }

  function ThirdActions(): seq<Action> {
    [Begin(2, STORE, 0, "service"), ReadGeneration(2), ReadVersion(2), ReadSlots(2)]
  }

  predicate Loads(run: seq<Action>) {
    && Has(run, 0, Begin(0, STORE, 0, "service"), ReadGeneration(0)) && Has(run, 2, ReadVersion(0), ReadSlots(0))
    && Has(run, 4, ReadSelection(0, SomeStaff), ReadAgenda(0))
  }

  predicate WritesAgenda(run: seq<Action>, limit: nat) {
    && Has(run, 6, StartLoading(0), FinishLoading(0)) && Has(run, 8, Derive(0), Tick(limit))
    && Has(run, 10, WriteAgenda(0), Tick(SLOTS_TTL - 1))
  }

  predicate FindsAgenda(run: seq<Action>) {
    Has(run, 12, Begin(1, STORE, 0, "service"), ReadGeneration(1)) && Has(run, 14, ReadVersion(1), ReadSlots(1))
  }

  predicate WritesSlots(run: seq<Action>, limit: nat) {
    && Has(run, 16, ReadSelection(1, SomeStaff), ReadAgenda(1)) && Has(run, 18, Derive(1), Tick(limit))
    && Has(run, 20, WriteSlots(1), Tick(SECOND - 1))
  }

  predicate FindsSlots(run: seq<Action>) {
    Has(run, 22, Begin(2, STORE, 0, "service"), ReadGeneration(2)) && Has(run, 24, ReadVersion(2), ReadSlots(2))
  }

  predicate Missed6(s: State, start: int) {
    && Calm(s, start, 6) && Holds(s, map[], map[]) && s.lookups.Keys == {0}
    && At(s, 0, Asker(start, 0, NoAgenda(Some(ZeroKeys(start, 1)), Source(0, start))))
  }

  lemma FirstMisses(start: int, limit: nat, run: seq<Action>)
    requires Loads(run)
    ensures Missed6(After(start, limit, run, 6), start)
  {
    TwoSteps(start, limit, run, 0, run[0], run[1]);
    TwoSteps(start, limit, run, 2, run[2], run[3]);
    TwoSteps(start, limit, run, 4, run[4], run[5]);
    var s2, s4 := After(start, limit, run, 2), After(start, limit, run, 4);
    BeginsAndReads(Start(start), limit, 0, start, 0, s2);
    ResolvesAndMisses(s2, limit, 0, start, 0, s4);
    FirstSelects(start, limit, s4, After(start, limit, run, 6));
  }

  predicate Written12(s: State, start: int, limit: nat) {
    && Calm(s, SecondStart(start, limit), 12) && s.lookups.Keys == {0}
    && Holds(s, map[DAY_KEY := LateAgenda(start, limit)], map[])
  }

  lemma FirstEnds(start: int, limit: nat, run: seq<Action>)
    requires WritesAgenda(run, limit) && Missed6(After(start, limit, run, 6), start)
    ensures Written12(After(start, limit, run, 12), start, limit)
  {
    TwoSteps(start, limit, run, 6, run[6], run[7]);
    TwoSteps(start, limit, run, 8, run[8], run[9]);
    TwoSteps(start, limit, run, 10, run[10], run[11]);
    var s8, s10 := After(start, limit, run, 8), After(start, limit, run, 10);
    FirstLoads(start, limit, After(start, limit, run, 6), s8);
    FirstDerives(start, limit, s8, s10);
    FirstWrites(start, limit, s10, After(start, limit, run, 12));
  }

  predicate Missed16(s: State, start: int, limit: nat) {
    var now := SecondStart(start, limit);
    && Calm(s, now, 16) && Holds(s, map[DAY_KEY := LateAgenda(start, limit)], map[])
    && s.lookups.Keys == {0, 1} && At(s, 1, Asker(now, 12, Missed(Some(ZeroKeys(now, 13)))))
  }

  lemma SecondMisses(start: int, limit: nat, run: seq<Action>)
    requires FindsAgenda(run) && Written12(After(start, limit, run, 12), start, limit)
    ensures Missed16(After(start, limit, run, 16), start, limit)
  {
    TwoSteps(start, limit, run, 12, run[12], run[13]);
    TwoSteps(start, limit, run, 14, run[14], run[15]);
    var s14 := After(start, limit, run, 14);
    BeginsAndReads(After(start, limit, run, 12), limit, 1, SecondStart(start, limit), 12, s14);
    ResolvesAndMisses(s14, limit, 1, SecondStart(start, limit), 12, After(start, limit, run, 16));
  }

  predicate Written22(s: State, start: int, limit: nat) {
    && Calm(s, ThirdStart(start, limit), 22) && s.lookups.Keys == {0, 1}
    && s.slots == map[SLOTS_KEY := LateSlots(start, limit)]
  }

  lemma SecondEnds(start: int, limit: nat, run: seq<Action>)
    requires WritesSlots(run, limit) && Missed16(After(start, limit, run, 16), start, limit)
    ensures Written22(After(start, limit, run, 22), start, limit)
  {
    TwoSteps(start, limit, run, 16, run[16], run[17]);
    TwoSteps(start, limit, run, 18, run[18], run[19]);
    TwoSteps(start, limit, run, 20, run[20], run[21]);
    var s18, s20 := After(start, limit, run, 18), After(start, limit, run, 20);
    SecondSelects(start, limit, After(start, limit, run, 16), s18);
    SecondDerives(start, limit, s18, s20);
    SecondWrites(start, limit, s20, After(start, limit, run, 22));
  }

  lemma ThirdEnds(start: int, limit: nat, run: seq<Action>)
    requires FindsSlots(run) && Written22(After(start, limit, run, 22), start, limit)
    ensures OldAnswer(start, limit) in After(start, limit, run, 26).answers
  {
    TwoSteps(start, limit, run, 22, run[22], run[23]);
    TwoSteps(start, limit, run, 24, run[24], run[25]);
    var s24 := After(start, limit, run, 24);
    BeginsAndReads(After(start, limit, run, 22), limit, 2, ThirdStart(start, limit), 22, s24);
    ThirdIsServed(start, limit, s24, After(start, limit, run, 26));
  }

  predicate Ages(run: seq<Action>, limit: nat) {
    |run| == 26 && Loads(run) && WritesAgenda(run, limit) && FindsAgenda(run) && WritesSlots(run, limit)
        && FindsSlots(run)
  }

  lemma FirstActionsAre(limit: nat, rest: seq<Action>)
    ensures Loads(FirstActions(limit) + rest) && WritesAgenda(FirstActions(limit) + rest, limit)
  {
  }

  lemma SecondActionsAre(limit: nat, before: seq<Action>, rest: seq<Action>)
    requires |before| == 12
    ensures var run := before + SecondActions(limit) + rest; FindsAgenda(run) && WritesSlots(run, limit)
  {
  }

  lemma ThirdActionsAre(before: seq<Action>)
    requires |before| == 22
    ensures FindsSlots(before + ThirdActions())
  {
  }

  lemma OneAges(limit: nat) returns (run: seq<Action>)
    ensures Ages(run, limit)
  {
    var first, second, third := FirstActions(limit), SecondActions(limit), ThirdActions();
    run := first + second + third;
    FirstActionsAre(limit, second + third);
    assert run == first + (second + third);
    SecondActionsAre(limit, first, third);
    ThirdActionsAre(first + second);
  }

  lemma OldAnswerIsGiven(start: int, limit: nat, run: seq<Action>)
    requires Ages(run, limit)
    ensures OldAnswer(start, limit) in After(start, limit, run, |run|).answers
  {
    FirstMisses(start, limit, run);
    FirstEnds(start, limit, run);
    SecondMisses(start, limit, run);
    SecondEnds(start, limit, run);
    ThirdEnds(start, limit, run);
  }

  // ---------------------------------------------------------------- main results

  function Age(x: Answer): int {
    x.at - OldestOf(x.source, x.origin)
  }

  lemma AgeOfOldAnswer(start: int, limit: nat)
    ensures Age(OldAnswer(start, limit)) == WorstAge(limit)
  {
  }

  /** Some run serves slots of the worst age. */
  lemma WorstAgeIsReached(start: int, limit: nat) returns (run: seq<Action>, x: Answer)
    ensures Ages(run, limit) && x in After(start, limit, run, |run|).answers && Age(x) == WorstAge(limit)
  {
    run := OneAges(limit);
    x := OldAnswer(start, limit);
    OldAnswerIsGiven(start, limit, run);
    AgeOfOldAnswer(start, limit);
  }

  ghost predicate NeverOlder(limit: nat, age: int) {
    forall start, run, x | x in After(start, limit, run, |run|).answers :: Age(x) <= age
  }

  /** WorstAge is the least bound that holds of every answer of every run. */
  lemma WorstAgeIsExact(limit: nat, age: int)
    ensures NeverOlder(limit, age) <==> WorstAge(limit) <= age
  {
    if WorstAge(limit) <= age {
      forall start, run, x | x in After(start, limit, run, |run|).answers
        ensures Age(x) <= age
      {
        StalenessIsBounded(start, limit, run, x);
      }
    } else {
      var run, x := WorstAgeIsReached(0, limit);
    }
  }
}
