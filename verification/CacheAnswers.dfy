/** What the answers of a run are worth: the rows are always fresh, the rules of the store
    exactly when no change of rules overtakes a request between reading them and resolving. */
module CacheAnswers {
  import opened Clock
  import opened AvailabilityCache
  import opened CacheProtocol
  import opened CacheLog
  import opened CacheCoherence

  // ---------------------------------------------------------------- what is promised

  predicate Invalidates(run: seq<Action>, i: nat, key: CounterKey) {
    i < |run| && run[i].Invalidate? && key in run[i].keys
  }

  /** The keys were resolved after the invalidation of `key` at step i. */
  predicate ResolvedAfter(store: string, day: int, keys: Keys, key: CounterKey, i: nat) {
    || (key == Generation(store) && i < keys.generation.step)
    || (key == Version(store, day) && i < keys.version.step)
  }

  /** The answer owes what was invalidated at step i: its lookup resolved that key later, or
      began later and never resolved any. */
  predicate Owes(x: Answer, key: CounterKey, i: nat) {
    match x.seen
    case Some(keys) => ResolvedAfter(x.store, x.day, keys, key, i)
    case None => i < x.started.step
  }

  predicate RowsSee(x: Answer, commits: nat) {
    commits <= x.source.commits
  }

  predicate RulesSee(x: Answer, rules: nat) {
    x.origin.Some? ==> rules <= x.origin.value.rules.rules
  }

  /** Over the whole run: no answer, from either level or computed, comes from a read of rows
      older than a commit whose invalidation finished before the lookup resolved its keys. */
  ghost predicate RowsCoherent(start: int, limit: int, run: seq<Action>) {
    forall i, key, x | Invalidates(run, i, key) && x in After(start, limit, run, |run|).answers && Owes(x, key, i) ::
      RowsSee(x, After(start, limit, run, i).commits)
  }

  /** The same of the rules of the store, notice and buffer. */
  ghost predicate RulesCoherent(start: int, limit: int, run: seq<Action>) {
    forall i, key, x | Invalidates(run, i, key) && x in After(start, limit, run, |run|).answers && Owes(x, key, i) ::
      RulesSee(x, |After(start, limit, run, i).log.ruleCommits|)
  }

  ghost predicate Coherent(start: int, limit: int, run: seq<Action>) {
    RowsCoherent(start, limit, run) && RulesCoherent(start, limit, run)
  }

  /** The rules changed at step j, not before `from` and before i. */
  predicate ChangedBetween(run: seq<Action>, from: nat, j: nat, i: nat) {
    from <= j < i <= |run| && run[j] == Commit(true)
  }

  /** The request that loaded the answer's agenda was overtaken: rules changed at step j, after
      it read them, and that was invalidated at step i, before it resolved its keys. */
  predicate OvertakenAt(run: seq<Action>, x: Answer, j: nat, i: nat, key: CounterKey) {
    && x.origin.Some? && x.origin.value.loader.Some?
    && ChangedBetween(run, x.origin.value.rules.step, j, i) && Invalidates(run, i, key)
    && ResolvedAfter(x.store, x.day, x.origin.value.loader.value, key, i)
  }

  ghost predicate SomeOvertaken(start: int, limit: int, run: seq<Action>) {
    exists x, j, i, key :: x in After(start, limit, run, |run|).answers && OvertakenAt(run, x, j, i, key)
  }

  // ---------------------------------------------------------------- the log tells the run

  lemma {:induction false} StepsCount(start: int, limit: int, run: seq<Action>, n: nat)
    requires n <= |run|
    ensures After(start, limit, run, n).step == n
  {
    if n > 0 {
      StepsCount(start, limit, run, n - 1);
      StepsByOne(After(start, limit, run, n - 1), limit, run[n - 1]);
    }
  }

  lemma StepsByOne(s: State, limit: int, a: Action)
    ensures Next(s, limit, a).step == s.step + 1
  {
    if Quiet(a) {
      QuietStepShape(s, limit, a);
    } else if !a.Invalidate? {
      var _ := ReadingStepShape(s, limit, a);
    }
  }

  lemma BumpStays(s: State, limit: int, a: Action, key: CounterKey, bump: BumpRecord)
    requires bump in Bumps(s.log, key)
    ensures bump in Bumps(Next(s, limit, a).log, key)
  {
    StepExtends(s, limit, a);
    assert Bumps(s.log, key) <= Bumps(Next(s, limit, a).log, key);
  }

  function RecordAt(start: int, limit: int, run: seq<Action>, i: nat): BumpRecord
    requires i <= |run|
  {
    var s := After(start, limit, run, i);
    BumpRecord(i, s.commits, |s.log.ruleCommits|)
  }

  lemma BumpIsAdded(s: State, limit: int, a: Action, key: CounterKey)
    requires a.Invalidate? && key in a.keys
    ensures BumpRecord(s.step, s.commits, |s.log.ruleCommits|) in Bumps(Next(s, limit, a).log, key)
  {
    BumpsAfterInvalidate(s, limit, a.keys, key);
  }

  /** The bump made at step i stays in the log. */
  lemma {:induction false} BumpIsLogged(start: int, limit: int, run: seq<Action>, i: nat, n: nat, key: CounterKey)
    requires i < n <= |run| && Invalidates(run, i, key)
    ensures RecordAt(start, limit, run, i) in Bumps(After(start, limit, run, n).log, key)
    decreases n
  {
    if n == i + 1 {
      StepsCount(start, limit, run, i);
      BumpIsAdded(After(start, limit, run, i), limit, run[i], key);
    } else {
      BumpIsLogged(start, limit, run, i, n - 1, key);
      BumpStaysInRun(start, limit, run, n, key, RecordAt(start, limit, run, i));
    }
  }

  lemma BumpStaysInRun(start: int, limit: int, run: seq<Action>, n: nat, key: CounterKey, bump: BumpRecord)
    requires 0 < n <= |run| && bump in Bumps(After(start, limit, run, n - 1).log, key)
    ensures bump in Bumps(After(start, limit, run, n).log, key)
  {
    BumpStays(After(start, limit, run, n - 1), limit, run[n - 1], key, bump);
  }

  lemma RuleCommitsStep(s: State, limit: int, a: Action)
    ensures Next(s, limit, a).log.ruleCommits == s.log.ruleCommits + if a == Commit(true) then [s.step] else []
  {
    if Quiet(a) {
      QuietStepShape(s, limit, a);
    } else if !a.Invalidate? {
      var _ := ReadingStepShape(s, limit, a);
    }
  }

  /** The steps logged as changes of rules are those of the run. */
  lemma {:induction false} RuleCommitsAre(start: int, limit: int, run: seq<Action>, n: nat, j: nat)
    requires n <= |run|
    ensures j in After(start, limit, run, n).log.ruleCommits <==> j < n && run[j] == Commit(true)
  {
    if n > 0 {
      RuleCommitsAre(start, limit, run, n - 1, j);
      StepsCount(start, limit, run, n - 1);
      RuleCommitsStep(After(start, limit, run, n - 1), limit, run[n - 1]);
    }
  }

  // ---------------------------------------------------------------- one answer, one invalidation

  /** An INCR made before a reading of its counter is among those the reading counts. */
  lemma CountedExactly(s: State, key: CounterKey, r: Reading, bump: BumpRecord) returns (k: nat)
    requires CountersInv(s) && Seen(key, r) in s.log.readings && bump in Bumps(s.log, key)
    ensures k < |Bumps(s.log, key)| && Bumps(s.log, key)[k] == bump
    ensures k < r.bumps <==> bump.step < r.step
  {
    assert GoodReading(s, Seen(key, r));
    k :| k < |Bumps(s.log, key)| && Bumps(s.log, key)[k] == bump;
  }

  lemma BeforeIsCounted(s: State, m: Moment, key: CounterKey, bump: BumpRecord)
    requires MomentsInv(s) && m in s.log.moments && bump in Bumps(s.log, key) && bump.step < m.step
    ensures bump.commits <= m.commits && bump.rules <= m.rules
  {
    assert GoodMoment(s, m) && AfterBumps(s.log, key, m);
  }

  lemma RowsAreSeen(s: State, limit: int, x: Answer, key: CounterKey, bump: BumpRecord)
    requires Inv(s, limit) && x in s.answers && bump in Bumps(s.log, key) && Owes(x, key, bump.step)
    ensures RowsSee(x, bump.commits)
  {
    assert GoodAnswer(s.log, x);
    match x.seen
    case Some(keys) =>
      if key == Generation(x.store) {
        var _ := CountedExactly(s, key, keys.generation, bump);
      } else {
        var _ := CountedExactly(s, key, keys.version, bump);
      }
    case None => BeforeIsCounted(s, x.started, key, bump);
  }

  /** The answer owes an invalidation exactly when the loader of its agenda does. */
  lemma LoaderOwesTheSame(s: State, limit: int, x: Answer, key: CounterKey, bump: BumpRecord)
    requires Inv(s, limit) && x in s.answers && bump in Bumps(s.log, key)
    requires x.origin.Some? && x.seen.Some?
    ensures x.origin.value.loader.Some?
    ensures Owes(x, key, bump.step) <==> ResolvedAfter(x.store, x.day, x.origin.value.loader.value, key, bump.step)
  {
    assert GoodAnswer(s.log, x);
    assert KeyedOrigin(s.log, x.store, x.day, x.seen.value, x.origin.value);
    var keys, loader := x.seen.value, x.origin.value.loader.value;
    if key == Generation(x.store) {
      var i := CountedExactly(s, key, keys.generation, bump);
      var j := CountedExactly(s, key, loader.generation, bump);
      assert Bumps(s.log, key)[i].step == Bumps(s.log, key)[j].step;
      SameSide(s, key, keys.generation, loader.generation, bump);
    } else if key == Version(x.store, x.day) {
      SameSide(s, key, keys.version, loader.version, bump);
    }
  }

  lemma SameSide(s: State, key: CounterKey, a: Reading, b: Reading, bump: BumpRecord)
    requires CountersInv(s) && Seen(key, a) in s.log.readings && Seen(key, b) in s.log.readings
    requires bump in Bumps(s.log, key) && a.bumps == b.bumps
    ensures bump.step < a.step <==> bump.step < b.step
  {
    assert GoodReading(s, Seen(key, a)) && GoodReading(s, Seen(key, b));
    var k :| 0 <= k < |Bumps(s.log, key)| && Bumps(s.log, key)[k] == bump;
    assert k < a.bumps <==> bump.step < a.step;
    assert k < b.bumps <==> bump.step < b.step;
  }

  /** Rules read at a moment miss a change counted at an invalidation exactly when the change
      was made after the moment and before the invalidation. */
  lemma MissedChange(s: State, m: Moment, key: CounterKey, bump: BumpRecord)
    requires MomentsInv(s) && m in s.log.moments && bump in Bumps(s.log, key)
    ensures m.rules < bump.rules <==> exists j :: j in s.log.ruleCommits && m.step <= j < bump.step
  {
    var commits := s.log.ruleCommits;
    assert GoodMoment(s, m) && CountsRules(commits, m.rules, m.step);
    assert BumpsCountRules(s.log, key) && CountsRules(commits, bump.rules, bump.step);
    if m.rules < bump.rules {
      assert commits[m.rules] in commits;
    }
    if j :| j in commits && m.step <= j < bump.step {
      var c :| 0 <= c < |commits| && commits[c] == j;
    }
  }

  // ---------------------------------------------------------------- main results

  /** If every request ends within `limit` of starting and limit + 300 s <= 7 days, the rows
      behind the answers of every run are fresh, even when counters expire and restart. */
  lemma RowsAreCoherent(start: int, limit: int, run: seq<Action>)
    requires limit + SLOTS_TTL <= VERSION_TTL
    ensures RowsCoherent(start, limit, run)
  {
    var s := After(start, limit, run, |run|);
    InvAlways(start, limit, run, |run|);
    forall i, key, x | Invalidates(run, i, key) && x in s.answers && Owes(x, key, i)
      ensures RowsSee(x, After(start, limit, run, i).commits)
    {
      BumpIsLogged(start, limit, run, i, |run|, key);
      RowsAreSeen(s, limit, x, key, RecordAt(start, limit, run, i));
    }
  }

  lemma MissedChangeInRun(start: int, limit: int, run: seq<Action>, m: Moment, key: CounterKey, i: nat)
    requires Invalidates(run, i, key) && LogInv(After(start, limit, run, |run|))
    requires m in After(start, limit, run, |run|).log.moments
    ensures m.rules < RecordAt(start, limit, run, i).rules <==> exists j :: ChangedBetween(run, m.step, j, i)
  {
    var s := After(start, limit, run, |run|);
    BumpIsLogged(start, limit, run, i, |run|, key);
    MissedChange(s, m, key, RecordAt(start, limit, run, i));
    forall j: nat ensures j in s.log.ruleCommits && m.step <= j < i <==> ChangedBetween(run, m.step, j, i) {
      RuleCommitsAre(start, limit, run, |run|, j);
    }
  }

  /** One answer against one invalidation: it misses a change of rules it owes exactly when
      the loader of its agenda was overtaken there. */
  lemma MissesRulesExactly(start: int, limit: int, run: seq<Action>, x: Answer, key: CounterKey, i: nat)
    requires limit + SLOTS_TTL <= VERSION_TTL
    requires x in After(start, limit, run, |run|).answers && Invalidates(run, i, key)
    ensures Owes(x, key, i) && !RulesSee(x, |After(start, limit, run, i).log.ruleCommits|) <==>
            exists j :: OvertakenAt(run, x, j, i, key)
  {
    var s := After(start, limit, run, |run|);
    var bump := RecordAt(start, limit, run, i);
    InvAlways(start, limit, run, |run|);
    BumpIsLogged(start, limit, run, i, |run|, key);
    assert GoodAnswer(s.log, x);
    if x.origin.Some? {
      var rules := x.origin.value.rules;
      MissedChangeInRun(start, limit, run, rules, key, i);
      if x.seen.Some? {
        LoaderOwesTheSame(s, limit, x, key, bump);
        assert forall j :: OvertakenAt(run, x, j, i, key) <==> ChangedBetween(run, rules.step, j, i) && Owes(x, key, i);
      } else if Owes(x, key, i) {
        BeforeIsCounted(s, x.started, key, bump);
      }
    }
  }

  /** The cache is coherent in exactly the runs in which no change of rules overtakes a
      request between reading the rules and resolving its keys. */
  lemma CacheIsCoherentExactly(start: int, limit: int, run: seq<Action>)
    requires limit + SLOTS_TTL <= VERSION_TTL
    ensures Coherent(start, limit, run) <==> !SomeOvertaken(start, limit, run)
  {
    var s := After(start, limit, run, |run|);
    RowsAreCoherent(start, limit, run);
    forall i, key, x | Invalidates(run, i, key) && x in s.answers
      ensures Owes(x, key, i) && !RulesSee(x, |After(start, limit, run, i).log.ruleCommits|) <==>
              exists j :: OvertakenAt(run, x, j, i, key)
    {
      MissesRulesExactly(start, limit, run, x, key, i);
    }
  }

  /** Rules read after resolving the keys, as the panel does, are never overtaken; so an answer
      built on them owes nothing it has not seen. */
  lemma LateRulesAreNeverOvertaken(start: int, limit: int, run: seq<Action>, x: Answer, j: nat, i: nat, key: CounterKey)
    requires limit + SLOTS_TTL <= VERSION_TTL
    requires x in After(start, limit, run, |run|).answers && x.origin.Some? && !x.origin.value.early
    ensures !OvertakenAt(run, x, j, i, key)
  {
    InvAlways(start, limit, run, |run|);
    assert GoodAnswer(After(start, limit, run, |run|).log, x);
  }
}
