/** What the log of a run says of the counters and of the moments lookups noted. */
module CacheLog {
  import opened Clock
  import opened AvailabilityCache
  import opened CacheProtocol

  // ---------------------------------------------------------------- invariants: counters

  /** A reading counts exactly the bumps made before its step. */
  ghost predicate ReadingCounts(s: State, key: CounterKey, r: Reading) {
    && r.bumps <= |Bumps(s.log, key)| && r.at <= s.now && r.step <= s.step
    && forall i | 0 <= i < |Bumps(s.log, key)| :: i < r.bumps <==> Bumps(s.log, key)[i].step < r.step
  }

  /** For seven days after a reading, its value means "no bump since": the counter cannot
      expire, so its value is the one read exactly while nobody bumps it, and larger after. */
  ghost predicate ReadingStands(s: State, key: CounterKey, r: Reading) {
    s.now < r.at + VERSION_TTL ==>
      if r.bumps == |Bumps(s.log, key)| then
        if r.value == 0 then !Alive(s.counters, s.now, key)
        else key in s.counters && s.counters[key].value == r.value && r.at + VERSION_TTL <= s.counters[key].expires
      else
        key in s.counters && s.counters[key].value > r.value && r.at + VERSION_TTL <= s.counters[key].expires
  }

  ghost predicate GoodReading(s: State, x: Seen) {
    ReadingCounts(s, x.key, x.reading) && ReadingStands(s, x.key, x.reading)
  }

  /** Within seven days of both, two readings with the same value have no bump between them. */
  ghost predicate Agree(now: int, x: Seen, y: Seen) {
    x.key == y.key && x.reading.value == y.reading.value
    && now < x.reading.at + VERSION_TTL && now < y.reading.at + VERSION_TTL
    ==> x.reading.bumps == y.reading.bumps
  }

  ghost predicate GoodBumps(s: State, key: CounterKey) {
    forall i | 0 <= i < |Bumps(s.log, key)| ::
      Bumps(s.log, key)[i].step < s.step && Bumps(s.log, key)[i].commits <= s.commits
  }

  ghost predicate CountersInv(s: State) {
    && (forall k | k in s.counters :: s.counters[k].value > 0)
    && (forall k :: GoodBumps(s, k))
    && (forall x | x in s.log.readings :: GoodReading(s, x))
    && (forall x, y | x in s.log.readings && y in s.log.readings :: Agree(s.now, x, y))
  }

  /** Steps that leave counters and log alone. */
  predicate Quiet(a: Action) {
    !a.Invalidate? && !a.ReadGeneration? && !a.ReadVersion?
  }

  ghost predicate SameCounters(s: State, t: State) {
    && t.counters == s.counters && t.log.history == s.log.history && t.log.readings == s.log.readings
    && s.now <= t.now && s.commits <= t.commits
  }

  /** The log gains at most the present moment. */
  ghost predicate NotesOnly(s: State, t: State) {
    && t.log == s.log.(moments := t.log.moments)
    && s.log.moments <= t.log.moments <= s.log.moments + {Now(s)}
  }

  lemma QuietLookupShape(s: State, id: nat, q: Lookup, a: Action)
    requires Quiet(a)
    ensures var t := LookupStep(s, id, q, a);
            && t.counters == s.counters && t.now == s.now && t.commits == s.commits && t.step == s.step
            && NotesOnly(s, t)
  {
    if a.LoseRedis? || a.ReadSlots? || a.ReadSelection? || a.ReadAgenda? {
      QuietReadShape(s, id, q, a);
    }
  }

  lemma QuietReadShape(s: State, id: nat, q: Lookup, a: Action)
    requires a.LoseRedis? || a.ReadSlots? || a.ReadSelection? || a.ReadAgenda?
    ensures var t := LookupStep(s, id, q, a);
            && t.counters == s.counters && t.now == s.now && t.commits == s.commits && t.step == s.step
            && NotesOnly(s, t)
  {
  }

  lemma QuietStepShape(s: State, limit: int, a: Action)
    requires Quiet(a)
    ensures SameCounters(s, Next(s, limit, a)) && Next(s, limit, a).step == s.step + 1
    ensures !a.Commit? ==> NotesOnly(s, Next(s, limit, a))
  {
    if !Global(a) && Live(s, limit, a.id) {
      QuietLookupShape(s, a.id, s.lookups[a.id], a);
    }
  }

  /** One GETEX of `key`. */
  ghost predicate OneReading(s: State, t: State, key: CounterKey) {
    && t.now == s.now && t.commits == s.commits
    && t.counters == Touch(s.counters, s.now, key)
    && t.log == s.log.(readings := s.log.readings + {Seen(key, Read(s, key))}) && t.log.moments == s.log.moments
  }

  lemma ReadingStepShape(s: State, limit: int, a: Action) returns (key: CounterKey)
    requires a.ReadGeneration? || a.ReadVersion?
    ensures var t := Next(s, limit, a);
            t.step == s.step + 1 && ((SameCounters(s, t) && t.log == s.log) || OneReading(s, t, key))
  {
    key := Generation("");
    if a.id in s.lookups {
      var q := s.lookups[a.id];
      key := if a.ReadGeneration? then Generation(q.store) else Version(q.store, q.day);
    }
  }

  lemma QuietKeepsCounters(s: State, t: State)
    requires CountersInv(s) && SameCounters(s, t) && t.step == s.step + 1
    ensures CountersInv(t)
  {
    forall k ensures GoodBumps(t, k) && Bumps(t.log, k) == Bumps(s.log, k) {
      assert Bumps(t.log, k) == Bumps(s.log, k);
      assert GoodBumps(s, k);
    }
    forall x | x in t.log.readings ensures GoodReading(t, x) {
      assert GoodReading(s, x);
    }
    forall x, y | x in t.log.readings && y in t.log.readings ensures Agree(t.now, x, y) {
      assert Agree(s.now, x, y);
    }
  }

  lemma ReadingKeepsCounters(s: State, t: State, key: CounterKey)
    requires CountersInv(s) && OneReading(s, t, key) && t.step == s.step + 1
    ensures CountersInv(t)
  {
    var new_ := Seen(key, Read(s, key));
    forall k ensures GoodBumps(t, k) && Bumps(t.log, k) == Bumps(s.log, k) {
      assert Bumps(t.log, k) == Bumps(s.log, k);
      assert GoodBumps(s, k);
    }
    forall x | x in t.log.readings ensures GoodReading(t, x) {
      assert x in s.log.readings ==> GoodReading(s, x);
      assert GoodBumps(s, x.key);
    }
    forall x | x in s.log.readings ensures Agree(s.now, x, new_) && Agree(s.now, new_, x) {
      assert GoodReading(s, x);
    }
    forall x, y | x in t.log.readings && y in t.log.readings ensures Agree(t.now, x, y) {
      assert x in s.log.readings && y in s.log.readings ==> Agree(s.now, x, y);
    }
  }

  lemma BumpsAfterInvalidate(s: State, limit: int, keys: set<CounterKey>, k: CounterKey)
    ensures Bumps(Next(s, limit, Invalidate(keys)).log, k) ==
            if k in keys then Bumps(s.log, k) + [BumpRecord(s.step, s.commits, |s.log.ruleCommits|)]
                else Bumps(s.log, k)
  {
  }

  lemma InvalidateKeepsReading(s: State, limit: int, keys: set<CounterKey>, x: Seen)
    requires GoodReading(s, x)
    ensures GoodReading(Next(s, limit, Invalidate(keys)), x)
  {
    BumpsAfterInvalidate(s, limit, keys, x.key);
  }

  lemma InvalidateKeepsCounters(s: State, limit: int, keys: set<CounterKey>)
    requires CountersInv(s)
    ensures CountersInv(Next(s, limit, Invalidate(keys)))
  {
    var t := Next(s, limit, Invalidate(keys));
    forall k ensures GoodBumps(t, k) {
      assert GoodBumps(s, k);
      BumpsAfterInvalidate(s, limit, keys, k);
    }
    forall x | x in t.log.readings ensures GoodReading(t, x) {
      InvalidateKeepsReading(s, limit, keys, x);
    }
  }

  lemma StepKeepsCounters(s: State, limit: int, a: Action)
    requires CountersInv(s)
    ensures CountersInv(Next(s, limit, a))
  {
    var t := Next(s, limit, a);
    if a.Invalidate? {
      InvalidateKeepsCounters(s, limit, a.keys);
    } else if Quiet(a) {
      QuietStepShape(s, limit, a);
      QuietKeepsCounters(s, t);
    } else {
      var key := ReadingStepShape(s, limit, a);
      if SameCounters(s, t) {
        QuietKeepsCounters(s, t);
      } else {
        ReadingKeepsCounters(s, t, key);
      }
    }
  }

  // ---------------------------------------------------------------- invariants: moments

  /** The first `rules` commits of rules are those made before `step`. */
  ghost predicate CountsRules(ruleCommits: seq<nat>, rules: nat, step: nat) {
    rules <= |ruleCommits| && forall c | 0 <= c < |ruleCommits| :: c < rules <==> ruleCommits[c] < step
  }

  /** An INCR made before the moment had seen no commit that the moment had not. */
  ghost predicate AfterBumps(log: Log, key: CounterKey, m: Moment) {
    forall i | 0 <= i < |Bumps(log, key)| && Bumps(log, key)[i].step < m.step ::
      Bumps(log, key)[i].commits <= m.commits && Bumps(log, key)[i].rules <= m.rules
  }

  ghost predicate GoodMoment(s: State, m: Moment) {
    && m.step <= s.step && m.commits <= s.commits && m.at <= s.now
    && CountsRules(s.log.ruleCommits, m.rules, m.step)
    && forall key :: AfterBumps(s.log, key, m)
  }

  ghost predicate BumpsCountRules(log: Log, key: CounterKey) {
    forall i | 0 <= i < |Bumps(log, key)| ::
      CountsRules(log.ruleCommits, Bumps(log, key)[i].rules, Bumps(log, key)[i].step)
  }

  ghost predicate MomentsInv(s: State) {
    && (forall c | 0 <= c < |s.log.ruleCommits| :: s.log.ruleCommits[c] < s.step)
    && (forall key :: BumpsCountRules(s.log, key))
    && (forall m {:trigger GoodMoment(s, m)} | m in s.log.moments :: GoodMoment(s, m))
  }

  ghost predicate LogInv(s: State) {
    CountersInv(s) && MomentsInv(s)
  }

  lemma NowIsGood(s: State)
    requires LogInv(s)
    ensures GoodMoment(s, Now(s))
  {
    forall key ensures AfterBumps(s.log, key, Now(s)) {
      assert GoodBumps(s, key) && BumpsCountRules(s.log, key);
    }
  }

  lemma NotesKeepMoments(s: State, t: State)
    requires LogInv(s) && t.log.history == s.log.history && t.log.ruleCommits == s.log.ruleCommits
    requires t.log.moments <= s.log.moments + {Now(s)} && s.step <= t.step && s.commits <= t.commits
    requires s.now <= t.now
    ensures MomentsInv(t)
  {
    NowIsGood(s);
    forall key ensures BumpsCountRules(t.log, key) {
      assert BumpsCountRules(s.log, key) && Bumps(t.log, key) == Bumps(s.log, key);
    }
    forall m | m in t.log.moments ensures GoodMoment(t, m) {
      assert GoodMoment(s, m);
      forall key ensures AfterBumps(t.log, key, m) {
        assert AfterBumps(s.log, key, m) && Bumps(t.log, key) == Bumps(s.log, key);
      }
    }
  }

  lemma CommitKeepsMoments(s: State, limit: int, rules: bool)
    requires LogInv(s)
    ensures MomentsInv(Next(s, limit, Commit(rules)))
  {
    var t := Next(s, limit, Commit(rules));
    forall key ensures BumpsCountRules(t.log, key) {
      assert BumpsCountRules(s.log, key) && GoodBumps(s, key) && Bumps(t.log, key) == Bumps(s.log, key);
    }
    forall m | m in t.log.moments ensures GoodMoment(t, m) {
      assert GoodMoment(s, m);
      forall key ensures AfterBumps(t.log, key, m) {
        assert AfterBumps(s.log, key, m) && Bumps(t.log, key) == Bumps(s.log, key);
      }
    }
  }

  lemma InvalidateKeepsMoments(s: State, limit: int, keys: set<CounterKey>)
    requires LogInv(s)
    ensures MomentsInv(Next(s, limit, Invalidate(keys)))
  {
    var t := Next(s, limit, Invalidate(keys));
    forall key ensures BumpsCountRules(t.log, key) {
      BumpsAfterInvalidate(s, limit, keys, key);
      assert BumpsCountRules(s.log, key);
    }
    forall m | m in t.log.moments ensures GoodMoment(t, m) {
      assert GoodMoment(s, m);
      forall key ensures AfterBumps(t.log, key, m) {
        assert AfterBumps(s.log, key, m);
        BumpsAfterInvalidate(s, limit, keys, key);
      }
    }
  }

  lemma StepKeepsMoments(s: State, limit: int, a: Action)
    requires LogInv(s)
    ensures MomentsInv(Next(s, limit, a))
  {
    if a.Invalidate? {
      InvalidateKeepsMoments(s, limit, a.keys);
    } else if a.Commit? {
      CommitKeepsMoments(s, limit, a.rules);
    } else if Quiet(a) {
      QuietStepShape(s, limit, a);
      NotesKeepMoments(s, Next(s, limit, a));
    } else {
      var _ := ReadingStepShape(s, limit, a);
      NotesKeepMoments(s, Next(s, limit, a));
    }
  }

  lemma StepKeepsLog(s: State, limit: int, a: Action)
    requires LogInv(s)
    ensures LogInv(Next(s, limit, a))
  {
    StepKeepsCounters(s, limit, a);
    StepKeepsMoments(s, limit, a);
  }

  // ---------------------------------------------------------------- nothing is lost

  /** Readings, bumps, commits and moments are only added. */
  ghost predicate Extends(old_: Log, new_: Log) {
    && old_.readings <= new_.readings && old_.ruleCommits <= new_.ruleCommits && old_.moments <= new_.moments
    && forall k :: Bumps(old_, k) <= Bumps(new_, k)
  }

  lemma StepExtends(s: State, limit: int, a: Action)
    ensures var t := Next(s, limit, a);
            Extends(s.log, t.log) && s.now <= t.now && s.commits <= t.commits
  {
    var t := Next(s, limit, a);
    if Quiet(a) {
      QuietStepShape(s, limit, a);
    } else if a.Invalidate? {
      forall k ensures Bumps(s.log, k) <= Bumps(t.log, k) {
        BumpsAfterInvalidate(s, limit, a.keys, k);
      }
    } else {
      var _ := ReadingStepShape(s, limit, a);
      forall k ensures Bumps(s.log, k) <= Bumps(t.log, k) {
      }
    }
  }
}
