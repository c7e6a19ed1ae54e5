/** From a block operation to the answers of the availability service: a request that resolves
    its keys after the operation ended is answered from rows read after its commit. */
module BlocksAreServed {
  import opened Clock
  import opened AvailabilityCache
  import opened CacheProtocol
  import opened CacheAnswers
  import CacheLog
  import BlockInvalidation
  import AgendaBlocks

  /** In the run, a transaction commits at step j and its invalidation ends at step i. */
  predicate EndsAt(run: seq<Action>, j: nat, i: nat, store: string, done: Invalidation) {
    j < i < |run| && run[j].Commit? && run[i] == Invalidate(done.Keys(store))
  }

  /** The answer is of a lookup of that store that resolved both keys after step i, or that
      resolved none and began after it. */
  predicate AskedAfter(x: Answer, store: string, i: nat) {
    && x.store == store
    && match x.seen
       case Some(keys) => i < keys.generation.step && i < keys.version.step
       case None => i < x.started.step
  }

  lemma CommitsByOne(s: State, limit: int, a: Action)
    ensures s.commits <= Next(s, limit, a).commits
    ensures a.Commit? ==> Next(s, limit, a).commits == s.commits + 1
  {
    if CacheLog.Quiet(a) {
      CacheLog.QuietStepShape(s, limit, a);
    } else if !a.Invalidate? {
      var _ := CacheLog.ReadingStepShape(s, limit, a);
    }
  }

  lemma CommitsByOneInRun(start: int, limit: int, run: seq<Action>, i: nat)
    requires i < |run|
    ensures After(start, limit, run, i).commits + (if run[i].Commit? then 1 else 0)
            <= After(start, limit, run, i + 1).commits
  {
    CommitsByOne(After(start, limit, run, i), limit, run[i]);
  }

  lemma {:induction false} CommitsGrow(start: int, limit: int, run: seq<Action>, j: nat, i: nat)
    requires j < i <= |run| && run[j].Commit?
    ensures After(start, limit, run, j).commits < After(start, limit, run, i).commits
    decreases i
  {
    var last := i - 1;
    CommitsByOneInRun(start, limit, run, last);
    if j < last {
      CommitsGrow(start, limit, run, j, last);
    }
  }

  /** What is invalidated is served afresh: for every day the invalidation reaches, rows read at
      or after the commit. */
  lemma ReachedDayIsServedAfresh(start: int, limit: int, run: seq<Action>, j: nat, i: nat, store: string,
                                 done: Invalidation, x: Answer)
    requires limit + SLOTS_TTL <= VERSION_TTL && EndsAt(run, j, i, store, done)
    requires x in After(start, limit, run, |run|).answers && AskedAfter(x, store, i) && done.Reaches(x.day)
    ensures After(start, limit, run, j).commits < x.source.commits
  {
    var key := if done.wholeStore then Generation(store) else Version(store, x.day);
    assert key in done.Keys(store) by {
      if !done.wholeStore {
        assert x.day in done.days;
      }
    }
    RowsAreCoherent(start, limit, run);
    CommitsGrow(start, limit, run, j, i);
    assert Invalidates(run, i, key) && Owes(x, key, i);
    assert RowsSee(x, After(start, limit, run, i).commits);
  }

  /** After a creation: on every day that loads other blocks than before, an answer asked for
      later comes from rows that hold the new blocks. */
  lemma NewBlocksAreServed(start: int, limit: int, run: seq<Action>, j: nat, i: nat, store: string, x: Answer,
                           s: AgendaBlocks.Store, active: seq<string>, staffId: Option<string>, ranges: seq<Range>,
                           reason: string, consent: AgendaBlocks.Consent)
    requires limit + SLOTS_TTL <= VERSION_TTL
    requires EndsAt(run, j, i, store, BlockInvalidation.InvalidationOf(ranges))
    requires x in After(start, limit, run, |run|).answers && AskedAfter(x, store, i)
    requires AgendaBlocks.Create(s, active, staffId, ranges, reason, consent).Success?
    requires var t := AgendaBlocks.Create(s, active, staffId, ranges, reason, consent).value.0;
             BlockInvalidation.Loaded(s.blocks, x.day) != BlockInvalidation.Loaded(t.blocks, x.day)
    ensures After(start, limit, run, j).commits < x.source.commits
  {
    BlockInvalidation.CreateInvalidatesEveryChangedDay(s, active, staffId, ranges, reason, consent, x.day);
    ReachedDayIsServedAfresh(start, limit, run, j, i, store, BlockInvalidation.InvalidationOf(ranges), x);
  }

  /** And after an edit or a deletion. */
  lemma EditedBlocksAreServed(start: int, limit: int, run: seq<Action>, j: nat, i: nat, store: string, x: Answer,
                              s: AgendaBlocks.Store, now: int, id: nat, changes: AgendaBlocks.Changes,
                              consent: AgendaBlocks.Consent)
    requires limit + SLOTS_TTL <= VERSION_TTL
    requires AgendaBlocks.Update(s, now, id, changes, consent).Success?
    requires var t := AgendaBlocks.Update(s, now, id, changes, consent).value.0;
             && EndsAt(run, j, i, store, BlockInvalidation.InvalidationOf([s.blocks[id].span, t.blocks[id].span]))
             && BlockInvalidation.Loaded(s.blocks, x.day) != BlockInvalidation.Loaded(t.blocks, x.day)
    requires x in After(start, limit, run, |run|).answers && AskedAfter(x, store, i)
    ensures After(start, limit, run, j).commits < x.source.commits
  {
    var t := AgendaBlocks.Update(s, now, id, changes, consent).value.0;
    var done := BlockInvalidation.InvalidationOf([s.blocks[id].span, t.blocks[id].span]);
    BlockInvalidation.UpdateInvalidatesEveryChangedDay(s, now, id, changes, consent, x.day);
    ReachedDayIsServedAfresh(start, limit, run, j, i, store, done, x);
  }
}
