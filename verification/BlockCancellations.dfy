/** The turns that a block cancels: which days load other appointments afterwards, and when one
    of those days is not invalidated. */
module BlockCancellations {
  import opened Clock
  import opened AvailabilityCache
  import opened AgendaBlocks
  import opened BlockInvalidation
  import DayAgenda

  /** The agenda of the day loads the appointment: it is active and overlaps the day widened by
      the buffer. */
  predicate TurnLoads(a: Appointment, day: int, buffer: int) {
    IsActive(a.status) && DayAgenda.AppointmentOverlap(a.span, DayStart(day) - buffer, DayEnd(day) + buffer)
  }

  /** The appointment rows of a day: which ones, for whom and when. */
  function LoadedTurns(rows: seq<Appointment>, day: int, buffer: int): map<nat, (string, Range)> {
    map i: nat | i < |rows| && TurnLoads(rows[i], day, buffer) :: (rows[i].staff, rows[i].span)
  }

  /** A cancellable row among the affected ones that the day loads. */
  ghost predicate LosesATurn(rows: seq<Appointment>, ids: seq<nat>, day: int, buffer: int) {
    exists id :: id in ids && id < |rows| && rows[id].Cancellable() && TurnLoads(rows[id], day, buffer)
  }

  /** A day loads other appointments after the guard exactly when it loaded one it cancelled. */
  lemma ResolveChangesTurnsExactly(s: Store, ids: seq<nat>, reason: string, day: int, buffer: int)
    requires InRange(s.appointments, ids) && ByStart(s.appointments, ids)
    ensures var t := Resolve(s, ids, reason).0;
            LoadedTurns(s.appointments, day, buffer) != LoadedTurns(t.appointments, day, buffer) <==>
            LosesATurn(s.appointments, ids, day, buffer)
  {
    var t := Resolve(s, ids, reason).0;
    var before, after := LoadedTurns(s.appointments, day, buffer), LoadedTurns(t.appointments, day, buffer);
    forall id: nat | id < |s.appointments|
      ensures t.appointments[id] ==
              if id in ids && s.appointments[id].Cancellable() then CancelRow(s.appointments[id])
                  else s.appointments[id]
    {
      ResolveExactly(s, ids, reason, id);
    }
    if LosesATurn(s.appointments, ids, day, buffer) {
      var id :| id in ids && id < |s.appointments| && s.appointments[id].Cancellable()
                && TurnLoads(s.appointments[id], day, buffer);
      assert id in before && id !in after;
    } else {
      forall id: nat
        ensures id in before <==> id in after
        ensures id in before ==> before[id] == after[id]
      {
        assert id < |s.appointments| && id in ids && s.appointments[id].Cancellable() ==>
               !TurnLoads(s.appointments[id], day, buffer);
      }
      assert before == after;
    }
  }

  function AffectedByCreation(s: Store, active: seq<string>, staffId: Option<string>, ranges: seq<Range>): seq<nat> {
    match StaffFor(active, staffId)
    case Success(members) => ListAffected(s.appointments, members, ranges)
    case Failure(_) => []
  }

  /** Some day loads other appointments than before and is not invalidated. */
  ghost predicate MissesADay(before: seq<Appointment>, after: seq<Appointment>, done: Invalidation, buffer: int) {
    exists day :: LoadedTurns(before, day, buffer) != LoadedTurns(after, day, buffer) && !done.Reaches(day)
  }

  /** Some affected appointment that may be cancelled is loaded on a day out of reach. */
  ghost predicate TurnOutOfReach(rows: seq<Appointment>, ids: seq<nat>, done: Invalidation, buffer: int) {
    exists day :: LosesATurn(rows, ids, day, buffer) && !done.Reaches(day)
  }

  lemma ResolveMissesExactly(s: Store, ids: seq<nat>, reason: string, done: Invalidation, buffer: int)
    requires InRange(s.appointments, ids) && ByStart(s.appointments, ids)
    ensures MissesADay(s.appointments, Resolve(s, ids, reason).0.appointments, done, buffer) <==>
            TurnOutOfReach(s.appointments, ids, done, buffer)
  {
    var after := Resolve(s, ids, reason).0.appointments;
    forall day
      ensures LoadedTurns(s.appointments, day, buffer) != LoadedTurns(after, day, buffer) <==>
              LosesATurn(s.appointments, ids, day, buffer)
    {
      ResolveChangesTurnsExactly(s, ids, reason, day, buffer);
    }
  }

  /** A creation leaves a day with an old agenda exactly when an appointment it cancels is loaded
      on a day that none of its ranges reaches. */
  lemma CreationMissesExactly(s: Store, active: seq<string>, staffId: Option<string>, ranges: seq<Range>,
                              reason: string, consent: Consent, buffer: int)
    requires Create(s, active, staffId, ranges, reason, consent).Success?
    ensures var t := Create(s, active, staffId, ranges, reason, consent).value.0;
            MissesADay(s.appointments, t.appointments, InvalidationOf(ranges), buffer) <==>
            TurnOutOfReach(s.appointments, AffectedByCreation(s, active, staffId, ranges), InvalidationOf(ranges),
                           buffer)
  {
    var members := StaffFor(active, staffId).value;
    var ids := ListAffected(s.appointments, members, ranges);
    AffectedByStart(s.appointments, members, ranges);
    ResolveMissesExactly(s, ids, reason, InvalidationOf(ranges), buffer);
  }

  /** The same of an edit, with the added ranges and the invalidation of both spans. */
  lemma EditMissesExactly(s: Store, now: int, id: nat, changes: Changes, consent: Consent, buffer: int)
    requires Update(s, now, id, changes, consent).Success?
    ensures var t := Update(s, now, id, changes, consent).value.0;
            var block, next := s.blocks[id], t.blocks[id];
            var added := AddedRanges(block.span, block.active, next.span, next.active);
            var done := InvalidationOf([block.span, next.span]);
            MissesADay(s.appointments, t.appointments, done, buffer) <==>
            TurnOutOfReach(s.appointments, ListAffected(s.appointments, [block.staff], added), done, buffer)
  {
    var block := s.blocks[id];
    var planned := PlannedRange(now, block, changes).value;
    var next := Edited(block, planned, changes);
    var ids := ListAffected(s.appointments, [block.staff], AddedRanges(block.span, block.active, planned, next.active));
    AffectedByStart(s.appointments, [block.staff], AddedRanges(block.span, block.active, planned, next.active));
    ResolveMissesExactly(s, ids, next.reason, InvalidationOf([block.span, planned]), buffer);
  }

  lemma {:induction false} DayIsReached(ranges: seq<Range>, i: nat, day: int)
    requires i < |ranges| && LocalDay(ranges[i].from) <= day <= LocalDay(ranges[i].until)
    ensures OfRanges(ranges).Reaches(day)
  {
    if i < |ranges| - 1 {
      DayIsReached(ranges[..|ranges| - 1], i, day);
    }
  }

  /** A turn that lies, buffer counted, within the days of a range is never missed: only turns
      that begin before the first of them or end after the last can be. */
  lemma TurnsWithinTheDaysAreReached(ranges: seq<Range>, i: nat, a: Appointment, day: int, buffer: int)
    requires i < |ranges| && ranges[i].Valid() && buffer >= 0 && TurnLoads(a, day, buffer)
    requires DayStart(LocalDay(ranges[i].from)) <= a.span.from - buffer
    requires a.span.until + buffer <= DayEnd(LocalDay(ranges[i].until))
    ensures InvalidationOf(ranges).Reaches(day)
  {
    DayIsReached(ranges, i, day);
  }

  /** A creation from 00:15 to 01:00 cancels a turn from 23:30 to 00:30: the day before loaded
      the turn, and its agenda is not invalidated. No buffer is needed. */
  lemma TurnAcrossMidnightIsMissed(day: int) returns (s: Store, ranges: seq<Range>)
    requires 0 <= day && day + 2 <= MAX_DAY
    ensures var r := Create(s, ["ana"], Some("ana"), ranges, "feriado", Consent(true, true));
            r.Success? && MissesADay(s.appointments, r.value.0.appointments, InvalidationOf(ranges), 0)
  {
    var midnight := DayStart(day + 1);
    var turn := Appointment("ana", Range(midnight - 30 * MINUTE, midnight + 30 * MINUTE), Confirmed, false, false,
                            true);
    s := Store([turn], [], [], []);
    ranges := [Range(midnight + 15 * MINUTE, midnight + HOUR)];
    var ids := AffectedByCreation(s, ["ana"], Some("ana"), ranges);
    OnlyTheNextDay(day, ranges);
    ListedExactly(turn, ["ana"], ranges);
    assert ranges[0].Overlaps(turn.span);
    AffectedExactly(s.appointments, ["ana"], ranges, 0);
    assert 0 in ids && TurnLoads(s.appointments[0], day, 0);
    assert LosesATurn(s.appointments, ids, day, 0);
    CreationMissesExactly(s, ["ana"], Some("ana"), ranges, "feriado", Consent(true, true), 0);
  }

  lemma OnlyTheNextDay(day: int, ranges: seq<Range>)
    requires 0 <= day && day + 2 <= MAX_DAY
    requires ranges == [Range(DayStart(day + 1) + 15 * MINUTE, DayStart(day + 1) + HOUR)]
    ensures !InvalidationOf(ranges).Reaches(day)
  {
    var r := ranges[0];
    assert LocalDay(r.from) == day + 1 && LocalDay(r.until) == day + 1;
    assert UtcDay(r.from) == day + 1 && UtcDay(r.until) == day + 1;
    assert ranges[..0] == [];
    assert TotalDays(ranges[..0]) == 0 && TotalDays(ranges) == 1;
    assert OfRanges(ranges) == Merge(OfRanges(ranges[..0]), OfRange(r));
  }
}
