/** Runs of block operations and bookings: no appointment is orphaned under a block unless an
    operation, with consent, found it to need a person; and who gets to know. */
module BlockRuns {
  import opened Clock
  import opened AgendaBlocks

  datatype Step =
    | CreateStep(staffId: Option<string>, ranges: seq<Range>, reason: string, consent: Consent)
    | UpdateStep(now: int, id: nat, changes: Changes, consent: Consent)
    | DeleteStep(now: int, id: nat)
    | BookStep(booking: Appointment)
    | StatusStep(appointmentId: nat, status: Status)
    | PaymentStep(appointmentId: nat, accredited: bool, liveCharge: bool)

  /** An active block of the professional overlaps the span. */
  predicate Obstructed(s: Store, staff: string, span: Range) {
    exists b :: 0 <= b < |s.blocks| && s.blocks[b].active && s.blocks[b].staff == staff
        && s.blocks[b].span.Overlaps(span)
  }

  /** The block operation of a step, if it is one; ranges come validated by the schemas. */
  function Operation(s: Store, active: seq<string>, step: Step): Option<Result<(Store, Resolution)>> {
    match step
    case CreateStep(staffId, ranges, reason, consent) =>
      if forall i | 0 <= i < |ranges| ::
          ranges[i].Valid() then Some(Create(s, active, staffId, ranges, reason, consent))
      else None
    case UpdateStep(now, id, changes, consent) => Some(Update(s, now, id, changes, consent))
    case DeleteStep(now, id) => Some(Delete(s, now, id))
    case _ => None
  }

  /** A failed operation, and a booking or a transition that is refused, changes nothing. */
  function Next(s: Store, active: seq<string>, step: Step): Store {
    match step
    case BookStep(a) =>
      if a.WellFormed() && !Obstructed(s, a.staff, a.span) then s.(appointments := s.appointments + [a]) else s
    case StatusStep(id, status) =>
      if id < |s.appointments| && MayBecome(s.appointments[id].status, status) then
        s.(appointments := s.appointments[id := s.appointments[id].(status := status)])
      else s
    case PaymentStep(id, accredited, liveCharge) =>
      if id < |s.appointments| then
        s.(appointments := s.appointments[id := s.appointments[id].(accredited := accredited,
                                                                    liveCharge := liveCharge)])
      else s
    case _ =>
      var r := Operation(s, active, step);
      if r.Some? && r.value.Success? then r.value.value.0 else s
  }

  function After(s: Store, active: seq<string>, steps: seq<Step>, n: nat): Store
    requires n <= |steps|
  {
    if n == 0 then s else Next(After(s, active, steps, n - 1), active, steps[n - 1])
  }

  ghost predicate WellFormed(s: Store) {
    && (forall i | 0 <= i < |s.appointments| :: s.appointments[i].WellFormed())
    && (forall i | 0 <= i < |s.blocks| :: s.blocks[i].span.Valid())
  }

  /** Active appointment a lies, in part at least, under active block b. */
  predicate Covers(s: Store, a: nat, b: nat) {
    && a < |s.appointments| && b < |s.blocks|
    && IsActive(s.appointments[a].status) && s.blocks[b].active
    && s.appointments[a].staff == s.blocks[b].staff && s.blocks[b].span.Overlaps(s.appointments[a].span)
  }

  function ConsentOf(step: Step): Consent {
    match step
    case CreateStep(_, _, _, consent) => consent
    case UpdateStep(_, _, _, consent) => consent
    case _ => NO_CONSENT
  }

  /** The step is a block operation that a manager confirmed, that succeeded, and whose guard
      found the appointment to be one it may not cancel: awaiting payment, or with the deposit
      paid. */
  predicate Classified(s: Store, active: seq<string>, step: Step, a: nat) {
    var r := Operation(s, active, step);
    && r.Some? && r.value.Success? && a in r.value.value.1.skipped
    && a < |s.appointments| && !s.appointments[a].Cancellable()
    && ConsentOf(step) == Consent(true, true)
  }

  /** The step logged the appointment among those it left under the block. */
  predicate Reported(s: Store, active: seq<string>, step: Step, a: nat) {
    var audit := Next(s, active, step).audit;
    exists i :: |s.audit| <= i < |audit| && audit[i].BlockCreated? && a in audit[i].skipped
  }

  // ---------------------------------------------------------------- one step

  /** The guard leaves, of the active rows under the ranges, only those it may not cancel. */
  lemma GuardClassifies(s: Store, staffIds: seq<string>, ranges: seq<Range>, reason: string, consent: Consent, a: nat)
    requires WellFormed(s) && a < |s.appointments|
    requires Guard(s, staffIds, ranges, reason, consent).Success?
    ensures var (t, done) := Guard(s, staffIds, ranges, reason, consent).value;
            && t.blocks == s.blocks && LogsCancellations(s.audit, t.audit)
            && |t.appointments| == |s.appointments|
            && (t.appointments[a] == s.appointments[a] || t.appointments[a] == CancelRow(s.appointments[a]))
            && (IsActive(t.appointments[a].status) && s.appointments[a].staff in staffIds
                && OverlapsSome(ranges, s.appointments[a].span) ==>
                  a in done.skipped && !s.appointments[a].Cancellable() && consent == Consent(true, true))
  {
    var ids := ListAffected(s.appointments, staffIds, ranges);
    AffectedByStart(s.appointments, staffIds, ranges);
    ResolveExactly(s, ids, reason, a);
    AffectedExactly(s.appointments, staffIds, ranges, a);
    ListedExactly(s.appointments[a], staffIds, ranges);
    ResolveKeepsBlocks(s, ids, reason);
    ResolveLogs(s, ids, reason, Logged(a, s.appointments[a], reason));
  }

  /** An appointment under the planned range and not under the previous one is under some
      added range: planned is contained in previous plus added. */
  lemma NewlyCoveredIsAdded(previous: Range, wasActive: bool, planned: Range, willBeActive: bool, r: Range)
    requires previous.Valid() && planned.Valid() && r.Valid()
    requires willBeActive && planned.Overlaps(r) && !(wasActive && previous.Overlaps(r))
    ensures OverlapsSome(AddedRanges(previous, wasActive, planned, willBeActive), r)
  {
    var added := AddedRanges(previous, wasActive, planned, willBeActive);
    var t := Max(planned.from, r.from);
    AddedIsDifference(previous, wasActive, planned, willBeActive);
    assert Covered(added, t);
    var i :| 0 <= i < |added| && added[i].Contains(t);
    assert added[i].Overlaps(r);
  }

  lemma {:induction false} NewBlockMembership(members: seq<string>, ranges: seq<Range>, reason: string, b: nat)
    requires b < |NewBlocks(members, ranges, reason)|
    ensures var block := NewBlocks(members, ranges, reason)[b];
            block.staff in members && block.span in ranges && block.active
  {
    var rest := NewBlocks(members[..|members| - 1], ranges, reason);
    if b < |rest| {
      NewBlockMembership(members[..|members| - 1], ranges, reason, b);
    }
  }

  lemma CreateClassifies(s: Store, active: seq<string>, step: Step, a: nat, b: nat)
    requires WellFormed(s) && step.CreateStep?
    requires Covers(Next(s, active, step), a, b) && !Covers(s, a, b)
    ensures Classified(s, active, step, a)
  {
    var members := StaffFor(active, step.staffId).value;
    GuardClassifies(s, members, step.ranges, step.reason, step.consent, a);
    var added := NewBlocks(members, step.ranges, step.reason);
    NewBlockMembership(members, step.ranges, step.reason, b - |s.blocks|);
    var block := added[b - |s.blocks|];
    var i :| 0 <= i < |step.ranges| && step.ranges[i] == block.span;
    assert step.ranges[i].Overlaps(s.appointments[a].span);
  }

  lemma UpdateClassifies(s: Store, now: int, id: nat, changes: Changes, consent: Consent, a: nat, b: nat)
    requires WellFormed(s) && Update(s, now, id, changes, consent).Success?
    requires Covers(Update(s, now, id, changes, consent).value.0, a, b) && !Covers(s, a, b)
    ensures a < |s.appointments| && !s.appointments[a].Cancellable()
    ensures a in Update(s, now, id, changes, consent).value.1.skipped && consent == Consent(true, true)
  {
    var block := s.blocks[id];
    var planned := PlannedRange(now, block, changes).value;
    var next := Edited(block, planned, changes);
    var added := AddedRanges(block.span, block.active, planned, next.active);
    GuardClassifies(s, [block.staff], added, next.reason, consent, a);
    NewlyCoveredIsAdded(block.span, block.active, planned, next.active, s.appointments[a].span);
  }

  /** The only way to fall under a block is a confirmed operation that could not cancel. */
  lemma NewlyCoveredIsClassified(s: Store, active: seq<string>, step: Step, a: nat, b: nat)
    requires WellFormed(s) && Covers(Next(s, active, step), a, b) && !Covers(s, a, b)
    ensures Classified(s, active, step, a)
  {
    match step
    case CreateStep(_, _, _, _) => CreateClassifies(s, active, step, a, b);
    case UpdateStep(now, id, changes, consent) => UpdateClassifies(s, now, id, changes, consent, a, b);
    case DeleteStep(now, id) => UpdateClassifies(s, now, id, DEACTIVATE, NO_CONSENT, a, b);
    case _ => OnlyOperationsCover(s, active, step, a, b);
  }

  /** Bookings, transitions and payments put nothing new under a block. */
  lemma OnlyOperationsCover(s: Store, active: seq<string>, step: Step, a: nat, b: nat)
    requires step.BookStep? || step.StatusStep? || step.PaymentStep?
    requires Covers(Next(s, active, step), a, b)
    ensures Covers(s, a, b)
  {
  }

  lemma GuardKeepsWellFormed(s: Store, staffIds: seq<string>, ranges: seq<Range>, reason: string, consent: Consent)
    requires WellFormed(s) && Guard(s, staffIds, ranges, reason, consent).Success?
    ensures WellFormed(Guard(s, staffIds, ranges, reason, consent).value.0)
  {
    var t := Guard(s, staffIds, ranges, reason, consent).value.0;
    forall i: nat | i < |t.appointments| ensures t.appointments[i].WellFormed() {
      GuardClassifies(s, staffIds, ranges, reason, consent, i);
    }
    ResolveKeepsBlocks(s, ListAffected(s.appointments, staffIds, ranges), reason);
  }

  lemma NextKeepsWellFormed(s: Store, active: seq<string>, step: Step)
    requires WellFormed(s)
    ensures WellFormed(Next(s, active, step))
  {
    var r := Operation(s, active, step);
    if r.Some? && r.value.Success? {
      match step
      case CreateStep(staffId, ranges, reason, consent) =>
        var members := StaffFor(active, staffId).value;
        GuardKeepsWellFormed(s, members, ranges, reason, consent);
        forall b: nat | b < |NewBlocks(members, ranges, reason)|
          ensures NewBlocks(members, ranges, reason)[b].span.Valid()
        {
          NewBlockMembership(members, ranges, reason, b);
        }
      case UpdateStep(now, id, changes, consent) => UpdateKeepsWellFormed(s, now, id, changes, consent);
      case DeleteStep(now, id) => UpdateKeepsWellFormed(s, now, id, DEACTIVATE, NO_CONSENT);
    }
  }

  lemma UpdateKeepsWellFormed(s: Store, now: int, id: nat, changes: Changes, consent: Consent)
    requires WellFormed(s) && Update(s, now, id, changes, consent).Success?
    ensures WellFormed(Update(s, now, id, changes, consent).value.0)
  {
    var block := s.blocks[id];
    var planned := PlannedRange(now, block, changes).value;
    var next := Edited(block, planned, changes);
    GuardKeepsWellFormed(s, [block.staff], AddedRanges(block.span, block.active, planned, next.active), next.reason,
                         consent);
  }

  // ---------------------------------------------------------------- main result

  /** Appointment a fell under block b at step j, which found it not cancellable, and stayed under b. */
  ghost predicate CoveredSince(s: Store, active: seq<string>, steps: seq<Step>, a: nat, b: nat, j: nat, n: nat)
    requires j < n <= |steps|
  {
    && !Covers(After(s, active, steps, j), a, b)
    && Classified(After(s, active, steps, j), active, steps[j], a)
    && forall m | j < m <= n :: CoveredAt(s, active, steps, a, b, m)
  }

  predicate CoveredAt(s: Store, active: seq<string>, steps: seq<Step>, a: nat, b: nat, m: nat)
    requires m <= |steps|
  {
    Covers(After(s, active, steps, m), a, b)
  }

  lemma {:induction false} AlwaysWellFormed(s: Store, active: seq<string>, steps: seq<Step>, n: nat)
    requires n <= |steps| && WellFormed(s)
    ensures WellFormed(After(s, active, steps, n))
  {
    if n > 0 {
      AlwaysWellFormed(s, active, steps, n - 1);
      NextKeepsWellFormed(After(s, active, steps, n - 1), active, steps[n - 1]);
    }
  }

  lemma CoveredLonger(s: Store, active: seq<string>, steps: seq<Step>, a: nat, b: nat, j: nat, n: nat)
    requires j < n - 1 < |steps| && CoveredSince(s, active, steps, a, b, j, n - 1)
    requires CoveredAt(s, active, steps, a, b, n)
    ensures CoveredSince(s, active, steps, a, b, j, n)
  {
  }

  lemma CoveredNow(s: Store, active: seq<string>, steps: seq<Step>, a: nat, b: nat, n: nat)
    requires 0 < n <= |steps| && WellFormed(After(s, active, steps, n - 1))
    requires !Covers(After(s, active, steps, n - 1), a, b) && Covers(After(s, active, steps, n), a, b)
    ensures CoveredSince(s, active, steps, a, b, n - 1, n)
  {
    NewlyCoveredIsClassified(After(s, active, steps, n - 1), active, steps[n - 1], a, b);
  }

  /** No orphans: after any run of block operations, bookings, status changes and payments
      that starts with nothing covered, every active appointment under an active block was
      found not cancellable, when the block first came to cover it, by an operation that a
      manager had confirmed. */
  lemma {:induction false} NoOrphans(s: Store, active: seq<string>, steps: seq<Step>, n: nat, a: nat, b: nat)
    requires n <= |steps| && WellFormed(s) && !Covers(s, a, b) && Covers(After(s, active, steps, n), a, b)
    ensures exists j: nat :: j < n && CoveredSince(s, active, steps, a, b, j, n)
  {
    if n > 0 {
      if Covers(After(s, active, steps, n - 1), a, b) {
        NoOrphans(s, active, steps, n - 1, a, b);
        var j: nat :| j < n - 1 && CoveredSince(s, active, steps, a, b, j, n - 1);
        CoveredLonger(s, active, steps, a, b, j, n);
      } else {
        AlwaysWellFormed(s, active, steps, n - 1);
        CoveredNow(s, active, steps, a, b, n);
      }
    }
  }

  /** Who gets to know: of the operations that come to cover an appointment, a creation logs
      it and an edit does not. */
  lemma ReportedExactly(s: Store, active: seq<string>, step: Step, a: nat, b: nat)
    requires WellFormed(s) && Covers(Next(s, active, step), a, b) && !Covers(s, a, b)
    ensures Reported(s, active, step, a) <==> step.CreateStep?
  {
    NewlyCoveredIsClassified(s, active, step, a, b);
    match step
    case CreateStep(staffId, ranges, reason, consent) => CreationReports(s, active, step, a);
    case UpdateStep(now, id, changes, consent) => UpdateLogsCancellations(s, now, id, changes, consent);
    case DeleteStep(now, id) => UpdateLogsCancellations(s, now, id, DEACTIVATE, NO_CONSENT);
    case _ =>
  }

  lemma CreationReports(s: Store, active: seq<string>, step: Step, a: nat)
    requires WellFormed(s) && step.CreateStep? && Classified(s, active, step, a)
    ensures Reported(s, active, step, a)
  {
    var members := StaffFor(active, step.staffId).value;
    GuardClassifies(s, members, step.ranges, step.reason, step.consent, a);
    var audit := Next(s, active, step).audit;
    assert audit[|audit| - 1].BlockCreated? && a in audit[|audit| - 1].skipped;
  }

  lemma UpdateLogsCancellations(s: Store, now: int, id: nat, changes: Changes, consent: Consent)
    requires Update(s, now, id, changes, consent).Success?
    ensures LogsCancellations(s.audit, Update(s, now, id, changes, consent).value.0.audit)
  {
    var block := s.blocks[id];
    var planned := PlannedRange(now, block, changes).value;
    var next := Edited(block, planned, changes);
    var added := AddedRanges(block.span, block.active, planned, next.active);
    var ids := ListAffected(s.appointments, [block.staff], added);
    AffectedByStart(s.appointments, [block.staff], added);
    ResolveLogs(s, ids, next.reason, BlockCreated("", 0, 0, [], []));
  }

  /** An edit that a manager confirms, and that stretches a block over an appointment that may
      not be cancelled, always goes through: the appointment stays, covered, and nothing says
      so. */
  lemma ConfirmedEditCoversSilently(s: Store, active: seq<string>, now: int, id: nat, changes: Changes, a: nat)
    requires WellFormed(s) && id < |s.blocks| && a < |s.appointments|
    requires PlannedRange(now, s.blocks[id], changes).Success?
    requires var next := Edited(s.blocks[id], PlannedRange(now, s.blocks[id], changes).value, changes);
             var booking := s.appointments[a];
             && next.active && next.staff == booking.staff && next.span.Overlaps(booking.span)
             && IsActive(booking.status) && !booking.Cancellable()
    requires !Covers(s, a, id)
    ensures var step := UpdateStep(now, id, changes, Consent(true, true));
            Covers(Next(s, active, step), a, id) && !Reported(s, active, step, a)
  {
    var consent := Consent(true, true);
    var block := s.blocks[id];
    var planned := PlannedRange(now, block, changes).value;
    var next := Edited(block, planned, changes);
    var ids := ListAffected(s.appointments, [block.staff], AddedRanges(block.span, block.active, planned, next.active));
    AffectedByStart(s.appointments, [block.staff], AddedRanges(block.span, block.active, planned, next.active));
    ResolveExactly(s, ids, next.reason, a);
    UpdateLogsCancellations(s, now, id, changes, consent);
  }

  /** One such edit, on any day: a block from nine to ten stretched to one o'clock, over a turn
      at eleven with its deposit paid. */
  lemma AnEditCoversSilently(day: int) returns (s: Store, step: Step)
    ensures WellFormed(s) && !Covers(s, 0, 0) && step.UpdateStep? && |s.blocks| == 1
    ensures s.blocks[0].span.from == DayStart(day) + 9 * HOUR
    ensures Covers(Next(s, [], step), 0, 0) && !Reported(s, [], step, 0)
  {
    var nine := DayStart(day) + 9 * HOUR;
    var booking := Appointment("ana", Range(nine + 2 * HOUR, nine + 3 * HOUR), Confirmed, true, false, true);
    s := Store([booking], [Block("ana", Range(nine, nine + HOUR), "feriado", true)], [], []);
    var changes := Changes(None, Some(nine + 4 * HOUR), None, None);
    step := UpdateStep(nine, 0, changes, Consent(true, true));
    assert PlannedRange(nine, s.blocks[0], changes) == Success(Range(nine, nine + 4 * HOUR));
    ConfirmedEditCoversSilently(s, [], nine, 0, changes, 0);
  }
}
