/** Agenda blocks: creating, editing and deleting them without ever silently covering a
    booked appointment. Each operation is one atomic transaction. */
module AgendaBlocks {
  import opened Clock

  const MAX_BLOCK_DURATION: int := 366 * DAY
  const BLOCK_WINDOW: int := 730 * DAY
  const MAX_APPOINTMENT_SPAN: int := DAY

  // ---------------------------------------------------------------- interval difference

  /** Ranges the block begins to cover with the change. */
  function AddedRanges(previous: Range, wasActive: bool, planned: Range, willBeActive: bool): seq<Range> {
    if !willBeActive then []
    else if !wasActive then [planned]
    else
      (if planned.from < previous.from then [Range(planned.from, Min(planned.until, previous.from))] else []) +
      (if previous.until < planned.until then [Range(Max(planned.from, previous.until), planned.until)] else [])
  }

  /** Ranges the block stops covering: the ones published to the waitlist. */
  function FreedRanges(previous: Range, wasActive: bool, current: Range, isActive: bool): seq<Range> {
    if !wasActive then []
    else if !isActive then [previous]
    else
      (if previous.from < current.from then [Range(previous.from, Min(previous.until, current.from))] else []) +
      (if current.until < previous.until then [Range(Max(previous.from, current.until), previous.until)] else [])
  }

  predicate Covered(ranges: seq<Range>, t: int) {
    exists i :: 0 <= i < |ranges| && ranges[i].Contains(t)
  }

  /** Non-empty pieces, in order, that do not meet. */
  predicate DisjointPieces(ranges: seq<Range>) {
    && (forall i | 0 <= i < |ranges| :: ranges[i].Valid())
    && (forall i, j | 0 <= i < j < |ranges| :: ranges[i].until <= ranges[j].from)
  }

  function TotalLength(ranges: seq<Range>): int {
    if ranges == [] then 0 else ranges[0].until - ranges[0].from + TotalLength(ranges[1..])
  }

  function ActiveLength(r: Range, active: bool): int {
    if active then r.until - r.from else 0
  }

  /** The added ranges are exactly planned minus previous, in disjoint non-empty pieces. */
  lemma AddedIsDifference(previous: Range, wasActive: bool, planned: Range, willBeActive: bool)
    requires previous.Valid() && planned.Valid()
    ensures var added := AddedRanges(previous, wasActive, planned, willBeActive);
            && DisjointPieces(added)
            && forall t :: Covered(added, t) <==>
                 willBeActive && planned.Contains(t) && !(wasActive && previous.Contains(t))
  {
    var added := AddedRanges(previous, wasActive, planned, willBeActive);
    forall t | willBeActive && planned.Contains(t) && !(wasActive && previous.Contains(t))
      ensures Covered(added, t)
    {
      var last := |added| - 1;
      assert added[0].Contains(t) || added[last].Contains(t);
    }
  }

  /** Freed is added with the roles of before and after exchanged. */
  lemma FreedMirrorsAdded(previous: Range, wasActive: bool, current: Range, isActive: bool)
    ensures FreedRanges(previous, wasActive, current, isActive) == AddedRanges(current, isActive, previous, wasActive)
  {
  }

  lemma FreedIsDifference(previous: Range, wasActive: bool, current: Range, isActive: bool)
    requires previous.Valid() && current.Valid()
    ensures var freed := FreedRanges(previous, wasActive, current, isActive);
            && DisjointPieces(freed)
            && forall t :: Covered(freed, t) <==>
                 wasActive && previous.Contains(t) && !(isActive && current.Contains(t))
  {
    FreedMirrorsAdded(previous, wasActive, current, isActive);
    AddedIsDifference(current, isActive, previous, wasActive);
  }

  /** What an edit adds minus what it frees is the growth of the covered time. */
  lemma LengthIsConserved(previous: Range, wasActive: bool, current: Range, isActive: bool)
    requires previous.Valid() && current.Valid()
    ensures TotalLength(AddedRanges(previous, wasActive, current, isActive))
            - TotalLength(FreedRanges(previous, wasActive, current, isActive))
            == ActiveLength(current, isActive) - ActiveLength(previous, wasActive)
  {
    var added := AddedRanges(previous, wasActive, current, isActive);
    var freed := FreedRanges(previous, wasActive, current, isActive);
    assert |added| <= 2 && |freed| <= 2;
    LengthOfTwo(added);
    LengthOfTwo(freed);
  }

  lemma LengthOfTwo(ranges: seq<Range>)
    requires |ranges| <= 2
    ensures TotalLength(ranges) == (if |ranges| > 0 then ranges[0].until - ranges[0].from else 0)
                                 + (if |ranges| > 1 then ranges[1].until - ranges[1].from else 0)
  {
    if |ranges| == 2 {
      assert ranges[1..] == [ranges[1]];
    }
  }

  // ---------------------------------------------------------------- recurrence

  datatype Recurrence = NoRecurrence | Daily | Weekly

  function Period(recurrence: Recurrence): int {
    if recurrence.Weekly? then 7 * DAY else DAY
  }

  function Shift(r: Range, offset: int): Range {
    Range(r.from + offset, r.until + offset)
  }

  /** How many occurrences a recurrent block has: up to `maxOccurrences`, the first always,
      and no other that starts after `until`. */
  function Occurrences(from: int, recurrence: Recurrence, until: Option<int>, maxOccurrences: int): int {
    if recurrence.NoRecurrence? || maxOccurrences <= 1 then 1
    else if until.None? then maxOccurrences
    else Min(maxOccurrences, 1 + Max(0, (until.value - from) / Period(recurrence)))
  }

  /** A whole number of periods fits up to an instant exactly when it is at most the quotient. */
  lemma PeriodsThatFit(n: int, from: int, until: int, period: int)
    requires period > 0
    ensures from + n * period <= until <==> n <= (until - from) / period
  {
    var q := (until - from) / period;
    assert q * period <= until - from < q * period + period;
    if n <= q {
      assert n * period <= q * period;
    } else {
      assert (q + 1) * period <= n * period;
      assert (q + 1) * period == q * period + period;
    }
  }

  /** The ranges of a simple or recurrent block: the base range moved by whole periods. */
  method ExpandRanges(base: Range, recurrence: Recurrence, until: Option<int>, maxOccurrences: int)
    returns (ranges: seq<Range>)
    ensures |ranges| == Occurrences(base.from, recurrence, until, maxOccurrences)
    ensures forall k | 0 <= k < |ranges| :: ranges[k] == Shift(base, k * Period(recurrence))
  {
    ranges := [base];
    if recurrence.NoRecurrence? {
      return;
    }
    var step := if recurrence.Daily? then DAY else 7 * DAY;
    var current := base;
    while |ranges| < maxOccurrences
      invariant 1 <= |ranges| <= Max(1, maxOccurrences)
      invariant current == Shift(base, (|ranges| - 1) * step)
      invariant forall k | 0 <= k < |ranges| :: ranges[k] == Shift(base, k * step)
      invariant until.Some? ==> |ranges| <= 1 + Max(0, (until.value - base.from) / step)
    {
      NextPeriod(base, |ranges|, step);
      current := Shift(current, step);
      if until.Some? {
        PeriodsThatFit(|ranges|, base.from, until.value, step);
      }
      if until.Some? && current.from > until.value {
        break;
      }
      ranges := ranges + [current];
    }
  }

  lemma NextPeriod(base: Range, n: nat, step: int)
    ensures Shift(Shift(base, (n - 1) * step), step) == Shift(base, n * step)
  {
    assert (n - 1) * step + step == n * step;
  }

  // ---------------------------------------------------------------- state

  datatype Status = Pending | PendingPayment | Confirmed | Completed | Absent | Cancelled | Expired

  /** `ACTIVE_APPOINTMENT_STATUSES`: the ones that occupy the agenda. */
  predicate IsActive(s: Status) {
    s.Pending? || s.PendingPayment? || s.Confirmed?
  }

  /** `ALLOWED_STATUS_TRANSITIONS`. */
  predicate MayBecome(s: Status, t: Status) {
    match s
    case Pending => t.Confirmed? || t.Cancelled? || t.PendingPayment? || t.Expired?
    case PendingPayment => t.Confirmed? || t.Cancelled? || t.Expired?
    case Confirmed => t.Completed? || t.Cancelled? || t.Absent?
    case _ => false
  }

  datatype Appointment = Appointment(
    staff: string,
    span: Range,
    status: Status,
    accredited: bool,   // its payment came in
    liveCharge: bool,   // its payment link can still be paid
    hasEmail: bool)
  {
    predicate Cancellable() {
      !status.PendingPayment? && !accredited
    }

    predicate WellFormed() {
      span.from < span.until <= span.from + MAX_APPOINTMENT_SPAN
    }
  }

  datatype Block = Block(staff: string, span: Range, reason: string, active: bool)

  datatype Event = CancelledByBlock(appointment: nat, reason: string) | SlotReleased(staff: string, span: Range)

  /** What is logged: a creation with how much it blocked, whom it cancelled and whom it left;
      and each appointment cancelled by a block, with its status until then. */
  datatype AuditEntry =
    | BlockCreated(reason: string, ranges: nat, staff: nat, cancelled: seq<nat>, skipped: seq<nat>)
    | CancelledAppointment(appointment: nat, previous: Status, blockReason: string, chargeExpired: bool)

  /** Rows are identified by their position; none is ever deleted. */
  datatype Store = Store(
    appointments: seq<Appointment>,
    blocks: seq<Block>,
    outbox: seq<Event>,
    audit: seq<AuditEntry>)

  /** Who asks, and whether they confirmed cancelling the affected appointments. */
  datatype Consent = Consent(cancelAffected: bool, isManager: bool)

  datatype Changes = Changes(
    startsAt: Option<int>,
    endsAt: Option<int>,
    reason: Option<string>,
    isActive: Option<bool>)

  datatype Error =
    | StaffNotFound
    | NoStaff
    | BlockNotFound
    | OutsideBlockWindow
    | StartNotBeforeEnd
    | BlockTooLong
    | BlockHasAppointments(affected: nat)
    | PermissionDenied

  datatype Result<T> = Success(value: T) | Failure(error: Error)

  /** What the guard decided: the appointments cancelled and the ones left to a person. */
  datatype Resolution = Resolution(cancelled: seq<nat>, skipped: seq<nat>)

  // ---------------------------------------------------------------- affected appointments

  function Envelope(ranges: seq<Range>): Range
    requires ranges != []
  {
    if |ranges| == 1 then ranges[0]
    else
      var rest := Envelope(ranges[1..]);
      Range(Min(ranges[0].from, rest.from), Max(ranges[0].until, rest.until))
  }

  predicate OverlapsSome(ranges: seq<Range>, r: Range) {
    exists i :: 0 <= i < |ranges| && ranges[i].Overlaps(r)
  }

  /** The filter of `list_active_overlapping`: the envelope of the ranges with both bounds of
      `appointment_overlap`, then some range. */
  predicate Listed(a: Appointment, staffIds: seq<string>, ranges: seq<Range>) {
    && ranges != []
    && a.span.from < Envelope(ranges).until && a.span.until > Envelope(ranges).from
    && a.span.from > Envelope(ranges).from - MAX_APPOINTMENT_SPAN
    && a.staff in staffIds && IsActive(a.status) && OverlapsSome(ranges, a.span)
  }

  predicate InRange(rows: seq<Appointment>, ids: seq<nat>) {
    forall i | 0 <= i < |ids| :: ids[i] < |rows|
  }

  /** Each id once, in the order of the starts. */
  predicate ByStart(rows: seq<Appointment>, ids: seq<nat>)
    requires InRange(rows, ids)
  {
    forall i, j | 0 <= i < j < |ids| :: ids[i] != ids[j] && rows[ids[i]].span.from <= rows[ids[j]].span.from
  }

  /** ORDER BY starts_at; a row comes after those that start with it. */
  function InsertByStart(rows: seq<Appointment>, ids: seq<nat>, id: nat): (r: seq<nat>)
    requires InRange(rows, ids) && id < |rows|
    ensures InRange(rows, r)
  {
    if ids == [] || rows[id].span.from < rows[ids[0]].span.from then [id] + ids
    else [ids[0]] + InsertByStart(rows, ids[1..], id)
  }

  /** `list_active_overlapping`. */
  function ListAffected(rows: seq<Appointment>, staffIds: seq<string>, ranges: seq<Range>): (ids: seq<nat>)
    ensures InRange(rows, ids)
  {
    if rows == [] then []
    else
      var last := |rows| - 1;
      var before := ListAffected(rows[..last], staffIds, ranges);
      if Listed(rows[last], staffIds, ranges) then InsertByStart(rows, before, last) else before
  }

  lemma {:induction false} InsertMembers(rows: seq<Appointment>, ids: seq<nat>, id: nat, k: nat)
    requires InRange(rows, ids) && id < |rows|
    ensures k in InsertByStart(rows, ids, id) <==> k in ids || k == id
  {
    if !(ids == [] || rows[id].span.from < rows[ids[0]].span.from) {
      InsertMembers(rows, ids[1..], id, k);
      assert ids == [ids[0]] + ids[1..];
    }
  }

  /** What is inserted behind the first id stays behind it. */
  lemma BehindTheFirst(rows: seq<Appointment>, ids: seq<nat>, id: nat, k: nat)
    requires InRange(rows, ids) && id < |rows| && ByStart(rows, ids) && id !in ids && ids != []
    requires rows[ids[0]].span.from <= rows[id].span.from && k in InsertByStart(rows, ids[1..], id)
    ensures k < |rows| && k != ids[0] && rows[ids[0]].span.from <= rows[k].span.from
  {
    InsertMembers(rows, ids[1..], id, k);
    if k != id {
      var i :| 0 <= i < |ids| - 1 && ids[1..][i] == k;
      assert ids[i + 1] == k;
    }
  }

  lemma {:induction false} InsertKeepsOrder(rows: seq<Appointment>, ids: seq<nat>, id: nat)
    requires InRange(rows, ids) && id < |rows| && ByStart(rows, ids) && id !in ids
    ensures ByStart(rows, InsertByStart(rows, ids, id))
  {
    if !(ids == [] || rows[id].span.from < rows[ids[0]].span.from) {
      InsertKeepsOrder(rows, ids[1..], id);
      var rest := InsertByStart(rows, ids[1..], id);
      forall j | 0 <= j < |rest|
        ensures rest[j] != ids[0] && rows[ids[0]].span.from <= rows[rest[j]].span.from
      {
        BehindTheFirst(rows, ids, id, rest[j]);
      }
    }
  }

  lemma {:induction false} AffectedByStart(rows: seq<Appointment>, staffIds: seq<string>, ranges: seq<Range>)
    ensures ByStart(rows, ListAffected(rows, staffIds, ranges))
  {
    if rows != [] {
      var last := |rows| - 1;
      AffectedByStart(rows[..last], staffIds, ranges);
      if Listed(rows[last], staffIds, ranges) {
        InsertKeepsOrder(rows, ListAffected(rows[..last], staffIds, ranges), last);
      }
    }
  }

  lemma {:induction false} EnvelopeContains(ranges: seq<Range>, i: nat)
    requires i < |ranges|
    ensures Envelope(ranges).from <= ranges[i].from && ranges[i].until <= Envelope(ranges).until
  {
    if |ranges| > 1 && i > 0 {
      EnvelopeContains(ranges[1..], i - 1);
    }
  }

  /** The envelope and the one-day bound lose no row: listed is overlapping some range. */
  lemma ListedExactly(a: Appointment, staffIds: seq<string>, ranges: seq<Range>)
    requires a.WellFormed()
    ensures Listed(a, staffIds, ranges) <==>
            a.staff in staffIds && IsActive(a.status) && OverlapsSome(ranges, a.span)
  {
    if OverlapsSome(ranges, a.span) {
      var i: nat :| i < |ranges| && ranges[i].Overlaps(a.span);
      EnvelopeContains(ranges, i);
    }
  }

  lemma {:induction false} AffectedExactly(rows: seq<Appointment>, staffIds: seq<string>, ranges: seq<Range>, id: nat)
    ensures id in ListAffected(rows, staffIds, ranges) <==> id < |rows| && Listed(rows[id], staffIds, ranges)
  {
    if rows != [] {
      var last := |rows| - 1;
      AffectedExactly(rows[..last], staffIds, ranges, id);
      if Listed(rows[last], staffIds, ranges) {
        InsertMembers(rows, ListAffected(rows[..last], staffIds, ranges), last, id);
      }
    }
  }

  // ---------------------------------------------------------------- cancelling under the lock

  function CancelRow(a: Appointment): Appointment {
    a.(status := Cancelled, liveCharge := false)
  }

  function Logged(id: nat, a: Appointment, reason: string): AuditEntry {
    CancelledAppointment(id, a.status, reason, a.liveCharge)
  }

  /** The guard's loop over the affected appointments: each cancellable one is cancelled and
      logged, its live charge expired and its client told through the outbox; the others are
      skipped. */
  function Resolve(s: Store, ids: seq<nat>, reason: string): (Store, Resolution)
    requires forall i | 0 <= i < |ids| :: ids[i] < |s.appointments|
    ensures |Resolve(s, ids, reason).0.appointments| == |s.appointments|
  {
    if ids == [] then (s, Resolution([], []))
    else
      var last := |ids| - 1;
      var (t, done) := Resolve(s, ids[..last], reason);
      var a := t.appointments[ids[last]];
      if a.Cancellable() then
        (t.(appointments := t.appointments[ids[last] := CancelRow(a)],
            audit := t.audit + [Logged(ids[last], a, reason)],
            outbox := t.outbox + if a.hasEmail then [CancelledByBlock(ids[last], reason)] else []),
         done.(cancelled := done.cancelled + [ids[last]]))
      else (t, done.(skipped := done.skipped + [ids[last]]))
  }

  function Guard(s: Store, staffIds: seq<string>, ranges: seq<Range>, reason: string, consent: Consent)
    : Result<(Store, Resolution)>
  {
    var ids := ListAffected(s.appointments, staffIds, ranges);
    if ids != [] && !consent.cancelAffected then Failure(BlockHasAppointments(|ids|))
    else if ids != [] && !consent.isManager then Failure(PermissionDenied)
    else Success(Resolve(s, ids, reason))
  }

  /** What resolving leaves behind: cancellable affected rows cancelled, everything else as
      it was, and the resolution tells the two kinds apart. */
  lemma {:induction false} ResolveExactly(s: Store, ids: seq<nat>, reason: string, id: nat)
    requires forall i | 0 <= i < |ids| :: ids[i] < |s.appointments|
    requires forall i, j | 0 <= i < j < |ids| :: ids[i] != ids[j]
    requires id < |s.appointments|
    ensures var (t, done) := Resolve(s, ids, reason);
            var a := s.appointments[id];
            && t.blocks == s.blocks
            && t.appointments[id] == (if id in ids && a.Cancellable() then CancelRow(a) else a)
            && (id in done.cancelled <==> id in ids && a.Cancellable())
            && (id in done.skipped <==> id in ids && !a.Cancellable())
  {
    if ids != [] {
      var last := |ids| - 1;
      ResolveExactly(s, ids[..last], reason, id);
      ResolveExactly(s, ids[..last], reason, ids[last]);
      assert ids[last] !in ids[..last];
      assert forall i :: i in ids <==> i in ids[..last] || i == ids[last];
    }
  }

  lemma {:induction false} ResolveKeepsBlocks(s: Store, ids: seq<nat>, reason: string)
    requires forall i | 0 <= i < |ids| :: ids[i] < |s.appointments|
    ensures Resolve(s, ids, reason).0.blocks == s.blocks
  {
    if ids != [] {
      ResolveKeepsBlocks(s, ids[..|ids| - 1], reason);
    }
  }

  /** What resolving adds to the outbox. */
  function Notices(s: Store, ids: seq<nat>, reason: string): seq<Event>
    requires InRange(s.appointments, ids)
  {
    if ids == [] then []
    else
      var last := ids[|ids| - 1];
      var a := s.appointments[last];
      Notices(s, ids[..|ids| - 1], reason)
      + (if a.Cancellable() && a.hasEmail then [CancelledByBlock(last, reason)] else [])
  }

  lemma {:induction false} ResolveAddsNotices(s: Store, ids: seq<nat>, reason: string)
    requires InRange(s.appointments, ids)
    requires forall i, j | 0 <= i < j < |ids| :: ids[i] != ids[j]
    ensures Resolve(s, ids, reason).0.outbox == s.outbox + Notices(s, ids, reason)
  {
    if ids != [] {
      ResolveAddsNotices(s, ids[..|ids| - 1], reason);
      ResolveExactly(s, ids[..|ids| - 1], reason, ids[|ids| - 1]);
    }
  }

  lemma {:induction false} NoticesAre(s: Store, ids: seq<nat>, reason: string, e: Event)
    requires InRange(s.appointments, ids)
    ensures e in Notices(s, ids, reason) <==>
              && e.CancelledByBlock? && e.reason == reason && e.appointment in ids
              && s.appointments[e.appointment].Cancellable() && s.appointments[e.appointment].hasEmail
  {
    if ids != [] {
      NoticesAre(s, ids[..|ids| - 1], reason, e);
      assert forall i :: i in ids <==> i in ids[..|ids| - 1] || i == ids[|ids| - 1];
    }
  }

  /** Exactly the cancelled clients with an address are told, through the outbox. */
  lemma ResolveNotifies(s: Store, ids: seq<nat>, reason: string, e: Event)
    requires InRange(s.appointments, ids)
    requires forall i, j | 0 <= i < j < |ids| :: ids[i] != ids[j]
    ensures var (t, done) := Resolve(s, ids, reason);
            && s.outbox <= t.outbox
            && (e in t.outbox[|s.outbox|..] <==>
                  && e.CancelledByBlock? && e.reason == reason
                  && e.appointment in done.cancelled
                  && e.appointment < |s.appointments| && s.appointments[e.appointment].hasEmail)
  {
    ResolveAddsNotices(s, ids, reason);
    NoticesAre(s, ids, reason, e);
    assert Resolve(s, ids, reason).0.outbox[|s.outbox|..] == Notices(s, ids, reason);
    if e.CancelledByBlock? && e.appointment < |s.appointments| {
      ResolveExactly(s, ids, reason, e.appointment);
    }
  }

  /** The log only grows, by entries of cancelled appointments. */
  predicate LogsCancellations(before: seq<AuditEntry>, after: seq<AuditEntry>) {
    before <= after && forall i | |before| <= i < |after| :: after[i].CancelledAppointment?
  }

  /** Exactly the cancelled appointments are logged, each as it was. */
  lemma {:induction false} ResolveLogs(s: Store, ids: seq<nat>, reason: string, e: AuditEntry)
    requires InRange(s.appointments, ids)
    requires forall i, j | 0 <= i < j < |ids| :: ids[i] != ids[j]
    ensures var (t, done) := Resolve(s, ids, reason);
            && LogsCancellations(s.audit, t.audit)
            && (e in t.audit[|s.audit|..] <==>
                  exists id :: id in done.cancelled && id < |s.appointments|
                      && e == Logged(id, s.appointments[id], reason))
  {
    if ids != [] {
      var last := ids[|ids| - 1];
      var before := ids[..|ids| - 1];
      ResolveLogs(s, before, reason, e);
      ResolveExactly(s, before, reason, last);
      var t := Resolve(s, before, reason).0;
      if s.appointments[last].Cancellable() {
        var entry := Logged(last, s.appointments[last], reason);
        assert (t.audit + [entry])[|s.audit|..] == t.audit[|s.audit|..] + [entry];
      }
    }
  }

  // ---------------------------------------------------------------- operations

  /** `_staff_for`: one active professional, or all of them. */
  function StaffFor(active: seq<string>, staffId: Option<string>): Result<seq<string>> {
    match staffId
    case Some(id) => if id in active then Success([id]) else Failure(StaffNotFound)
    case None => if active == [] then Failure(NoStaff) else Success(active)
  }

  function BlocksOfMember(member: string, ranges: seq<Range>, reason: string): seq<Block> {
    seq(|ranges|, i requires 0 <= i < |ranges| => Block(member, ranges[i], reason, true))
  }

  /** One block per member and range, member by member. */
  function NewBlocks(members: seq<string>, ranges: seq<Range>, reason: string): seq<Block> {
    if members == [] then []
    else NewBlocks(members[..|members| - 1], ranges, reason) + BlocksOfMember(members[|members| - 1], ranges, reason)
  }

  function Create(s: Store, active: seq<string>, staffId: Option<string>, ranges: seq<Range>, reason: string,
                  consent: Consent): Result<(Store, Resolution)>
  {
    match StaffFor(active, staffId)
    case Failure(e) => Failure(e)
    case Success(members) =>
      match Guard(s, members, ranges, reason, consent)
      case Failure(e) => Failure(e)
      case Success((t, done)) =>
        var entry := BlockCreated(reason, |ranges|, |members|, done.cancelled, done.skipped);
        Success((t.(blocks := t.blocks + NewBlocks(members, ranges, reason), audit := t.audit + [entry]), done))
  }

  predicate InBlockWindow(now: int, t: int) {
    now - BLOCK_WINDOW <= t <= now + BLOCK_WINDOW + MAX_BLOCK_DURATION
  }

  /** The range the edit would leave; only ends whose value changes must fall in the window. */
  function PlannedRange(now: int, block: Block, changes: Changes): Result<Range> {
    var planned := Range(changes.startsAt.GetOr(block.span.from), changes.endsAt.GetOr(block.span.until));
    if planned.from != block.span.from && !InBlockWindow(now, planned.from) then Failure(OutsideBlockWindow)
    else if planned.until != block.span.until && !InBlockWindow(now, planned.until) then Failure(OutsideBlockWindow)
    else if planned.from >= planned.until then Failure(StartNotBeforeEnd)
    else if planned.until - planned.from > MAX_BLOCK_DURATION then Failure(BlockTooLong)
    else Success(planned)
  }

  function Edited(block: Block, planned: Range, changes: Changes): Block {
    Block(block.staff, planned, changes.reason.GetOr(block.reason), changes.isActive.GetOr(block.active))
  }

  function Released(staff: string, freed: seq<Range>): seq<Event> {
    seq(|freed|, i requires 0 <= i < |freed| => SlotReleased(staff, freed[i]))
  }

  /** The new state, with what the guard resolved on the way. */
  function Update(s: Store, now: int, id: nat, changes: Changes, consent: Consent): (r: Result<(Store, Resolution)>)
    ensures r.Success? ==> id < |r.value.0.blocks|
  {
    if id >= |s.blocks| then Failure(BlockNotFound)
    else
      var block := s.blocks[id];
      match PlannedRange(now, block, changes)
      case Failure(e) => Failure(e)
      case Success(planned) =>
        var next := Edited(block, planned, changes);
        match Guard(s, [block.staff], AddedRanges(block.span, block.active, planned, next.active), next.reason, consent)
        case Failure(e) => Failure(e)
        case Success(r) =>
          var (t, done) := r;
          var freed := FreedRanges(block.span, block.active, planned, next.active);
          Success((Store(t.appointments, s.blocks[id := next], t.outbox + Released(block.staff, freed), t.audit), done))
  }

  const DEACTIVATE := Changes(None, None, None, Some(false))
  const NO_CONSENT := Consent(false, false)

  /** Deleting is deactivating. */
  function Delete(s: Store, now: int, id: nat): Result<(Store, Resolution)> {
    Update(s, now, id, DEACTIVATE, NO_CONSENT)
  }

  // ---------------------------------------------------------------- the service

  class AppointmentBlockService {
    var appointments: seq<Appointment>
    var blocks: seq<Block>
    var outbox: seq<Event>
    var audit: seq<AuditEntry>
    var activeStaff: seq<string>

    function State(): Store
      reads this
    {
      Store(appointments, blocks, outbox, audit)
    }

    constructor (store: Store, activeStaff: seq<string>)
      ensures State() == store && this.activeStaff == activeStaff
    {
      appointments, blocks, outbox, audit := store.appointments, store.blocks, store.outbox, store.audit;
      this.activeStaff := activeStaff;
    }

    method ListActiveOverlapping(staffIds: seq<string>, ranges: seq<Range>) returns (ids: seq<nat>)
      ensures ids == ListAffected(appointments, staffIds, ranges)
    {
      ids := [];
      for i := 0 to |appointments|
        invariant ids == ListAffected(appointments[..i], staffIds, ranges)
      {
        assert appointments[..i + 1][..i] == appointments[..i];
        if Listed(appointments[i], staffIds, ranges) {
          ids := InsertByStart(appointments[..i + 1], ids, i);
        }
      }
      assert appointments[..|appointments|] == appointments;
    }

    method LockAndResolveAffected(staffIds: seq<string>, ranges: seq<Range>, reason: string, consent: Consent)
      returns (r: Result<Resolution>)
      modifies this`appointments, this`outbox, this`audit
      ensures match Guard(old(State()), staffIds, ranges, reason, consent)
              case Failure(e) => r == Failure(e) && State() == old(State())
              case Success(g) => r == Success(g.1) && State() == g.0
    {
      var affected := ListActiveOverlapping(staffIds, ranges);
      if affected != [] && !consent.cancelAffected {
        return Failure(BlockHasAppointments(|affected|));
      }
      if affected != [] && !consent.isManager {
        return Failure(PermissionDenied);
      }
      var done := Resolution([], []);
      for i := 0 to |affected|
        invariant |appointments| == |old(appointments)|
        invariant (State(), done) == Resolve(old(State()), affected[..i], reason)
      {
        var id := affected[i];
        assert affected[..i + 1][..i] == affected[..i];
        if !appointments[id].Cancellable() {
          done := done.(skipped := done.skipped + [id]);
          continue;
        }
        var hasEmail := appointments[id].hasEmail;
        audit := audit + [Logged(id, appointments[id], reason)];
        appointments := appointments[id := CancelRow(appointments[id])];
        outbox := outbox + if hasEmail then [CancelledByBlock(id, reason)] else [];
        done := done.(cancelled := done.cancelled + [id]);
      }
      assert affected[..|affected|] == affected;
      r := Success(done);
    }

    method CreateBlocks(staffId: Option<string>, ranges: seq<Range>, reason: string, consent: Consent)
      returns (r: Result<Resolution>)
      modifies this`appointments, this`blocks, this`outbox, this`audit
      ensures match Create(old(State()), activeStaff, staffId, ranges, reason, consent)
              case Failure(e) => r == Failure(e) && State() == old(State())
              case Success(g) => r == Success(g.1) && State() == g.0
    {
      var found := StaffFor(activeStaff, staffId);
      if found.Failure? {
        return Failure(found.error);
      }
      var members := found.value;
      r := LockAndResolveAffected(members, ranges, reason, consent);
      if r.Failure? {
        return;
      }
      InsertBlocks(members, ranges, reason);
      audit := audit + [BlockCreated(reason, |ranges|, |members|, r.value.cancelled, r.value.skipped)];
    }

    method InsertBlocks(members: seq<string>, ranges: seq<Range>, reason: string)
      modifies this`blocks
      ensures blocks == old(blocks) + NewBlocks(members, ranges, reason)
    {
      for i := 0 to |members|
        invariant blocks == old(blocks) + NewBlocks(members[..i], ranges, reason)
      {
        assert members[..i + 1][..i] == members[..i];
        ghost var soFar := blocks;
        for j := 0 to |ranges|
          invariant blocks == soFar + BlocksOfMember(members[i], ranges, reason)[..j]
        {
          blocks := blocks + [Block(members[i], ranges[j], reason, true)];
        }
      }
      assert members[..|members|] == members;
    }

    /** Returns the block alone: what the guard cancelled and skipped is dropped. */
    method UpdateBlock(now: int, id: nat, changes: Changes, consent: Consent) returns (r: Result<Block>)
      modifies this`appointments, this`blocks, this`outbox, this`audit
      ensures match Update(old(State()), now, id, changes, consent)
              case Failure(e) => r == Failure(e) && State() == old(State())
              case Success(g) => r == Success(g.0.blocks[id]) && State() == g.0
    {
      if id >= |blocks| {
        return Failure(BlockNotFound);
      }
      var block := blocks[id];
      var planned := PlannedRange(now, block, changes);
      if planned.Failure? {
        return Failure(planned.error);
      }
      var next := Edited(block, planned.value, changes);
      var guarded := LockAndResolveAffected([block.staff],
                                            AddedRanges(block.span, block.active, planned.value, next.active),
                                            next.reason, consent);
      if guarded.Failure? {
        return Failure(guarded.error);
      }
      blocks := blocks[id := next];
      outbox := outbox + Released(block.staff, FreedRanges(block.span, block.active, next.span, next.active));
      r := Success(next);
    }

    method DeleteBlock(now: int, id: nat) returns (r: Result<()>)
      modifies this`appointments, this`blocks, this`outbox, this`audit
      ensures match Delete(old(State()), now, id)
              case Failure(e) => r == Failure(e) && State() == old(State())
              case Success(g) => r == Success(()) && State() == g.0
    {
      var edited := UpdateBlock(now, id, DEACTIVATE, NO_CONSENT);
      r := if edited.Failure? then Failure(edited.error) else Success(());
    }
  }
}
