/** The day agenda: which rows of the history are loaded for a local day, and why the grid
    computed from them is the grid of the whole history. */
module DayAgenda {
  import opened Clock
  import opened SlotGrid
  import AgendaBlocks

  /** The rows of the two tables of the agenda. */
  type Appointment = AgendaBlocks.Appointment
  type StaffBlock = AgendaBlocks.Block

  /** `ck_appointments_max_span`: no appointment lasts more than a day. */
  const MAX_APPOINTMENT_SPAN: int := AgendaBlocks.MAX_APPOINTMENT_SPAN

  predicate Active(a: Appointment) {
    AgendaBlocks.IsActive(a.status)
  }

  /** Both tables of one store, in the order the queries use. */
  datatype History = History(appointments: seq<Appointment>, blocks: seq<StaffBlock>) {
    ghost predicate Valid() {
      && (forall a | a in appointments :: a.span.from <= a.span.until <= a.span.from + MAX_APPOINTMENT_SPAN)
      && (forall b | b in blocks :: b.span.from <= b.span.until)
    }
  }

  /** The raw agenda of one day: what the second cache level stores. */
  datatype Agenda = Agenda(
    noticeHours: int,
    buffer: int,
    schedules: map<string, seq<Range>>,  // local times of day, in microseconds
    booked: map<string, seq<Range>>,
    blocks: map<string, seq<Block>>,
    builtAt: int,
    minBookable: int)

  datatype Query = Query(
    staff: seq<string>,
    day: int,
    duration: int,
    gapDuration: Option<int>,
    forceAll: bool,
    hideReasons: bool)

  function Get<V>(m: map<string, seq<V>>, key: string): seq<V> {
    if key in m then m[key] else []
  }

  // ---------------------------------------------------------------- loading

  /** `appointment_overlap`: both bounds, and the lower bound on the start. */
  predicate AppointmentOverlap(a: Range, from: int, until: int) {
    a.from < until && a.until > from && a.from > from - MAX_APPOINTMENT_SPAN
  }

  /** `active_block_overlap`. */
  predicate BlockOverlap(b: Range, from: int, until: int) {
    b.from < until && b.until > from
  }

  ghost predicate LowerBoundIsHarmless(cap: int) {
    forall a: Range, from: int, until: int | a.from <= a.until <= a.from + cap ::
      AppointmentOverlap(a, from, until) <==> a.from < until && a.until > from
  }

  /** The lower bound on the start never leaves out an overlapping appointment exactly when no
      appointment may last more than a day: the cap of the table is what the query needs. */
  lemma SpanCapIsExact(cap: int)
    requires cap >= 0
    ensures LowerBoundIsHarmless(cap) <==> cap <= MAX_APPOINTMENT_SPAN
  {
    if cap > MAX_APPOINTMENT_SPAN {
      assert !AppointmentOverlap(Range(0, cap), DAY, DAY + 1);
    }
  }

  /** Active appointments of one professional that pass the filter, in table order. */
  function BookedOf(rows: seq<Appointment>, staff: string, keep: Range -> bool): seq<Range> {
    if rows == [] then []
    else
      var last := rows[|rows| - 1];
      BookedOf(rows[..|rows| - 1], staff, keep) +
      (if last.staff == staff && Active(last) && keep(last.span) then [last.span] else [])
  }

  function BlocksOf(rows: seq<StaffBlock>, staff: string, keep: Range -> bool): seq<Block> {
    if rows == [] then []
    else
      var last := rows[|rows| - 1];
      BlocksOf(rows[..|rows| - 1], staff, keep) +
      (if last.staff == staff && last.active && keep(last.span) then [Block(last.span, last.reason)] else [])
  }

  function InWindow(day: int, buffer: int): Range -> bool {
    (r: Range) => AppointmentOverlap(r, DayStart(day) - buffer, DayEnd(day) + buffer)
  }

  function Everything(): Range -> bool {
    (r: Range) => true
  }

  function InDay(day: int): Range -> bool {
    (r: Range) => BlockOverlap(r, DayStart(day), DayEnd(day))
  }

  /** Booked ranges of a day, row by row into one list per professional. */
  method LoadBooked(rows: seq<Appointment>, staffIds: set<string>, day: int, buffer: int)
    returns (booked: map<string, seq<Range>>)
    ensures forall s | s in staffIds :: Get(booked, s) == BookedOf(rows, s, InWindow(day, buffer))
  {
    booked := map[];
    for i := 0 to |rows|
      invariant forall s | s in staffIds :: Get(booked, s) == BookedOf(rows[..i], s, InWindow(day, buffer))
    {
      var a := rows[i];
      assert rows[..i + 1][..i] == rows[..i];
      if a.staff in staffIds && Active(a) && InWindow(day, buffer)(a.span) {
        booked := booked[a.staff := Get(booked, a.staff) + [a.span]];
      }
    }
    assert rows[..|rows|] == rows;
  }

  /** Blocks of a day, the same way; not widened by the buffer. */
  method LoadBlocks(rows: seq<StaffBlock>, staffIds: set<string>, day: int)
    returns (blocks: map<string, seq<Block>>)
    ensures forall s | s in staffIds :: Get(blocks, s) == BlocksOf(rows, s, InDay(day))
  {
    blocks := map[];
    for i := 0 to |rows|
      invariant forall s | s in staffIds :: Get(blocks, s) == BlocksOf(rows[..i], s, InDay(day))
    {
      var b := rows[i];
      assert rows[..i + 1][..i] == rows[..i];
      if b.staff in staffIds && b.active && InDay(day)(b.span) {
        blocks := blocks[b.staff := Get(blocks, b.staff) + [Block(b.span, b.reason)]];
      }
    }
    assert rows[..|rows|] == rows;
  }

  // ---------------------------------------------------------------- the grid of a day

  function ShiftOf(staff: string, hours: Range, q: Query, agenda: Agenda): Shift {
    Shift(staff, Range(DayStart(q.day) + hours.from, DayStart(q.day) + hours.until),
          q.duration, q.gapDuration, Get(agenda.booked, staff), Get(agenda.blocks, staff),
          agenda.buffer, agenda.noticeHours, agenda.minBookable, q.forceAll, q.hideReasons)
  }

  function SlotsOfShifts(staff: string, shifts: seq<Range>, q: Query, agenda: Agenda): seq<Slot> {
    if shifts == [] then []
    else
      SlotsOfShifts(staff, shifts[..|shifts| - 1], q, agenda) +
      ShiftOf(staff, shifts[|shifts| - 1], q, agenda).Slots()
  }

  function SlotsOfStaff(staff: seq<string>, q: Query, agenda: Agenda): seq<Slot> {
    if staff == [] then []
    else
      var last := staff[|staff| - 1];
      SlotsOfStaff(staff[..|staff| - 1], q, agenda) +
      SlotsOfShifts(last, Get(agenda.schedules, last), q, agenda)
  }

  lemma SlotsOfStaffStep(q: Query, agenda: Agenda, i: nat)
    requires i < |q.staff|
    ensures SlotsOfStaff(q.staff[..i + 1], q, agenda) ==
            SlotsOfStaff(q.staff[..i], q, agenda) +
            SlotsOfShifts(q.staff[i], Get(agenda.schedules, q.staff[i]), q, agenda)
  {
    assert q.staff[..i + 1][..i] == q.staff[..i];
  }

  lemma SlotsOfShiftsStep(staff: string, shifts: seq<Range>, q: Query, agenda: Agenda, j: nat)
    requires j < |shifts|
    ensures SlotsOfShifts(staff, shifts[..j + 1], q, agenda) ==
            SlotsOfShifts(staff, shifts[..j], q, agenda) + ShiftOf(staff, shifts[j], q, agenda).Slots()
  {
    assert shifts[..j + 1][..j] == shifts[..j];
  }

  /** The slots of one professional, shift by shift. */
  method StaffSlots(staff: string, shifts: seq<Range>, q: Query, agenda: Agenda) returns (slots: seq<Slot>)
    ensures slots == SlotsOfShifts(staff, shifts, q, agenda)
  {
    slots := [];
    for j := 0 to |shifts|
      invariant slots == SlotsOfShifts(staff, shifts[..j], q, agenda)
    {
      var more := ScheduleSlots(ShiftOf(staff, shifts[j], q, agenda));
      SlotsOfShiftsStep(staff, shifts, q, agenda, j);
      slots := slots + more;
    }
    assert shifts[..|shifts|] == shifts;
  }

  /** The slots of the day, professional by professional. */
  method GridSlots(q: Query, agenda: Agenda) returns (slots: seq<Slot>)
    ensures slots == SlotsOfStaff(q.staff, q, agenda)
  {
    slots := [];
    for i := 0 to |q.staff|
      invariant slots == SlotsOfStaff(q.staff[..i], q, agenda)
    {
      var more := StaffSlots(q.staff[i], Get(agenda.schedules, q.staff[i]), q, agenda);
      SlotsOfStaffStep(q, agenda, i);
      slots := slots + more;
    }
    assert q.staff[..|q.staff|] == q.staff;
  }

  // ---------------------------------------------------------------- the day agenda is faithful

  /** The agenda of the whole history instead of the rows of the day. */
  ghost predicate WholeHistory(agenda: Agenda, full: Agenda, h: History) {
    && full == agenda.(booked := full.booked, blocks := full.blocks)
    && forall s | s in agenda.schedules ::
         && Get(full.booked, s) == BookedOf(h.appointments, s, Everything())
         && Get(full.blocks, s) == BlocksOf(h.blocks, s, Everything())
  }

  ghost predicate LoadedForDay(agenda: Agenda, h: History, day: int) {
    forall s | s in agenda.schedules ::
      && Get(agenda.booked, s) == BookedOf(h.appointments, s, InWindow(day, agenda.buffer))
      && Get(agenda.blocks, s) == BlocksOf(h.blocks, s, InDay(day))
  }

  lemma {:induction false} BookedMembers(rows: seq<Appointment>, staff: string, keep: Range -> bool, r: Range)
    ensures r in BookedOf(rows, staff, keep) <==>
            keep(r) && exists a :: a in rows && a.staff == staff && Active(a) && a.span == r
  {
    if rows != [] {
      var rest := rows[..|rows| - 1];
      BookedMembers(rest, staff, keep, r);
      assert forall a :: a in rows <==> a in rest || a == rows[|rows| - 1];
    }
  }

  lemma {:induction false} BlockMembers(rows: seq<StaffBlock>, staff: string, keep: Range -> bool, b: Block)
    ensures b in BlocksOf(rows, staff, keep) <==>
            keep(b.span) && exists x :: x in rows && x.staff == staff && x.active && Block(x.span, x.reason) == b
  {
    if rows != [] {
      var rest := rows[..|rows| - 1];
      BlockMembers(rest, staff, keep, b);
      assert forall x :: x in rows <==> x in rest || x == rows[|rows| - 1];
    }
  }

  /** The first overlapping block of the rows but the last, or the last row if it is one. */
  lemma FirstOverlapOfRows(rows: seq<StaffBlock>, staff: string, keep: Range -> bool, slot: Range)
    requires rows != []
    ensures var last := rows[|rows| - 1];
            var first := FirstOverlapping(BlocksOf(rows[..|rows| - 1], staff, keep), slot);
            FirstOverlapping(BlocksOf(rows, staff, keep), slot) ==
            if first.Some? then first
            else if last.staff == staff && last.active && keep(last.span) && last.span.Overlaps(slot)
            then Some(Block(last.span, last.reason)) else None
  {
    var last := rows[|rows| - 1];
    var before := BlocksOf(rows[..|rows| - 1], staff, keep);
    FirstOverlapAppend(before, Block(last.span, last.reason), slot);
    assert before + [] == before;
  }

  /** The first overlapping block is found in the loaded rows too: loading keeps the order
      and every row that can overlap a slot of the day. */
  lemma {:induction false} SameFirstOverlap(rows: seq<StaffBlock>, staff: string, day: int, slot: Range)
    requires DayStart(day) <= slot.from && slot.until <= DayEnd(day)
    ensures FirstOverlapping(BlocksOf(rows, staff, InDay(day)), slot)
            == FirstOverlapping(BlocksOf(rows, staff, Everything()), slot)
  {
    if rows != [] {
      SameFirstOverlap(rows[..|rows| - 1], staff, day, slot);
      FirstOverlapOfRows(rows, staff, InDay(day), slot);
      FirstOverlapOfRows(rows, staff, Everything(), slot);
    }
  }

  lemma {:induction false} FirstOverlapAppend(blocks: seq<Block>, b: Block, slot: Range)
    ensures FirstOverlapping(blocks + [b], slot) ==
            (var first := FirstOverlapping(blocks, slot);
             if first.Some? then first else if b.span.Overlaps(slot) then Some(b) else None)
  {
    if blocks != [] {
      FirstOverlapAppend(blocks[1..], b, slot);
      assert (blocks + [b])[1..] == blocks[1..] + [b];
    } else {
      assert ([] + [b])[1..] == [];
    }
  }

  /** `day` is the shift's agenda limited to the rows of the day, `whole` the same shift over
      the whole history. */
  ghost predicate LimitedTo(limited: Shift, whole: Shift, h: History, day: int) {
    && limited == whole.(booked := limited.booked, blocks := limited.blocks)
    && limited.booked == BookedOf(h.appointments, limited.staff, InWindow(day, limited.buffer))
    && limited.blocks == BlocksOf(h.blocks, limited.staff, InDay(day))
    && whole.booked == BookedOf(h.appointments, whole.staff, Everything())
    && whole.blocks == BlocksOf(h.blocks, whole.staff, Everything())
    && DayStart(day) <= whole.hours.from && whole.hours.until <= DayEnd(day)
  }

  /** Loaded obstacles are obstacles, and any obstacle left out lies wholly outside the day. */
  lemma LeftOutObstacles(limited: Shift, whole: Shift, h: History, day: int, o: Range)
    requires h.Valid() && whole.buffer >= 0 && LimitedTo(limited, whole, h, day)
    ensures o in limited.Obstacles() ==> o in whole.Obstacles()
    ensures o in whole.Obstacles() && o !in limited.Obstacles() ==>
              o.from <= o.until && (o.until <= DayStart(day) || DayEnd(day) <= o.from)
  {
    ObstacleMembership(limited, o);
    ObstacleMembership(whole, o);
    var r := Range(o.from + whole.buffer, o.until - whole.buffer);
    BookedMembers(h.appointments, whole.staff, InWindow(day, whole.buffer), r);
    BookedMembers(h.appointments, whole.staff, Everything(), r);
    assert forall a: Range :: Widen(a, whole.buffer) == o ==> a == r;
    assert Widen(r, whole.buffer) == o;
    forall b: Block | b.span == o
      ensures b in limited.blocks ==> b in whole.blocks
      ensures b in whole.blocks && b !in limited.blocks ==>
                o.from <= o.until && (o.until <= DayStart(day) || DayEnd(day) <= o.from)
    {
      BlockMembers(h.blocks, whole.staff, InDay(day), b);
      BlockMembers(h.blocks, whole.staff, Everything(), b);
    }
  }

  /** A slot inside the hours has the same status either way. */
  lemma SameStatus(limited: Shift, whole: Shift, h: History, day: int, start: int)
    requires h.Valid() && whole.buffer >= 0 && whole.duration > 0 && LimitedTo(limited, whole, h, day)
    requires whole.hours.from <= start && start + whole.duration <= whole.hours.until
    ensures limited.StatusAt(start) == whole.StatusAt(start)
  {
    SameFirstOverlap(h.blocks, whole.staff, day, whole.SlotAt(start));
    SameBooked(limited, whole, h, day, whole.SlotAt(start));
  }

  /** `all` has the ranges of `some` and, beyond them, only ranges outside `day`. */
  ghost predicate OnlyOutside(day: Range, some: seq<Range>, all: seq<Range>) {
    forall o: Range :: OutsideOrKept(day, some, all, o)
  }

  ghost predicate OutsideOrKept(day: Range, some: seq<Range>, all: seq<Range>, o: Range) {
    && (o in some ==> o in all)
    && (o in all && o !in some ==> o.from <= o.until && (o.until <= day.from || day.until <= o.from))
  }

  lemma LeftOutAreOutside(limited: Shift, whole: Shift, h: History, day: int, some: seq<Range>, all: seq<Range>)
    requires h.Valid() && whole.buffer >= 0 && LimitedTo(limited, whole, h, day)
    requires some == limited.Obstacles() && all == whole.Obstacles()
    ensures OnlyOutside(Range(DayStart(day), DayEnd(day)), some, all)
  {
    forall o ensures OutsideOrKept(Range(DayStart(day), DayEnd(day)), some, all, o) {
      LeftOutObstacles(limited, whole, h, day, o);
    }
  }

  /** And the same free window. */
  lemma SameWindow(limited: Shift, whole: Shift, h: History, day: int, start: int)
    requires h.Valid() && whole.buffer >= 0 && whole.duration > 0 && LimitedTo(limited, whole, h, day)
    requires whole.hours.from <= start && start + whole.duration <= whole.hours.until
    ensures limited.Window(start) == whole.Window(start)
  {
    var some, all, end := limited.Obstacles(), whole.Obstacles(), start + whole.duration;
    assert FreeFrom(whole.hours.from, start, some) == FreeFrom(whole.hours.from, start, all)
        && FreeUntil(whole.hours.until, end, some) == FreeUntil(whole.hours.until, end, all) by {
      LeftOutAreOutside(limited, whole, h, day, some, all);
      SameWindowWithout(Range(DayStart(day), DayEnd(day)), whole.hours, start, end, some, all);
    }
  }

  lemma SameHidden(limited: Shift, whole: Shift, start: int)
    requires limited == whole.(booked := limited.booked, blocks := limited.blocks)
    requires limited.StatusAt(start) == whole.StatusAt(start)
    requires limited.Window(start) == whole.Window(start)
    ensures limited.ShownAt(start) == whole.ShownAt(start)
  {
  }

  lemma SameShownAt(limited: Shift, whole: Shift, h: History, day: int, start: int)
    requires h.Valid() && whole.buffer >= 0 && whole.duration > 0 && LimitedTo(limited, whole, h, day)
    requires whole.hours.from <= start && start + whole.duration <= whole.hours.until
    ensures limited.ShownAt(start) == whole.ShownAt(start)
  {
    SameStatus(limited, whole, h, day, start);
    SameWindow(limited, whole, h, day, start);
    SameHidden(limited, whole, start);
  }

  lemma SameWindowWithout(day: Range, hours: Range, start: int, end: int, some: seq<Range>, all: seq<Range>)
    requires day.from <= hours.from <= start < end <= hours.until <= day.until
    requires OnlyOutside(day, some, all)
    ensures FreeFrom(hours.from, start, some) == FreeFrom(hours.from, start, all)
    ensures FreeUntil(hours.until, end, some) == FreeUntil(hours.until, end, all)
  {
    FreeFromIsMaximum(hours.from, start, some);
    FreeFromIsMaximum(hours.from, start, all);
    FreeUntilIsMinimum(hours.until, end, some);
    FreeUntilIsMinimum(hours.until, end, all);
    forall o: Range ensures OutsideOrKept(day, some, all, o) {
    }
    assert forall o: Range :: o in some ==> OutsideOrKept(day, some, all, o);
    assert forall o: Range :: o in all ==> OutsideOrKept(day, some, all, o);
  }

  lemma SameBooked(limited: Shift, whole: Shift, h: History, day: int, slot: Range)
    requires h.Valid() && whole.buffer >= 0 && LimitedTo(limited, whole, h, day)
    requires DayStart(day) <= slot.from && slot.until <= DayEnd(day)
    ensures IsBooked(slot, limited.booked, limited.buffer) == IsBooked(slot, whole.booked, whole.buffer)
  {
    forall a: Range
      ensures a in limited.booked ==> a in whole.booked
      ensures a in whole.booked && a !in limited.booked ==>
                slot.until <= a.from - whole.buffer || slot.from >= a.until + whole.buffer
    {
      BookedMembers(h.appointments, whole.staff, InWindow(day, whole.buffer), a);
      BookedMembers(h.appointments, whole.staff, Everything(), a);
    }
  }

  lemma {:induction false} SameShownUpTo(a: Shift, b: Shift, n: nat)
    requires forall k: nat | k < n :: a.ShownAt(a.Start(k)) == b.ShownAt(b.Start(k))
    ensures a.ShownUpTo(n) == b.ShownUpTo(n)
  {
    if n > 0 {
      SameShownUpTo(a, b, n - 1);
    }
  }

  lemma CountedSlotFits(sh: Shift, k: nat)
    requires k < sh.SlotCount()
    ensures sh.hours.from <= sh.Start(k) && sh.Start(k) + sh.duration <= sh.hours.until
  {
  }

  lemma SameShownInOrder(limited: Shift, whole: Shift, h: History, day: int, k: nat)
    requires h.Valid() && whole.buffer >= 0 && whole.duration > 0 && LimitedTo(limited, whole, h, day)
    requires k < whole.SlotCount()
    ensures limited.ShownAt(limited.Start(k)) == whole.ShownAt(whole.Start(k))
  {
    CountedSlotFits(whole, k);
    SameShownAt(limited, whole, h, day, whole.Start(k));
  }

  lemma SameSlots(limited: Shift, whole: Shift, h: History, day: int)
    requires h.Valid() && whole.buffer >= 0 && whole.duration > 0 && LimitedTo(limited, whole, h, day)
    ensures limited.Slots() == whole.Slots()
  {
    forall k: nat | k < whole.SlotCount()
      ensures limited.ShownAt(limited.Start(k)) == whole.ShownAt(whole.Start(k))
    {
      SameShownInOrder(limited, whole, h, day, k);
    }
    SameShownUpTo(limited, whole, whole.SlotCount());
  }

  /** The shifts of a schedule are times of one day. */
  ghost predicate WithinTheDay(agenda: Agenda) {
    forall s, i | s in agenda.schedules && 0 <= i < |agenda.schedules[s]| ::
      0 <= agenda.schedules[s][i].from && agenda.schedules[s][i].until < DAY
  }

  /** The day-limited agenda is a faithful refinement: the slots of every query on the rows
      overlapping the day (widened by the buffer for appointments) are the slots computed
      from the whole history, gap filter and reasons included. */
  lemma {:induction false} DayAgendaIsFaithful(q: Query, agenda: Agenda, full: Agenda, h: History)
    requires h.Valid() && agenda.buffer >= 0 && q.duration > 0 && WithinTheDay(agenda)
    requires LoadedForDay(agenda, h, q.day) && WholeHistory(agenda, full, h)
    ensures SlotsOfStaff(q.staff, q, agenda) == SlotsOfStaff(q.staff, q, full)
  {
    SameStaff(q.staff, q, agenda, full, h);
  }

  lemma {:induction false} SameStaff(staff: seq<string>, q: Query, agenda: Agenda, full: Agenda, h: History)
    requires h.Valid() && agenda.buffer >= 0 && q.duration > 0 && WithinTheDay(agenda)
    requires LoadedForDay(agenda, h, q.day) && WholeHistory(agenda, full, h)
    ensures SlotsOfStaff(staff, q, agenda) == SlotsOfStaff(staff, q, full)
  {
    if staff != [] {
      var last := staff[|staff| - 1];
      SameStaff(staff[..|staff| - 1], q, agenda, full, h);
      SameShifts(last, Get(agenda.schedules, last), q, agenda, full, h);
    }
  }

  lemma {:induction false} SameShifts(staff: string, shifts: seq<Range>, q: Query, agenda: Agenda,
                                      full: Agenda, h: History)
    requires h.Valid() && agenda.buffer >= 0 && q.duration > 0
    requires LoadedForDay(agenda, h, q.day) && WholeHistory(agenda, full, h)
    requires shifts != [] ==> staff in agenda.schedules
    requires forall i | 0 <= i < |shifts| :: 0 <= shifts[i].from && shifts[i].until < DAY
    ensures SlotsOfShifts(staff, shifts, q, agenda) == SlotsOfShifts(staff, shifts, q, full)
  {
    if shifts != [] {
      var hours := shifts[|shifts| - 1];
      SameShifts(staff, shifts[..|shifts| - 1], q, agenda, full, h);
      var limited, whole := ShiftOf(staff, hours, q, agenda), ShiftOf(staff, hours, q, full);
      SameSlots(limited, whole, h, q.day);
    }
  }
}
