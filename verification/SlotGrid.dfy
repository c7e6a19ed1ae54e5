/** The slot grid of one shift: a 15-minute walk that classifies every slot and hides the
    free ones that would leave a gap nobody can book. */
module SlotGrid {
  import opened Clock

  const SLOT_STEP: int := 15 * MINUTE

  datatype Block = Block(span: Range, note: string)

  datatype Status = Available | Booked | Blocked(reason: string) | TooSoon(noticeHours: int)

  datatype Slot = Slot(staff: string, span: Range, status: Status)

  // ---------------------------------------------------------------- grid arithmetic

  function GridAt(origin: int, k: int): int {
    origin + k * SLOT_STEP
  }

  function FirstGridStart(origin: int, instant: int): int {
    if instant <= origin then origin
    else origin + -((origin - instant) / SLOT_STEP) * SLOT_STEP
  }

  /** FirstGridStart is the least grid point at or after the instant. */
  lemma FirstGridStartIsLeast(origin: int, instant: int) returns (k: nat)
    ensures FirstGridStart(origin, instant) == GridAt(origin, k) >= instant
    ensures forall j: nat :: GridAt(origin, j) >= instant ==> k <= j
  {
    k := if instant <= origin then 0 else -((origin - instant) / SLOT_STEP);
  }

  // ---------------------------------------------------------------- free windows

  /** End of the last obstacle finished by `start`, or the start of the window. */
  function FreeFrom(windowStart: int, start: int, obstacles: seq<Range>): int {
    if obstacles == [] then windowStart
    else
      var rest := FreeFrom(windowStart, start, obstacles[1..]);
      if obstacles[0].until <= start then Max(obstacles[0].until, rest) else rest
  }

  /** Start of the first obstacle that begins at or after `end`, or the end of the window. */
  function FreeUntil(windowEnd: int, end: int, obstacles: seq<Range>): int {
    if obstacles == [] then windowEnd
    else
      var rest := FreeUntil(windowEnd, end, obstacles[1..]);
      if obstacles[0].from >= end then Min(obstacles[0].from, rest) else rest
  }

  lemma {:induction false} FreeFromIsMaximum(windowStart: int, start: int, obstacles: seq<Range>)
    ensures var free := FreeFrom(windowStart, start, obstacles);
            && windowStart <= free
            && (forall o | o in obstacles :: o.until <= start ==> o.until <= free)
            && (free == windowStart || exists o :: o in obstacles && o.until == free && o.until <= start)
  {
    if obstacles != [] {
      FreeFromIsMaximum(windowStart, start, obstacles[1..]);
      assert forall o | o in obstacles :: o == obstacles[0] || o in obstacles[1..];
      assert obstacles[0] in obstacles;
    }
  }

  lemma {:induction false} FreeUntilIsMinimum(windowEnd: int, end: int, obstacles: seq<Range>)
    ensures var free := FreeUntil(windowEnd, end, obstacles);
            && free <= windowEnd
            && (forall o | o in obstacles :: end <= o.from ==> free <= o.from)
            && (free == windowEnd || exists o :: o in obstacles && o.from == free && end <= o.from)
  {
    if obstacles != [] {
      FreeUntilIsMinimum(windowEnd, end, obstacles[1..]);
      assert forall o | o in obstacles :: o == obstacles[0] || o in obstacles[1..];
      assert obstacles[0] in obstacles;
    }
  }

  function LeavesUnsellableGap(start: int, duration: int, free: Range, gridOrigin: int,
                               gapDuration: Option<int>): bool
  {
    var other := gapDuration.GetOr(duration);
    var firstStart := FirstGridStart(gridOrigin, free.from);
    var atStart := start == firstStart;
    var atEnd := start + SLOT_STEP + duration > free.until;
    if atStart || atEnd then false
    else
      var fitsBefore := firstStart + other <= start;
      var fitsAfter := FirstGridStart(gridOrigin, start + duration) + other <= free.until;
      !(fitsBefore && fitsAfter)
  }

  // ---------------------------------------------------------------- slot status

  /** The first block of the list that overlaps the slot. */
  function FirstOverlapping(blocks: seq<Block>, slot: Range): Option<Block> {
    if blocks == [] then None
    else if blocks[0].span.Overlaps(slot) then Some(blocks[0])
    else FirstOverlapping(blocks[1..], slot)
  }

  function Widen(r: Range, buffer: int): Range {
    Range(r.from - buffer, r.until + buffer)
  }

  function WidenAll(rs: seq<Range>, buffer: int): seq<Range> {
    seq(|rs|, i requires 0 <= i < |rs| => Widen(rs[i], buffer))
  }

  function Spans(blocks: seq<Block>): seq<Range> {
    seq(|blocks|, i requires 0 <= i < |blocks| => blocks[i].span)
  }

  predicate IsBooked(slot: Range, booked: seq<Range>, buffer: int) {
    exists a :: a in booked && !(slot.until <= a.from - buffer || slot.from >= a.until + buffer)
  }

  /** One professional's shift on one day: everything the grid reads. */
  datatype Shift = Shift(
    staff: string,
    hours: Range,
    duration: int,
    gapDuration: Option<int>,
    booked: seq<Range>,
    blocks: seq<Block>,
    buffer: int,
    noticeHours: int,
    minBookable: int,
    forceAll: bool,
    hideReasons: bool)
  {
    /** What the database guarantees: positive durations, no inverted range, buffer >= 0. */
    ghost predicate Valid() {
      && duration > 0
      && buffer >= 0
      && (forall r | r in booked :: r.from <= r.until)
      && (forall b | b in blocks :: b.span.from <= b.span.until)
    }

    /** Widened appointments, blocks, and the hours before the minimum notice. */
    function Obstacles(): seq<Range> {
      WidenAll(booked, buffer) + Spans(blocks) +
      (if minBookable > hours.from then [Range(hours.from, minBookable)] else [])
    }

    function SlotAt(start: int): Range {
      Range(start, start + duration)
    }

    /** Appointment (widened) > block > minimum notice > free. */
    function StatusAt(start: int): Status {
      if IsBooked(SlotAt(start), booked, buffer) then Booked
      else
        var block := FirstOverlapping(blocks, SlotAt(start));
        if block.Some? then Blocked(if hideReasons then "No disponible" else block.value.note)
        else if start < minBookable then TooSoon(noticeHours)
        else Available
    }

    function Window(start: int): Range {
      Range(FreeFrom(hours.from, start, Obstacles()),
            FreeUntil(hours.until, start + duration, Obstacles()))
    }

    predicate Hidden(start: int) {
      && !forceAll
      && StatusAt(start) == Available
      && LeavesUnsellableGap(start, duration, Window(start), hours.from, gapDuration)
    }

    function Start(k: int): int {
      GridAt(hours.from, k)
    }

    /** Slot k of the grid fits in the working hours. */
    predicate Fits(k: int) {
      0 <= k && Start(k) + duration <= hours.until
    }

    /** Slot k is free to book. */
    predicate Free(k: int) {
      Fits(k) && StatusAt(Start(k)) == Available
    }

    /** Slot k is free and survives the gap filter. */
    predicate Offered(k: int) {
      Free(k) && !Hidden(Start(k))
    }

    function SlotCount(): nat {
      if hours.from + duration > hours.until then 0
      else (hours.until - duration - hours.from) / SLOT_STEP + 1
    }

    /** What the slot at `start` contributes to the result. */
    function ShownAt(start: int): seq<Slot> {
      if Hidden(start) then [] else [Slot(staff, SlotAt(start), StatusAt(start))]
    }

    /** The slots shown among the first n of the grid, in order. */
    function ShownUpTo(n: nat): seq<Slot> {
      if n == 0 then [] else ShownUpTo(n - 1) + ShownAt(Start(n - 1))
    }

    function Slots(): seq<Slot> {
      ShownUpTo(SlotCount())
    }
  }

  /** The grid walk of one shift. */
  method ScheduleSlots(sh: Shift) returns (slots: seq<Slot>)
    ensures slots == sh.Slots()
  {
    var current := sh.hours.from;
    slots := [];
    ghost var k: nat := 0;
    while current + sh.duration <= sh.hours.until
      invariant current == sh.Start(k)
      invariant k > 0 ==> sh.Fits(k - 1)
      invariant slots == sh.ShownUpTo(k)
      decreases sh.hours.until - sh.duration - current
    {
      var slotEnd := current + sh.duration;
      var status := sh.StatusAt(current);
      k := k + 1;
      if !sh.forceAll && status == Available {
        var free := sh.Window(current);
        if LeavesUnsellableGap(current, sh.duration, free, sh.hours.from, sh.gapDuration) {
          current := current + SLOT_STEP;
          continue;
        }
      }
      slots := slots + [Slot(sh.staff, Range(current, slotEnd), status)];
      current := current + SLOT_STEP;
    }
    CountOfFittingSlots(sh, k);
  }

  /** A slot is in the result exactly when it is a grid slot that the gap filter does not hide. */
  lemma {:induction false} ShownExactly(sh: Shift, n: nat, s: Slot)
    ensures s in sh.ShownUpTo(n) <==>
            exists k :: 0 <= k < n && !sh.Hidden(sh.Start(k)) &&
                        s == Slot(sh.staff, sh.SlotAt(sh.Start(k)), sh.StatusAt(sh.Start(k)))
  {
    if n > 0 {
      ShownExactly(sh, n - 1, s);
    }
  }

  /** The slots are shown in strictly increasing order of start, without repetition. */
  lemma {:induction false} ShownInOrder(sh: Shift, n: nat)
    ensures forall i | 0 <= i < |sh.ShownUpTo(n)| :: sh.ShownUpTo(n)[i].span.from < sh.Start(n)
    ensures forall i, j | 0 <= i < j < |sh.ShownUpTo(n)| ::
              sh.ShownUpTo(n)[i].span.from < sh.ShownUpTo(n)[j].span.from
  {
    if n > 0 {
      ShownInOrder(sh, n - 1);
      assert sh.Start(n - 1) < sh.Start(n);
    }
  }

  /** The walk stops after the last grid slot that fits in the hours. */
  lemma CountOfFittingSlots(sh: Shift, k: nat)
    requires !sh.Fits(k) && (k > 0 ==> sh.Fits(k - 1))
    ensures k == sh.SlotCount()
  {
  }

  // ---------------------------------------------------------------- free windows of free slots

  lemma ObstacleMembership(sh: Shift, o: Range)
    ensures o in sh.Obstacles() <==>
            || (exists a :: a in sh.booked && o == Widen(a, sh.buffer))
            || (exists b :: b in sh.blocks && o == b.span)
            || (sh.minBookable > sh.hours.from && o == Range(sh.hours.from, sh.minBookable))
  {
    var w, s := WidenAll(sh.booked, sh.buffer), Spans(sh.blocks);
    forall a | a in sh.booked ensures Widen(a, sh.buffer) in w {
      var i :| 0 <= i < |sh.booked| && sh.booked[i] == a;
      assert w[i] == Widen(a, sh.buffer);
    }
    forall b | b in sh.blocks ensures b.span in s {
      var i :| 0 <= i < |sh.blocks| && sh.blocks[i] == b;
      assert s[i] == b.span;
    }
  }

  lemma {:induction false} NoneOverlaps(blocks: seq<Block>, slot: Range)
    ensures FirstOverlapping(blocks, slot).None? <==>
            forall b | b in blocks :: !b.span.Overlaps(slot)
  {
    if blocks != [] {
      NoneOverlaps(blocks[1..], slot);
      assert blocks[0] in blocks;
      assert forall b | b in blocks :: b == blocks[0] || b in blocks[1..];
    }
  }

  predicate Clears(o: Range, slot: Range) {
    o.until <= slot.from || slot.until <= o.from
  }

  /** A slot inside the hours is free exactly when every obstacle ends before it or
      begins after it: the status and the gap filter read the same obstacles. */
  lemma FreeIffClear(sh: Shift, start: int)
    requires sh.Valid() && sh.hours.from <= start
    ensures sh.StatusAt(start) == Available <==>
            forall o | o in sh.Obstacles() :: Clears(o, sh.SlotAt(start))
  {
    var slot := sh.SlotAt(start);
    NoneOverlaps(sh.blocks, slot);
    if sh.StatusAt(start) == Available {
      forall o | o in sh.Obstacles() ensures Clears(o, slot) {
        ObstacleMembership(sh, o);
      }
    }
    if forall o | o in sh.Obstacles() :: Clears(o, slot) {
      forall a | a in sh.booked ensures Clears(Widen(a, sh.buffer), slot) {
        ObstacleMembership(sh, Widen(a, sh.buffer));
      }
      forall b | b in sh.blocks ensures Clears(b.span, slot) {
        ObstacleMembership(sh, b.span);
      }
      ObstacleMembership(sh, Range(sh.hours.from, sh.minBookable));
    }
  }

  lemma ObstaclesWellFormed(sh: Shift, o: Range)
    requires sh.Valid() && o in sh.Obstacles()
    ensures o.from <= o.until
  {
    ObstacleMembership(sh, o);
  }

  /** The window of a free slot contains it, lies inside the hours, and holds no obstacle. */
  lemma WindowOfFreeSlot(sh: Shift, k: int)
    requires sh.Valid() && sh.Free(k)
    ensures var w := sh.Window(sh.Start(k));
            && sh.hours.from <= w.from <= sh.Start(k)
            && sh.Start(k) + sh.duration <= w.until <= sh.hours.until
            && forall o | o in sh.Obstacles() :: Clears(o, w)
  {
    var at := sh.Start(k);
    FreeFromIsMaximum(sh.hours.from, at, sh.Obstacles());
    FreeUntilIsMinimum(sh.hours.until, at + sh.duration, sh.Obstacles());
    FreeIffClear(sh, at);
  }

  lemma {:induction false} SameFreeFrom(windowStart: int, s: int, t: int, obstacles: seq<Range>)
    requires forall o | o in obstacles :: o.until <= s <==> o.until <= t
    ensures FreeFrom(windowStart, s, obstacles) == FreeFrom(windowStart, t, obstacles)
  {
    if obstacles != [] {
      assert obstacles[0] in obstacles;
      assert forall o | o in obstacles[1..] :: o in obstacles;
      SameFreeFrom(windowStart, s, t, obstacles[1..]);
    }
  }

  lemma {:induction false} SameFreeUntil(windowEnd: int, s: int, t: int, obstacles: seq<Range>)
    requires forall o | o in obstacles :: s <= o.from <==> t <= o.from
    ensures FreeUntil(windowEnd, s, obstacles) == FreeUntil(windowEnd, t, obstacles)
  {
    if obstacles != [] {
      assert obstacles[0] in obstacles;
      assert forall o | o in obstacles[1..] :: o in obstacles;
      SameFreeUntil(windowEnd, s, t, obstacles[1..]);
    }
  }

  /** The same on bare obstacles: a slot inside the window of a clear one is clear, and
      sees the same window. */
  lemma ClearWindowIsShared(hours: Range, obstacles: seq<Range>, s: int, t: int, duration: int)
    requires duration > 0
    requires forall o | o in obstacles :: o.from <= o.until && Clears(o, Range(s, s + duration))
    requires FreeFrom(hours.from, s, obstacles) <= t
    requires t + duration <= FreeUntil(hours.until, s + duration, obstacles)
    ensures forall o | o in obstacles :: Clears(o, Range(t, t + duration))
    ensures FreeFrom(hours.from, s, obstacles) == FreeFrom(hours.from, t, obstacles)
    ensures FreeUntil(hours.until, s + duration, obstacles) == FreeUntil(hours.until, t + duration, obstacles)
  {
    FreeFromIsMaximum(hours.from, s, obstacles);
    FreeUntilIsMinimum(hours.until, s + duration, obstacles);
    SameFreeFrom(hours.from, s, t, obstacles);
    SameFreeUntil(hours.until, s + duration, t + duration, obstacles);
  }

  lemma FreeSlotIsClear(sh: Shift, k: int)
    requires sh.Valid() && sh.Free(k)
    ensures forall o | o in sh.Obstacles() :: o.from <= o.until && Clears(o, sh.SlotAt(sh.Start(k)))
    ensures sh.Window(sh.Start(k)).until <= sh.hours.until
  {
    FreeUntilIsMinimum(sh.hours.until, sh.Start(k) + sh.duration, sh.Obstacles());
    FreeIffClear(sh, sh.Start(k));
    forall o | o in sh.Obstacles() ensures o.from <= o.until {
      ObstaclesWellFormed(sh, o);
    }
  }

  /** Every grid slot inside a free window is free and has that same window. */
  lemma WindowIsShared(sh: Shift, k: int, j: int)
    requires sh.Valid() && sh.Free(k) && 0 <= j
    requires sh.Window(sh.Start(k)).from <= sh.Start(j)
    requires sh.Start(j) + sh.duration <= sh.Window(sh.Start(k)).until
    ensures sh.Free(j) && sh.Window(sh.Start(j)) == sh.Window(sh.Start(k))
  {
    FreeSlotIsClear(sh, k);
    ClearWindowIsShared(sh.hours, sh.Obstacles(), sh.Start(k), sh.Start(j), sh.duration);
    FreeIffClear(sh, sh.Start(j));
  }

  // ---------------------------------------------------------------- main results

  /** A grid-aligned turn of length `duration` fits in [from, until). */
  ghost predicate TurnFits(origin: int, from: int, until: int, duration: int) {
    exists k: nat :: from <= GridAt(origin, k) && GridAt(origin, k) + duration <= until
  }

  lemma TurnFitsIff(origin: int, from: int, until: int, duration: int)
    ensures TurnFits(origin, from, until, duration) <==>
            FirstGridStart(origin, from) + duration <= until
  {
    var k := FirstGridStartIsLeast(origin, from);
    if TurnFits(origin, from, until, duration) {
      var j: nat :| from <= GridAt(origin, j) && GridAt(origin, j) + duration <= until;
      assert k <= j;
    }
  }

  /** The gap filter hides a free slot exactly when an earlier and a later slot of the same
      window exist, and on some side no grid-aligned turn of the gap duration fits. */
  lemma HiddenExactlyWhenAGapIsLost(sh: Shift, k: int)
    requires sh.Valid() && sh.Free(k) && !sh.forceAll
    ensures var w := sh.Window(sh.Start(k));
            var gap := sh.gapDuration.GetOr(sh.duration);
            sh.Hidden(sh.Start(k)) <==>
            && (exists j: nat :: j < k && w.from <= sh.Start(j))
            && (exists j: nat :: j > k && sh.Start(j) + sh.duration <= w.until)
            && !(&& TurnFits(sh.hours.from, w.from, sh.Start(k), gap)
                 && TurnFits(sh.hours.from, sh.Start(k) + sh.duration, w.until, gap))
  {
    var w := sh.Window(sh.Start(k));
    var gap := sh.gapDuration.GetOr(sh.duration);
    WindowOfFreeSlot(sh, k);
    var first := FirstGridStartIsLeast(sh.hours.from, w.from);
    TurnFitsIff(sh.hours.from, w.from, sh.Start(k), gap);
    TurnFitsIff(sh.hours.from, sh.Start(k) + sh.duration, w.until, gap);
    assert (exists j: nat :: j < k && w.from <= sh.Start(j)) <==> sh.Start(k) != sh.Start(first) by {
      assert sh.Start(first) >= w.from;
    }
    assert (exists j: nat :: j > k && sh.Start(j) + sh.duration <= w.until) <==>
           sh.Start(k) + SLOT_STEP + sh.duration <= w.until by {
      assert sh.Start(k + 1) == sh.Start(k) + SLOT_STEP;
    }
  }

  /** The gap filter never empties a free window: for any duration, the first grid slot that
      fits in the window of a free slot is free and offered. */
  lemma FirstOfWindowIsOffered(sh: Shift, k: int) returns (first: nat)
    requires sh.Valid() && sh.Free(k)
    ensures first <= k && sh.Offered(first) && sh.Window(sh.Start(first)) == sh.Window(sh.Start(k))
    ensures forall j: nat :: sh.Window(sh.Start(k)).from <= sh.Start(j) <==> first <= j
  {
    first := FirstGridStartIsLeast(sh.hours.from, sh.Window(sh.Start(k)).from);
    WindowOfFreeSlot(sh, k);
    assert GridAt(sh.hours.from, k) == sh.Start(k);
    WindowIsShared(sh, k, first);
  }

  /** And so is the last one. */
  lemma LastOfWindowIsOffered(sh: Shift, k: int) returns (last: nat)
    requires sh.Valid() && sh.Free(k)
    ensures k <= last && sh.Offered(last) && sh.Window(sh.Start(last)) == sh.Window(sh.Start(k))
    ensures forall j: nat :: sh.Start(j) + sh.duration <= sh.Window(sh.Start(k)).until <==> j <= last
  {
    WindowOfFreeSlot(sh, k);
    last := k + (sh.Window(sh.Start(k)).until - sh.duration - sh.Start(k)) / SLOT_STEP;
    WindowIsShared(sh, k, last);
  }

  /** The shift seen by a `duration`-long service once the slot at `start` is booked. */
  function AfterBooking(sh: Shift, start: int, duration: int): Shift {
    sh.(booked := sh.booked + [sh.SlotAt(start)], duration := duration)
  }

  lemma ObstaclesAfterBooking(sh: Shift, start: int, duration: int, o: Range)
    ensures o in AfterBooking(sh, start, duration).Obstacles() <==>
            o in sh.Obstacles() || o == Widen(sh.SlotAt(start), sh.buffer)
  {
    var after := AfterBooking(sh, start, duration);
    ObstacleMembership(sh, o);
    ObstacleMembership(after, o);
    assert forall a :: a in after.booked <==> a in sh.booked || a == sh.SlotAt(start);
  }

  /** A grid turn inside the old window and clear of the booked slot's buffer is free. */
  lemma FreeBesideTheBooking(sh: Shift, k: int, duration: int, p: nat)
    requires sh.Valid() && sh.Free(k) && duration > 0
    requires var w := sh.Window(sh.Start(k));
             && w.from <= sh.Start(p) && sh.Start(p) + duration <= w.until
    requires Clears(Widen(sh.SlotAt(sh.Start(k)), sh.buffer), Range(sh.Start(p), sh.Start(p) + duration))
    ensures AfterBooking(sh, sh.Start(k), duration).Valid()
    ensures AfterBooking(sh, sh.Start(k), duration).Free(p)
  {
    var after := AfterBooking(sh, sh.Start(k), duration);
    var w := sh.Window(sh.Start(k));
    WindowOfFreeSlot(sh, k);
    forall o | o in after.Obstacles() ensures Clears(o, after.SlotAt(after.Start(p))) {
      ObstaclesAfterBooking(sh, sh.Start(k), duration, o);
      if o in sh.Obstacles() {
        assert Clears(o, w);
      }
    }
    FreeIffClear(after, after.Start(p));
  }

  /** Booking only adds an obstacle, so the window of a free slot of the old window shrinks. */
  lemma WindowShrinks(sh: Shift, k: int, duration: int, p: nat)
    requires sh.Valid() && sh.Free(k) && duration > 0
    requires var w := sh.Window(sh.Start(k));
             && w.from <= sh.Start(p) && sh.Start(p) + duration <= w.until
    ensures var w := sh.Window(sh.Start(k));
            var v := AfterBooking(sh, sh.Start(k), duration).Window(sh.Start(p));
            w.from <= v.from && v.until <= w.until
  {
    var after := AfterBooking(sh, sh.Start(k), duration);
    forall o | o in sh.Obstacles() ensures o in after.Obstacles() {
      ObstaclesAfterBooking(sh, sh.Start(k), duration, o);
    }
    FreeFromGrows(sh.hours.from, sh.Start(k), sh.Start(p), sh.Obstacles(), after.Obstacles());
    FreeUntilShrinks(sh.hours.until, sh.Start(k) + sh.duration, sh.Start(p) + duration,
                     sh.Obstacles(), after.Obstacles());
  }

  lemma FreeFromGrows(windowStart: int, s: int, t: int, obstacles: seq<Range>, more: seq<Range>)
    requires forall o | o in obstacles :: o in more
    requires FreeFrom(windowStart, s, obstacles) <= t
    ensures FreeFrom(windowStart, s, obstacles) <= FreeFrom(windowStart, t, more)
  {
    FreeFromIsMaximum(windowStart, s, obstacles);
    FreeFromIsMaximum(windowStart, t, more);
  }

  lemma FreeUntilShrinks(windowEnd: int, s: int, t: int, obstacles: seq<Range>, more: seq<Range>)
    requires forall o | o in obstacles :: o in more
    requires t <= FreeUntil(windowEnd, s, obstacles)
    ensures FreeUntil(windowEnd, t, more) <= FreeUntil(windowEnd, s, obstacles)
  {
    FreeUntilIsMinimum(windowEnd, s, obstacles);
    FreeUntilIsMinimum(windowEnd, t, more);
  }

  lemma FreeAfterBookingClearsIt(sh: Shift, k: int, duration: int, j: int)
    requires sh.Valid() && sh.Free(k) && duration > 0
    requires AfterBooking(sh, sh.Start(k), duration).Free(j)
    ensures Clears(Widen(sh.SlotAt(sh.Start(k)), sh.buffer), Range(sh.Start(j), sh.Start(j) + duration))
  {
    var after := AfterBooking(sh, sh.Start(k), duration);
    FreeIffClear(after, after.Start(j));
    ObstaclesAfterBooking(sh, sh.Start(k), duration, Widen(sh.SlotAt(sh.Start(k)), sh.buffer));
  }

  /** After booking slot k, a `duration`-long turn is offered inside [from, until). */
  ghost predicate OfferedWithin(sh: Shift, k: int, duration: int, from: int, until: int) {
    exists j :: AfterBooking(sh, sh.Start(k), duration).Offered(j)
                && from <= sh.Start(j) && sh.Start(j) + duration <= until
  }

  lemma OfferedWithinIntro(sh: Shift, k: int, duration: int, j: int, from: int, until: int)
    requires AfterBooking(sh, sh.Start(k), duration).Offered(j)
    requires from <= sh.Start(j) && sh.Start(j) + duration <= until
    ensures OfferedWithin(sh, k, duration, from, until)
  {
  }

  /** Beside such a turn, something is offered at or before it and at or after it. */
  lemma OfferedBeforeOrAt(sh: Shift, k: int, duration: int, p: nat)
    requires sh.Valid() && sh.Free(k) && duration > 0
    requires var w := sh.Window(sh.Start(k));
             && w.from <= sh.Start(p) && sh.Start(p) + duration <= w.until
    requires Clears(Widen(sh.SlotAt(sh.Start(k)), sh.buffer), Range(sh.Start(p), sh.Start(p) + duration))
    ensures OfferedWithin(sh, k, duration, sh.Window(sh.Start(k)).from, sh.Start(p) + duration)
  {
    FreeBesideTheBooking(sh, k, duration, p);
    WindowShrinks(sh, k, duration, p);
    var first := FirstOfWindowIsOffered(AfterBooking(sh, sh.Start(k), duration), p);
    OfferedWithinIntro(sh, k, duration, first, sh.Window(sh.Start(k)).from, sh.Start(p) + duration);
  }

  lemma OfferedAtOrAfter(sh: Shift, k: int, duration: int, p: nat)
    requires sh.Valid() && sh.Free(k) && duration > 0
    requires var w := sh.Window(sh.Start(k));
             && w.from <= sh.Start(p) && sh.Start(p) + duration <= w.until
    requires Clears(Widen(sh.SlotAt(sh.Start(k)), sh.buffer), Range(sh.Start(p), sh.Start(p) + duration))
    ensures OfferedWithin(sh, k, duration, sh.Start(p), sh.Window(sh.Start(k)).until)
  {
    FreeBesideTheBooking(sh, k, duration, p);
    WindowShrinks(sh, k, duration, p);
    var last := LastOfWindowIsOffered(AfterBooking(sh, sh.Start(k), duration), p);
    OfferedWithinIntro(sh, k, duration, last, sh.Start(p), sh.Window(sh.Start(k)).until);
  }

  lemma OfferedWithinMonotone(sh: Shift, k: int, duration: int, inner: Range, outer: Range)
    requires OfferedWithin(sh, k, duration, inner.from, inner.until)
    requires outer.from <= inner.from && inner.until <= outer.until
    ensures OfferedWithin(sh, k, duration, outer.from, outer.until)
  {
    var j :| AfterBooking(sh, sh.Start(k), duration).Offered(j)
             && inner.from <= sh.Start(j) && sh.Start(j) + duration <= inner.until;
    OfferedWithinIntro(sh, k, duration, j, outer.from, outer.until);
  }

  lemma OfferedWithinClearsTheBooking(sh: Shift, k: int, duration: int, from: int, until: int) returns (j: nat)
    requires sh.Valid() && sh.Free(k) && duration > 0
    requires OfferedWithin(sh, k, duration, from, until)
    ensures from <= sh.Start(j) && sh.Start(j) + duration <= until
    ensures Clears(Widen(sh.SlotAt(sh.Start(k)), sh.buffer), Range(sh.Start(j), sh.Start(j) + duration))
  {
    var i :| AfterBooking(sh, sh.Start(k), duration).Offered(i)
             && from <= sh.Start(i) && sh.Start(i) + duration <= until;
    FreeAfterBookingClearsIt(sh, k, duration, i);
    j := i;
  }

  /** Booking a slot leaves, on its left, something to offer exactly when a turn fits
      between the start of its window and the slot minus the buffer. */
  lemma OfferedOnTheLeft(sh: Shift, k: int, duration: int)
    requires sh.Valid() && sh.Free(k) && duration > 0
    ensures var w := sh.Window(sh.Start(k));
            OfferedWithin(sh, k, duration, w.from, sh.Start(k)) <==>
            TurnFits(sh.hours.from, w.from, sh.Start(k) - sh.buffer, duration)
  {
    var at, w := sh.Start(k), sh.Window(sh.Start(k));
    assert w.from <= at && at + sh.duration <= w.until by { WindowOfFreeSlot(sh, k); }
    if TurnFits(sh.hours.from, w.from, at - sh.buffer, duration) {
      var p: nat :| w.from <= GridAt(sh.hours.from, p) && GridAt(sh.hours.from, p) + duration <= at - sh.buffer;
      OfferedBeforeOrAt(sh, k, duration, p);
      OfferedWithinMonotone(sh, k, duration, Range(w.from, sh.Start(p) + duration), Range(w.from, at));
    }
    if OfferedWithin(sh, k, duration, w.from, at) {
      var j := OfferedWithinClearsTheBooking(sh, k, duration, w.from, at);
      assert w.from <= GridAt(sh.hours.from, j);
    }
  }

  /** The mirror image on the right. */
  lemma OfferedOnTheRight(sh: Shift, k: int, duration: int)
    requires sh.Valid() && sh.Free(k) && duration > 0
    ensures var w := sh.Window(sh.Start(k));
            var end := sh.Start(k) + sh.duration;
            OfferedWithin(sh, k, duration, end, w.until) <==>
            TurnFits(sh.hours.from, end + sh.buffer, w.until, duration)
  {
    var at, w := sh.Start(k), sh.Window(sh.Start(k));
    var end := at + sh.duration;
    assert w.from <= at && end <= w.until by { WindowOfFreeSlot(sh, k); }
    if TurnFits(sh.hours.from, end + sh.buffer, w.until, duration) {
      var p: nat :| end + sh.buffer <= GridAt(sh.hours.from, p) && GridAt(sh.hours.from, p) + duration <= w.until;
      OfferedAtOrAfter(sh, k, duration, p);
      OfferedWithinMonotone(sh, k, duration, Range(sh.Start(p), w.until), Range(end, w.until));
    }
    if OfferedWithin(sh, k, duration, end, w.until) {
      var j := OfferedWithinClearsTheBooking(sh, k, duration, end, w.until);
      assert end + sh.buffer <= GridAt(sh.hours.from, j);
    }
  }

  /** The slot touches neither edge of its free window. */
  predicate Interior(sh: Shift, k: int) {
    var w := sh.Window(sh.Start(k));
    && sh.Start(k) != FirstGridStart(sh.hours.from, w.from)
    && sh.Start(k) + SLOT_STEP + sh.duration <= w.until
  }

  /** Booking a free slot leaves something to offer on both sides exactly when, on each
      side, the first grid turn of that length fits without entering the buffer. */
  lemma SellableSidesExactly(sh: Shift, k: int, duration: int)
    requires sh.Valid() && sh.Free(k) && duration > 0
    ensures var w := sh.Window(sh.Start(k));
            var end := sh.Start(k) + sh.duration;
            (OfferedWithin(sh, k, duration, w.from, sh.Start(k)) && OfferedWithin(sh, k, duration, end, w.until))
            <==>
            && FirstGridStart(sh.hours.from, w.from) + duration <= sh.Start(k) - sh.buffer
            && FirstGridStart(sh.hours.from, end + sh.buffer) + duration <= w.until
  {
    var w := sh.Window(sh.Start(k));
    TurnFitsIff(sh.hours.from, w.from, sh.Start(k) - sh.buffer, duration);
    TurnFitsIff(sh.hours.from, sh.Start(k) + sh.duration + sh.buffer, w.until, duration);
    OfferedOnTheLeft(sh, k, duration);
    OfferedOnTheRight(sh, k, duration);
  }

  /** What the filter is for. Without a buffer, booking any offered interior slot leaves a
      slot to offer on both sides, to the shortest service of the selection. */
  lemma BookingLeavesSellableSides(sh: Shift, k: int)
    requires sh.Valid() && sh.Offered(k) && !sh.forceAll && Interior(sh, k)
    requires sh.gapDuration.GetOr(sh.duration) > 0
    requires sh.buffer == 0
    ensures var w := sh.Window(sh.Start(k));
            var gap := sh.gapDuration.GetOr(sh.duration);
            && OfferedWithin(sh, k, gap, w.from, sh.Start(k))
            && OfferedWithin(sh, k, gap, sh.Start(k) + sh.duration, w.until)
  {
    SellableSidesExactly(sh, k, sh.gapDuration.GetOr(sh.duration));
  }

  /** With a buffer the filter's promise fails: it measures each side up to the slot, but the
      booked turn also takes the buffer. On any day, hours 09:00-13:00, one-hour turns, 15-minute
      buffer: 10:00 is offered, it is no edge of its window, and once booked nothing is left
      before it. */
  lemma BufferBreaksThePromise(day: int) returns (sh: Shift, k: int)
    ensures sh.Valid() && sh.Offered(k) && !sh.forceAll && Interior(sh, k) && sh.buffer == 15 * MINUTE
    ensures sh.hours == Range(DayStart(day) + 9 * HOUR, DayStart(day) + 13 * HOUR)
    ensures !OfferedWithin(sh, k, sh.duration, sh.Window(sh.Start(k)).from, sh.Start(k))
  {
    var nine := DayStart(day) + 9 * HOUR;
    sh := Shift("s", Range(nine, nine + 4 * HOUR), HOUR, None, [], [], 15 * MINUTE, 0, nine - HOUR, false, false);
    k := 4;
    assert sh.Obstacles() == [];
    assert sh.Window(sh.Start(k)) == sh.hours;
    TurnFitsIff(nine, nine, sh.Start(k) - sh.buffer, HOUR);
    OfferedOnTheLeft(sh, k, HOUR);
  }
}
