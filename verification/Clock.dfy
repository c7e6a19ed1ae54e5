/** Instants are integers: microseconds since 0001-01-01T00:00Z. Argentina is the
    constant offset UTC-3, so a local calendar day runs from 03:00Z to 03:00Z. */
module Clock {
  const SECOND: int := 1_000_000
  const MINUTE: int := 60 * SECOND
  const HOUR: int := 60 * MINUTE
  const DAY: int := 24 * HOUR
  const ARGENTINA_OFFSET: int := 3 * HOUR

  /** Calendar days are numbered from 0001-01-01 = 0; Python's `date` ends at 9999-12-31. */
  const MAX_DAY: int := 3_652_058

  /** The half-open range of instants [from, until). */
  datatype Range = Range(from: int, until: int) {
    predicate Valid() {
      from < until
    }

    predicate Contains(t: int) {
      from <= t < until
    }

    predicate Overlaps(other: Range) {
      from < other.until && other.from < until
    }
  }

  datatype Option<+T> = None | Some(value: T) {
    function GetOr(default: T): T {
      match this
      case Some(v) => v
      case None => default
    }
  }

  function Max(a: int, b: int): int {
    if a < b then b else a
  }

  function Min(a: int, b: int): int {
    if a < b then a else b
  }

  function UtcDay(t: int): int {
    t / DAY
  }

  function LocalDay(t: int): int {
    (t - ARGENTINA_OFFSET) / DAY
  }

  /** Local midnight of `day`. */
  function DayStart(day: int): int {
    day * DAY + ARGENTINA_OFFSET
  }

  /** `time.max` of `day`: one microsecond before the next local midnight. */
  function DayEnd(day: int): int {
    DayStart(day) + DAY - 1
  }

  lemma LocalDayBounds(t: int)
    ensures DayStart(LocalDay(t)) <= t <= DayEnd(LocalDay(t))
  {
  }

  lemma UtcDayIsLocalOrNext(t: int)
    ensures LocalDay(t) <= UtcDay(t) <= LocalDay(t) + 1
  {
  }

  lemma LocalDayMonotone(s: int, t: int)
    requires s <= t
    ensures LocalDay(s) <= LocalDay(t)
  {
    LocalDayBounds(s);
    LocalDayBounds(t);
  }
}
