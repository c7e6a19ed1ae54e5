/** Keyset pagination: opaque cursors over (instant, id) and the pages they lead to. */
module Keyset {
  import opened Clock
  import Base64

  datatype Key = Key(instant: int, id: string)

  datatype Row = Row(key: Key, data: int)

  // ---------------------------------------------------------------- cursors

  /** The ISO text of an instant; reading a text without zone, or no instant at all, is None. */
  datatype Iso = Iso(write: int -> string, read: string -> Option<int>)

  predicate IsAscii(s: string) {
    forall i | 0 <= i < |s| :: s[i] as int < 128
  }

  /** Instants of the years 1 to 9999, the ones a datetime can hold. */
  predicate InCalendar(t: int) {
    0 <= t < (MAX_DAY + 1) * DAY
  }

  /** What the cursor needs of the ISO codec. */
  ghost predicate Faithful(iso: Iso) {
    forall t | InCalendar(t) :: FaithfulAt(iso, t)
  }

  predicate FaithfulAt(iso: Iso, t: int) {
    IsAscii(iso.write(t)) && '|' !in iso.write(t) && iso.read(iso.write(t)) == Some(t)
  }

  predicate ValidId(id: string) {
    && 1 <= |id| <= 64
    && forall i | 0 <= i < |id| ::
         'A' <= id[i] <= 'Z' || 'a' <= id[i] <= 'z' || '0' <= id[i] <= '9' || id[i] == '_' || id[i] == '-'
  }

  predicate ValidKey(key: Key) {
    InCalendar(key.instant) && ValidId(key.id)
  }

  function Bytes(s: string): seq<Base64.byte>
    requires IsAscii(s)
  {
    seq(|s|, i requires 0 <= i < |s| => s[i] as int as Base64.byte)
  }

  function Text(bytes: seq<Base64.byte>): Option<string> {
    if forall i | 0 <= i < |bytes| :: bytes[i] < 128
    then Some(seq(|bytes|, i requires 0 <= i < |bytes| => bytes[i] as char))
    else None
  }

  /** Position of the first bar; the length when there is none. */
  function FirstBar(s: string): nat {
    if s == "" || s[0] == '|' then 0 else 1 + FirstBar(s[1..])
  }

  function EncodeCursor(iso: Iso, key: Key): string
    requires IsAscii(iso.write(key.instant) + "|" + key.id)
  {
    Base64.TrimEquals(Base64.Encode(Bytes(iso.write(key.instant) + "|" + key.id)))
  }

  /** None is the invalid cursor, a 422. */
  function DecodeCursor(iso: Iso, cursor: string): Option<Key> {
    match Base64.Decode(Base64.Pad(cursor))
    case None => None
    case Some(bytes) =>
      match Text(bytes)
      case None => None
      case Some(raw) =>
        var bar := FirstBar(raw);
        if bar >= |raw| then None
        else
          var instant, id := iso.read(raw[..bar]), raw[bar + 1..];
          if instant.None? || !ValidId(id) then None else Some(Key(instant.value, id))
  }

  lemma {:induction false} FirstBarIs(before: string, after: string)
    requires '|' !in before
    ensures FirstBar(before + "|" + after) == |before|
  {
    var s := before + "|" + after;
    if before != "" {
      assert s[0] == before[0] && s[1..] == before[1..] + "|" + after;
      FirstBarIs(before[1..], after);
    }
  }

  lemma KeyIsAscii(iso: Iso, key: Key)
    requires Faithful(iso) && ValidKey(key)
    ensures IsAscii(iso.write(key.instant) + "|" + key.id)
  {
    assert FaithfulAt(iso, key.instant);
  }

  /** A cursor gives back the very key it was made of. */
  lemma CursorRoundTrip(iso: Iso, key: Key)
    requires Faithful(iso) && ValidKey(key)
    ensures IsAscii(iso.write(key.instant) + "|" + key.id)
    ensures DecodeCursor(iso, EncodeCursor(iso, key)) == Some(key)
  {
    KeyIsAscii(iso, key);
    assert FaithfulAt(iso, key.instant);
    var before := iso.write(key.instant);
    var raw := before + "|" + key.id;
    Base64.RoundTrip(Bytes(raw));
    assert Text(Bytes(raw)).value == raw;
    FirstBarIs(before, key.id);
    assert raw[..|before|] == before && raw[|before| + 1..] == key.id;
  }

  // ---------------------------------------------------------------- the order of the rows

  predicate LessText(a: string, b: string) {
    b != "" && (a == "" || a[0] < b[0] || (a[0] == b[0] && LessText(a[1..], b[1..])))
  }

  predicate Less(a: Key, b: Key) {
    a.instant < b.instant || (a.instant == b.instant && LessText(a.id, b.id))
  }

  /** The filter as the query writes it, with the bound on the instant on its own. */
  predicate BeforeKey(row: Key, key: Key) {
    && row.instant <= key.instant
    && (row.instant < key.instant || (row.instant == key.instant && LessText(row.id, key.id)))
  }

  lemma BeforeKeyIsLess(row: Key, key: Key)
    ensures BeforeKey(row, key) <==> Less(row, key)
  {
  }

  lemma {:induction false} TextsAreOrdered(a: string, b: string)
    ensures a == b ==> !LessText(a, b)
    ensures a != b ==> (LessText(a, b) <==> !LessText(b, a))
  {
    if a != "" && b != "" {
      TextsAreOrdered(a[1..], b[1..]);
      assert a == [a[0]] + a[1..] && b == [b[0]] + b[1..];
    }
  }

  lemma {:induction false} LessTextIsTransitive(a: string, b: string, c: string)
    requires LessText(a, b) && LessText(b, c)
    ensures LessText(a, c)
  {
    if a != "" && a[0] == b[0] && b[0] == c[0] {
      LessTextIsTransitive(a[1..], b[1..], c[1..]);
    }
  }

  /** The keys are totally ordered. */
  lemma LessIsAnOrder(a: Key, b: Key, c: Key)
    ensures !Less(a, a)
    ensures a != b ==> (Less(a, b) <==> !Less(b, a))
    ensures Less(a, b) && Less(b, c) ==> Less(a, c)
  {
    TextsAreOrdered(a.id, a.id);
    TextsAreOrdered(a.id, b.id);
    if Less(a, b) && Less(b, c) && a.instant == b.instant == c.instant {
      LessTextIsTransitive(a.id, b.id, c.id);
    }
  }

  predicate Descending(rows: seq<Row>) {
    forall i, j | 0 <= i < j < |rows| :: Less(rows[j].key, rows[i].key)
  }

  /** Ids are a primary key, and public ids; instants are in the calendar. */
  predicate Table(rows: seq<Row>) {
    && (forall i | 0 <= i < |rows| :: ValidKey(rows[i].key))
    && (forall i, j | 0 <= i < j < |rows| :: rows[i].key.id != rows[j].key.id)
  }

  function Insert(row: Row, sorted: seq<Row>): seq<Row> {
    if sorted == [] || Less(sorted[0].key, row.key) then [row] + sorted
    else [sorted[0]] + Insert(row, sorted[1..])
  }

  function OrderBy(rows: seq<Row>): seq<Row> {
    if rows == [] then [] else Insert(rows[0], OrderBy(rows[1..]))
  }

  ghost predicate SameRows(a: seq<Row>, b: seq<Row>) {
    forall r :: r in a <==> r in b
  }

  lemma {:induction false} InsertKeepsOrder(row: Row, sorted: seq<Row>)
    requires Descending(sorted) && forall r | r in sorted :: r.key != row.key
    ensures Descending(Insert(row, sorted)) && SameRows(Insert(row, sorted), [row] + sorted)
    ensures |Insert(row, sorted)| == |sorted| + 1
  {
    if sorted == [] {
    } else if Less(sorted[0].key, row.key) {
      forall j | 0 <= j < |sorted|
        ensures Less(sorted[j].key, row.key)
      {
        if j > 0 {
          LessIsAnOrder(sorted[j].key, sorted[0].key, row.key);
        }
      }
    } else {
      LessIsAnOrder(row.key, sorted[0].key, row.key);
      InsertKeepsOrder(row, sorted[1..]);
      var tail := Insert(row, sorted[1..]);
      forall r | r in tail
        ensures Less(r.key, sorted[0].key)
      {
        assert r in [row] + sorted[1..];
      }
      InsertedSameRows(row, sorted, tail);
    }
  }

  lemma InsertedSameRows(row: Row, sorted: seq<Row>, tail: seq<Row>)
    requires sorted != [] && SameRows(tail, [row] + sorted[1..])
    ensures SameRows([sorted[0]] + tail, [row] + sorted)
  {
    forall r
      ensures r in [sorted[0]] + tail <==> r in [row] + sorted
    {
      assert r in tail <==> r in [row] + sorted[1..];
      assert sorted == [sorted[0]] + sorted[1..];
    }
  }

  lemma {:induction false} OrderByIs(rows: seq<Row>)
    requires Table(rows)
    ensures Descending(OrderBy(rows)) && SameRows(OrderBy(rows), rows) && |OrderBy(rows)| == |rows|
  {
    if rows != [] {
      OrderByIs(rows[1..]);
      forall r | r in OrderBy(rows[1..])
        ensures r.key != rows[0].key
      {
        assert r in rows[1..];
      }
      InsertKeepsOrder(rows[0], OrderBy(rows[1..]));
      assert rows == [rows[0]] + rows[1..];
    }
  }

  /** Only one list has these rows in descending order. */
  lemma {:induction false} OneDescendingList(a: seq<Row>, b: seq<Row>)
    requires Descending(a) && Descending(b) && SameRows(a, b)
    ensures a == b
  {
    if a == [] && b != [] {
      SomeRow(b);
    } else if a != [] && b == [] {
      SomeRow(a);
    } else if a != [] && b != [] {
      SomeRow(a);
      SameFirst(a, b);
      forall r
        ensures r in a[1..] <==> r in b[1..]
      {
        assert r in a <==> r in b;
        TailHasOthers(a, r);
        TailHasOthers(b, r);
      }
      OneDescendingList(a[1..], b[1..]);
    }
  }

  lemma SomeRow(a: seq<Row>)
    requires a != []
    ensures exists r :: r in a
  {
    assert a[0] in a;
  }

  lemma SameFirst(a: seq<Row>, b: seq<Row>)
    requires Descending(a) && Descending(b) && SameRows(a, b) && a != [] && b != []
    ensures a[0] == b[0]
  {
    assert a[0] in b;
    assert b[0] in a;
    LessIsAnOrder(a[0].key, b[0].key, a[0].key);
    LessIsAnOrder(b[0].key, b[0].key, a[0].key);
  }

  lemma TailHasOthers(a: seq<Row>, r: Row)
    requires Descending(a) && a != []
    ensures r in a[1..] <==> r in a && r != a[0]
  {
    LessIsAnOrder(a[0].key, a[0].key, a[0].key);
    assert a == [a[0]] + a[1..];
  }

  // ---------------------------------------------------------------- pages

  /** Where a reader stands: before the first page, holding a cursor, at the end, or refused. */
  datatype Place = AtStart | AtCursor(cursor: string) | AtEnd | Refused

  function Where(rows: seq<Row>, key: Key): seq<Row> {
    if rows == [] then []
    else (if BeforeKey(rows[0].key, key) then [rows[0]] else []) + Where(rows[1..], key)
  }

  function Take(rows: seq<Row>, n: nat): seq<Row> {
    if |rows| <= n then rows else rows[..n]
  }

  datatype Page = Page(rows: seq<Row>, next: Place)

  /** One more row than the page says whether another page follows; its cursor is the key of
      the last row shown. */
  function Cut(iso: Iso, found: seq<Row>, limit: nat): Page
    requires limit >= 1 && Faithful(iso) && forall r | r in found :: ValidKey(r.key)
  {
    var fetched := Take(found, limit + 1);
    if |fetched| > limit then
      KeyIsAscii(iso, fetched[limit - 1].key);
      Page(fetched[..limit], AtCursor(EncodeCursor(iso, fetched[limit - 1].key)))
    else Page(fetched, AtEnd)
  }

  /** The rows a query finds from a place on, newest first. */
  function Found(iso: Iso, rows: seq<Row>, place: Place): Option<seq<Row>> {
    match place
    case AtStart => Some(OrderBy(rows))
    case AtCursor(cursor) =>
      (match DecodeCursor(iso, cursor)
       case None => None
       case Some(key) => Some(OrderBy(Where(rows, key))))
    case _ => None
  }

  lemma {:induction false} WhereIs(rows: seq<Row>, key: Key)
    requires Table(rows)
    ensures Table(Where(rows, key))
    ensures forall r :: r in Where(rows, key) <==> r in rows && Less(r.key, key)
  {
    if rows != [] {
      WhereIs(rows[1..], key);
      var rest := Where(rows[1..], key);
      assert rows == [rows[0]] + rows[1..];
      forall i | 0 <= i < |rest|
        ensures rest[i].key.id != rows[0].key.id
      {
        assert rest[i] in rows[1..];
      }
    }
  }

  lemma FoundIs(iso: Iso, rows: seq<Row>, place: Place)
    requires Table(rows) && Found(iso, rows, place).Some?
    ensures var found := Found(iso, rows, place).value;
            && Descending(found)
            && forall r :: r in found <==>
                 r in rows && (place.AtStart? || Less(r.key, DecodeCursor(iso, place.cursor).value))
  {
    match place
    case AtStart => OrderByIs(rows);
    case AtCursor(cursor) =>
      var key := DecodeCursor(iso, cursor).value;
      WhereIs(rows, key);
      OrderByIs(Where(rows, key));
  }

  lemma FoundKeysAreValid(iso: Iso, rows: seq<Row>, place: Place)
    requires Table(rows) && Found(iso, rows, place).Some?
    ensures forall r | r in Found(iso, rows, place).value :: ValidKey(r.key)
  {
    FoundIs(iso, rows, place);
  }

  function ReadPage(iso: Iso, rows: seq<Row>, place: Place, limit: nat): Page
    requires limit >= 1 && Faithful(iso) && Table(rows)
  {
    match Found(iso, rows, place)
    case None => Page([], if place.AtEnd? then AtEnd else Refused)
    case Some(found) =>
      FoundKeysAreValid(iso, rows, place);
      Cut(iso, found, limit)
  }

  /** What a reader who follows the cursors has seen after n pages, when the table may be a
      different one at each page. */
  datatype Reading = Reading(seen: seq<Row>, place: Place)

  ghost predicate Tables(tables: nat -> seq<Row>) {
    forall n {:trigger Table(tables(n))} :: Table(tables(n))
  }

  /** The state after n applications of `turn`, from before the first page. */
  ghost function Iterate(turn: (nat, Reading) -> Reading, n: nat): Reading {
    if n == 0 then Reading([], AtStart) else turn(n - 1, Iterate(turn, n - 1))
  }

  ghost function Turns(iso: Iso, tables: nat -> seq<Row>, limit: nat): (nat, Reading) -> Reading
    requires limit >= 1 && Faithful(iso) && Tables(tables)
  {
    (m: nat, g: Reading) => Turn(iso, tables(m), g, limit)
  }

  ghost function After(iso: Iso, tables: nat -> seq<Row>, limit: nat, n: nat): Reading
    requires limit >= 1 && Faithful(iso) && Tables(tables)
  {
    Iterate(Turns(iso, tables, limit), n)
  }

  ghost function Turn(iso: Iso, rows: seq<Row>, r: Reading, limit: nat): Reading
    requires limit >= 1 && Faithful(iso) && Table(rows)
  {
    var page := ReadPage(iso, rows, r.place, limit);
    Reading(r.seen + page.rows, page.next)
  }

  /** A table that does not change. */
  function Still(rows: seq<Row>): nat -> seq<Row> {
    _ => rows
  }

  /** Row r is not after the place of the reader: it is above the last row seen, or it. */
  predicate Passed(seen: seq<Row>, place: Place, r: Row) {
    place.AtEnd? || (place.AtCursor? && seen != [] && !Less(r.key, seen[|seen| - 1].key))
  }

  /** The cursor is the last row seen; what was seen is in order. */
  ghost predicate Sound(iso: Iso, g: Reading) {
    && !g.place.Refused?
    && Descending(g.seen)
    && (g.place.AtStart? ==> g.seen == [])
    && (g.place.AtCursor? ==>
          g.seen != [] && DecodeCursor(iso, g.place.cursor) == Some(g.seen[|g.seen| - 1].key))
  }

  lemma CutIs(iso: Iso, found: seq<Row>, limit: nat)
    requires limit >= 1 && Faithful(iso) && Descending(found) && forall r | r in found :: ValidKey(r.key)
    ensures var page := Cut(iso, found, limit);
            && page.rows == found[..if |found| < limit then |found| else limit]
            && (page.next.AtEnd? <==> |found| <= limit)
            && (page.next.AtCursor? <==> |found| > limit)
            && (page.next.AtCursor? ==> DecodeCursor(iso, page.next.cursor) == Some(page.rows[limit - 1].key))
  {
    if |found| > limit {
      CursorRoundTrip(iso, found[limit - 1].key);
    }
  }

  lemma AtEndNothingChanges(iso: Iso, rows: seq<Row>, g: Reading, limit: nat)
    requires limit >= 1 && Faithful(iso) && Table(rows) && g.place.AtEnd?
    ensures Turn(iso, rows, g, limit) == g
  {
    assert g.seen + [] == g.seen;
  }

  /** The reader went from g to t by showing the first `limit` rows of those found. */
  ghost predicate Showed(iso: Iso, g: Reading, t: Reading, found: seq<Row>, limit: nat) {
    && t.seen == g.seen + Take(found, limit)
    && !t.place.AtStart? && !t.place.Refused?
    && (t.place.AtEnd? <==> |found| <= limit)
    && (t.place.AtCursor? ==>
          |found| > limit >= 1 && DecodeCursor(iso, t.place.cursor) == Some(found[limit - 1].key))
  }

  /** The rows found are those of the table below the last row seen, newest first. */
  ghost predicate Remaining(rows: seq<Row>, seen: seq<Row>, found: seq<Row>) {
    && Descending(found)
    && forall r :: r in found <==> r in rows && (seen == [] || Less(r.key, seen[|seen| - 1].key))
  }

  lemma TurnIs(iso: Iso, rows: seq<Row>, g: Reading, limit: nat) returns (found: seq<Row>)
    requires limit >= 1 && Faithful(iso) && Table(rows) && Sound(iso, g) && !g.place.AtEnd?
    ensures Remaining(rows, g.seen, found) && Showed(iso, g, Turn(iso, rows, g, limit), found, limit)
  {
    FoundIs(iso, rows, g.place);
    FoundKeysAreValid(iso, rows, g.place);
    found := Found(iso, rows, g.place).value;
    CutIs(iso, found, limit);
  }

  lemma ShowedKeepsSound(iso: Iso, rows: seq<Row>, g: Reading, t: Reading, found: seq<Row>, limit: nat)
    requires limit >= 1 && Sound(iso, g) && Remaining(rows, g.seen, found) && Showed(iso, g, t, found, limit)
    ensures Sound(iso, t)
  {
    Extends(g.seen, found, Take(found, limit));
    if t.place.AtCursor? {
      LastShown(g.seen, found, limit);
    }
  }

  lemma TurnKeepsSound(iso: Iso, rows: seq<Row>, g: Reading, limit: nat)
    requires limit >= 1 && Faithful(iso) && Table(rows) && Sound(iso, g) && !g.place.AtEnd?
    ensures Sound(iso, Turn(iso, rows, g, limit))
  {
    var found := TurnIs(iso, rows, g, limit);
    ShowedKeepsSound(iso, rows, g, Turn(iso, rows, g, limit), found, limit);
  }

  /** Of the rows found, those not below the last one shown are shown. */
  lemma ShownWhenPassed(found: seq<Row>, limit: nat, r: Row)
    requires limit >= 1 && Descending(found) && r in found
    requires |found| <= limit || !Less(r.key, found[limit - 1].key)
    ensures r in Take(found, limit)
  {
    if |found| > limit {
      PrefixHolds(found, limit, r);
    }
  }

  lemma ShowedSkipsNothing(iso: Iso, rows: seq<Row>, g: Reading, t: Reading, found: seq<Row>, limit: nat, r: Row)
    requires limit >= 1 && Sound(iso, g) && !g.place.AtEnd?
    requires Remaining(rows, g.seen, found) && Showed(iso, g, t, found, limit)
    ensures r in rows && Passed(t.seen, t.place, r) ==> r in t.seen || Passed(g.seen, g.place, r)
  {
    if r in found && Passed(t.seen, t.place, r) {
      if t.place.AtCursor? {
        LastShown(g.seen, found, limit);
      }
      ShownWhenPassed(found, limit, r);
    }
  }

  lemma LastShown(seen: seq<Row>, found: seq<Row>, limit: nat)
    requires 1 <= limit < |found|
    ensures var all := seen + Take(found, limit); all != [] && all[|all| - 1] == found[limit - 1]
  {
  }

  lemma ShowedIsOfTheTable(rows: seq<Row>, seen: seq<Row>, found: seq<Row>, limit: nat, r: Row)
    requires Remaining(rows, seen, found)
    ensures r in seen + Take(found, limit) ==> r in rows || r in seen
    ensures r in seen ==> r in seen + Take(found, limit)
  {
  }

  /** A page shows only rows of its table, and all of those between its two places. */
  lemma PageSkipsNothing(iso: Iso, rows: seq<Row>, g: Reading, limit: nat, r: Row)
    requires limit >= 1 && Faithful(iso) && Table(rows) && Sound(iso, g) && !g.place.AtEnd?
    ensures var t := Turn(iso, rows, g, limit);
            && (r in t.seen ==> r in rows || r in g.seen)
            && (r in g.seen ==> r in t.seen)
            && (r in rows && Passed(t.seen, t.place, r) ==> r in t.seen || Passed(g.seen, g.place, r))
  {
    var found := TurnIs(iso, rows, g, limit);
    ShowedSkipsNothing(iso, rows, g, Turn(iso, rows, g, limit), found, limit, r);
    ShowedIsOfTheTable(rows, g.seen, found, limit, r);
  }

  /** Rows of a descending list that are not below its first `limit` are among them. */
  lemma PrefixHolds(found: seq<Row>, limit: nat, r: Row)
    requires limit >= 1 && Descending(found) && r in found
    ensures |found| > limit && !Less(r.key, found[limit - 1].key) ==> r in found[..limit]
  {
    var i :| 0 <= i < |found| && found[i] == r;
    if i < limit <= |found| {
      assert found[..limit][i] == r;
    }
  }

  lemma Extends(seen: seq<Row>, found: seq<Row>, page: seq<Row>)
    requires Descending(seen) && Descending(found) && page <= found
    requires seen != [] ==> forall r | r in found :: Less(r.key, seen[|seen| - 1].key)
    ensures Descending(seen + page)
  {
    var all := seen + page;
    forall i, j | 0 <= i < j < |all|
      ensures Less(all[j].key, all[i].key)
    {
      if i < |seen| <= j {
        assert all[j] == found[j - |seen|];
        assert found[j - |seen|] in found;
        LessIsAnOrder(all[j].key, seen[|seen| - 1].key, all[i].key);
      }
    }
  }

  // ---------------------------------------------------------------- main results

  /** What holds before the first page, and every page carries on, holds after any number. */
  lemma {:induction false} PageByPage(turn: (nat, Reading) -> Reading, n: nat, p: (nat, Reading) -> bool)
    requires p(0, Reading([], AtStart))
    requires forall m: nat, g | p(m, g) :: p(m + 1, turn(m, g))
    ensures p(n, Iterate(turn, n))
  {
    if n > 0 {
      PageByPage(turn, n - 1, p);
    }
  }

  lemma EveryTurnKeepsSound(iso: Iso, rows: seq<Row>, g: Reading, limit: nat)
    requires limit >= 1 && Faithful(iso) && Table(rows) && Sound(iso, g)
    ensures Sound(iso, Turn(iso, rows, g, limit))
  {
    if g.place.AtEnd? {
      AtEndNothingChanges(iso, rows, g, limit);
    } else {
      TurnKeepsSound(iso, rows, g, limit);
    }
  }

  /** Whatever happens to the table between pages, the rows seen are in strictly descending
      order, so none is seen twice, and no cursor is ever refused. */
  lemma NothingTwice(iso: Iso, tables: nat -> seq<Row>, limit: nat, n: nat)
    requires limit >= 1 && Faithful(iso) && Tables(tables)
    ensures Sound(iso, After(iso, tables, limit, n))
  {
    var turn := Turns(iso, tables, limit);
    var p := (m: nat, g: Reading) => Sound(iso, g);
    forall m: nat, g | p(m, g)
      ensures p(m + 1, turn(m, g))
    {
      EveryTurnKeepsSound(iso, tables(m), g, limit);
    }
    PageByPage(turn, n, p);
  }

  lemma TurnSkipsNothing(iso: Iso, rows: seq<Row>, g: Reading, limit: nat, r: Row)
    requires limit >= 1 && Faithful(iso) && Table(rows) && Sound(iso, g)
    ensures var t := Turn(iso, rows, g, limit);
            && (r in t.seen ==> r in rows || r in g.seen)
            && (r in g.seen ==> r in t.seen)
            && (r in rows && Passed(t.seen, t.place, r) ==> r in t.seen || Passed(g.seen, g.place, r))
  {
    if g.place.AtEnd? {
      AtEndNothingChanges(iso, rows, g, limit);
    } else {
      PageSkipsNothing(iso, rows, g, limit, r);
    }
  }

  predicate InTable(tables: nat -> seq<Row>, k: nat, r: Row) {
    r in tables(k)
  }

  /** The row is in the table at each of the first n pages. */
  ghost predicate Always(tables: nat -> seq<Row>, n: nat, r: Row) {
    forall k: nat | k < n :: InTable(tables, k, r)
  }

  ghost predicate Sometime(tables: nat -> seq<Row>, n: nat, r: Row) {
    exists k: nat :: k < n && InTable(tables, k, r)
  }

  /** What n pages owe to a row. */
  ghost predicate Kept(tables: nat -> seq<Row>, n: nat, r: Row, g: Reading) {
    && (Always(tables, n, r) && Passed(g.seen, g.place, r) ==> r in g.seen)
    && (r in g.seen ==> Sometime(tables, n, r))
  }

  lemma OnePageKeeps(tables: nat -> seq<Row>, n: nat, r: Row, g: Reading, t: Reading)
    requires n >= 1 && Kept(tables, n - 1, r, g)
    requires (r in t.seen ==> InTable(tables, n - 1, r) || r in g.seen) && (r in g.seen ==> r in t.seen)
    requires InTable(tables, n - 1, r) && Passed(t.seen, t.place, r) ==> r in t.seen || Passed(g.seen, g.place, r)
    ensures Kept(tables, n, r, t)
  {
    if Always(tables, n, r) {
      assert InTable(tables, n - 1, r) && Always(tables, n - 1, r);
    }
    if Sometime(tables, n - 1, r) {
      var k: nat :| k < n - 1 && InTable(tables, k, r);
    }
  }

  /** Nothing is skipped: a row that is in the table at every page was seen once the reader
      is past it; and every row seen was in the table of some page. */
  lemma NothingSkipped(iso: Iso, tables: nat -> seq<Row>, limit: nat, n: nat, r: Row)
    requires limit >= 1 && Faithful(iso) && Tables(tables)
    ensures Kept(tables, n, r, After(iso, tables, limit, n))
  {
    var turn := Turns(iso, tables, limit);
    var p := (m: nat, g: Reading) => Sound(iso, g) && Kept(tables, m, r, g);
    NothingKept(tables, r);
    forall m: nat, g | p(m, g)
      ensures p(m + 1, turn(m, g))
    {
      EveryTurnKeepsSound(iso, tables(m), g, limit);
      TurnKeeps(iso, tables, limit, m + 1, r, g);
    }
    PageByPage(turn, n, p);
  }

  lemma NothingKept(tables: nat -> seq<Row>, r: Row)
    ensures Kept(tables, 0, r, Reading([], AtStart))
  {
  }

  lemma TurnKeeps(iso: Iso, tables: nat -> seq<Row>, limit: nat, n: nat, r: Row, g: Reading)
    requires limit >= 1 && Faithful(iso) && n >= 1 && Table(tables(n - 1)) && Sound(iso, g)
    requires Kept(tables, n - 1, r, g)
    ensures Kept(tables, n, r, Turn(iso, tables(n - 1), g, limit))
  {
    TurnSkipsNothing(iso, tables(n - 1), g, limit, r);
    OnePageKeeps(tables, n, r, g, Turn(iso, tables(n - 1), g, limit));
  }

  /** With a table that stays, n pages show its first n * limit rows, newest first, and the
      reading ends at the first page that shows them all. */
  lemma PagesAreSlices(iso: Iso, rows: seq<Row>, limit: nat, n: nat)
    requires limit >= 1 && Faithful(iso) && Table(rows)
    ensures Shows(After(iso, Still(rows), limit, n), OrderBy(rows), Capacity(n, limit))
  {
    OrderByIs(rows);
    PagesAreSlicesOf(iso, rows, OrderBy(rows), limit, n);
  }

  /** The same of any list of the rows in order. */
  lemma PagesAreSlicesOf(iso: Iso, rows: seq<Row>, all: seq<Row>, limit: nat, n: nat)
    requires limit >= 1 && Faithful(iso) && Table(rows) && Descending(all) && SameRows(all, rows)
    ensures Shows(After(iso, Still(rows), limit, n), all, Capacity(n, limit))
  {
    var turn := Turns(iso, Still(rows), limit);
    var p := (m: nat, g: Reading) => Sound(iso, g) && Shows(g, all, Capacity(m, limit));
    assert p(0, Reading([], AtStart)) by {
      assert Capacity(0, limit) == 0;
      NothingShown(all);
    }
    forall m: nat, g | p(m, g)
      ensures p(m + 1, turn(m, g))
    {
      NextSlice(iso, rows, all, g, limit, m);
    }
    PageByPage(turn, n, p);
  }

  lemma NextSlice(iso: Iso, rows: seq<Row>, all: seq<Row>, g: Reading, limit: nat, m: nat)
    requires limit >= 1 && Faithful(iso) && Table(rows) && Descending(all) && SameRows(all, rows)
    requires Sound(iso, g) && Shows(g, all, Capacity(m, limit))
    ensures Sound(iso, Turn(iso, rows, g, limit))
    ensures Shows(Turn(iso, rows, g, limit), all, Capacity(m + 1, limit))
  {
    EveryTurnKeepsSound(iso, rows, g, limit);
    TurnShowsMore(iso, rows, all, g, limit, Capacity(m, limit));
  }

  lemma NothingShown(all: seq<Row>)
    ensures Shows(Reading([], AtStart), all, 0)
  {
  }

  function Capacity(pages: nat, limit: nat): nat {
    if pages == 0 then 0 else Capacity(pages - 1, limit) + limit
  }

  lemma {:induction false} CapacityIs(pages: nat, limit: nat)
    ensures Capacity(pages, limit) == pages * limit
  {
    if pages > 0 {
      CapacityIs(pages - 1, limit);
      assert pages * limit == (pages - 1) * limit + limit;
    }
  }

  /** The reader has seen the first `count` rows of the list, and knows when that is all. */
  predicate Shows(g: Reading, all: seq<Row>, count: nat) {
    && g.seen == Take(all, count)
    && (g.place.AtStart? <==> count == 0)
    && (g.place.AtEnd? <==> count > 0 && |all| <= count)
  }

  lemma TurnShowsMore(iso: Iso, rows: seq<Row>, all: seq<Row>, g: Reading, limit: nat, count: nat)
    requires limit >= 1 && Faithful(iso) && Table(rows) && Sound(iso, g)
    requires Descending(all) && SameRows(all, rows) && Shows(g, all, count)
    ensures Shows(Turn(iso, rows, g, limit), all, count + limit)
  {
    if g.place.AtEnd? {
      AtEndNothingChanges(iso, rows, g, limit);
    } else {
      var found := TurnIs(iso, rows, g, limit);
      RemainingIsSuffix(rows, all, g.seen, found, count);
      ShowedShowsMore(iso, g, Turn(iso, rows, g, limit), all, found, limit, count);
    }
  }

  lemma ShowedShowsMore(iso: Iso, g: Reading, t: Reading, all: seq<Row>, found: seq<Row>, limit: nat, count: nat)
    requires limit >= 1 && Shows(g, all, count) && Showed(iso, g, t, found, limit)
    requires count <= |all| && found == all[count..]
    ensures Shows(t, all, count + limit)
  {
    SlicesJoin(all, count, limit);
  }

  lemma SlicesJoin(all: seq<Row>, count: nat, limit: nat)
    requires count <= |all|
    ensures Take(all, count) + Take(all[count..], limit) == Take(all, count + limit)
  {
    var k := if |all| - count < limit then |all| - count else limit;
    assert all[..count] + all[count..][..k] == all[..count + k];
  }

  /** After the first `count` rows, what remains is exactly the others, in the same order. */
  lemma RemainingIsSuffix(rows: seq<Row>, all: seq<Row>, seen: seq<Row>, found: seq<Row>, count: nat)
    requires Descending(all) && SameRows(all, rows) && Remaining(rows, seen, found)
    requires count <= |all| && seen == all[..count]
    ensures found == all[count..]
  {
    forall r
      ensures r in found <==> r in all[count..]
    {
      assert r in all <==> r in rows;
      if count > 0 {
        BelowIsSuffix(all, count, r);
      }
    }
    OneDescendingList(found, all[count..]);
  }

  lemma BelowIsSuffix(all: seq<Row>, done: nat, r: Row)
    requires Descending(all) && 0 < done <= |all|
    ensures r in all[done..] <==> r in all && Less(r.key, all[done - 1].key)
  {
    if r in all {
      var i :| 0 <= i < |all| && all[i] == r;
      LessIsAnOrder(r.key, all[done - 1].key, r.key);
      if i >= done {
        assert all[done..][i - done] == r;
      } else {
        forall j | done <= j < |all|
          ensures all[j] != r
        {
          LessIsAnOrder(all[j].key, all[j].key, r.key);
          assert Less(all[j].key, all[i].key);
        }
      }
    }
  }

  /** All the rows, each once, newest first. */
  ghost predicate Complete(seen: seq<Row>, rows: seq<Row>) {
    Descending(seen) && multiset(seen) == multiset(rows)
  }

  lemma ShowsAtEnd(g: Reading, rows: seq<Row>, count: nat)
    requires Table(rows) && Shows(g, OrderBy(rows), count)
    ensures g.place.AtEnd? <==> count > 0 && |rows| <= count
    ensures g.place.AtEnd? ==> Complete(g.seen, rows)
  {
    OrderByIs(rows);
    OrderByPermutes(rows);
  }

  /** Following the cursors visits every row exactly once, newest first, and ends after
      exactly as many pages as the rows need (one when there are none). */
  lemma ReaderSeesEveryRowOnce(iso: Iso, rows: seq<Row>, limit: nat, pages: nat)
    requires limit >= 1 && Faithful(iso) && Table(rows)
    ensures var g := After(iso, Still(rows), limit, pages);
            && (g.place.AtEnd? <==> pages >= 1 && |rows| <= pages * limit)
            && (g.place.AtEnd? ==> Complete(g.seen, rows))
  {
    PagesAreSlices(iso, rows, limit, pages);
    ShowsAtEnd(After(iso, Still(rows), limit, pages), rows, Capacity(pages, limit));
    CapacityIs(pages, limit);
  }

  lemma {:induction false} InsertPermutes(row: Row, sorted: seq<Row>)
    ensures multiset(Insert(row, sorted)) == multiset(sorted) + multiset{row}
  {
    if sorted != [] {
      InsertPermutes(row, sorted[1..]);
      assert sorted == [sorted[0]] + sorted[1..];
    }
  }

  lemma {:induction false} OrderByPermutes(rows: seq<Row>)
    ensures multiset(OrderBy(rows)) == multiset(rows)
  {
    if rows != [] {
      OrderByPermutes(rows[1..]);
      InsertPermutes(rows[0], OrderBy(rows[1..]));
      assert rows == [rows[0]] + rows[1..];
    }
  }
}
