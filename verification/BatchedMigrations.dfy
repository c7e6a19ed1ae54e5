/** Data migrations that walk a table in batches by key. */
module BatchedMigrations {

  // ---------------------------------------------------------------- tables

  /** Ids stand for their place in the order of the column; for text ids, 0 is the empty text. */
  datatype Row<V> = Row(id: int, value: V)

  /** Rows by id, each id once. */
  ghost predicate Keyed<V>(rows: seq<Row<V>>) {
    forall i, j | 0 <= i < j < |rows| :: rows[i].id < rows[j].id
  }

  /** The rows a migration picks, and what it makes of their values. */
  datatype Change<!V> = Change(matches: V -> bool, apply: V -> V)

  /** SELECT ... WHERE matches AND id > after ORDER BY id. */
  function Matching<V>(rows: seq<Row<V>>, c: Change<V>, after: int): seq<Row<V>> {
    if rows == [] then []
    else if rows[0].id > after && c.matches(rows[0].value) then [rows[0]] + Matching(rows[1..], c, after)
    else Matching(rows[1..], c, after)
  }

  /** LIMIT. */
  function Take<V>(rows: seq<Row<V>>, n: nat): seq<Row<V>> {
    if |rows| <= n then rows else rows[..n]
  }

  /** UPDATE ... WHERE id = id. */
  function UpdateOne<V>(rows: seq<Row<V>>, id: int, value: V): seq<Row<V>> {
    seq(|rows|, i requires 0 <= i < |rows| => if rows[i].id == id then Row(id, value) else rows[i])
  }

  /** UPDATE ... WHERE id IN (...). */
  function UpdateAll<V>(rows: seq<Row<V>>, ids: set<int>, c: Change<V>): seq<Row<V>> {
    seq(|rows|, i requires 0 <= i < |rows| =>
      if rows[i].id in ids then Row(rows[i].id, c.apply(rows[i].value)) else rows[i])
  }

  /** The change never gives a matching value back. */
  ghost predicate AlwaysChanges<V(!new)>(c: Change<V>) {
    forall v | c.matches(v) :: c.apply(v) != v
  }

  ghost predicate Idempotent<V(!new)>(c: Change<V>) {
    forall v | c.matches(v) && c.matches(c.apply(v)) :: c.apply(c.apply(v)) == c.apply(v)
  }

  // ---------------------------------------------------------------- what a migration owes

  /** The row once migrated: changed when it matches and its id is after the first one. */
  function Migrated<V>(r: Row<V>, c: Change<V>, initial: int): Row<V> {
    if r.id > initial && c.matches(r.value) then Row(r.id, c.apply(r.value)) else r
  }

  function AllMigrated<V>(rows: seq<Row<V>>, c: Change<V>, initial: int): seq<Row<V>> {
    seq(|rows|, i requires 0 <= i < |rows| => Migrated(rows[i], c, initial))
  }

  /** How many rows that makes different. */
  function Differences<V(==)>(rows: seq<Row<V>>, c: Change<V>, initial: int): nat {
    if rows == [] then 0
    else (if Migrated(rows[0], c, initial) != rows[0] then 1 else 0) + Differences(rows[1..], c, initial)
  }

  // ---------------------------------------------------------------- half way

  /** The table when rows up to `last` are migrated and the rest are not yet. */
  function UpTo<V>(rows: seq<Row<V>>, c: Change<V>, initial: int, last: int): seq<Row<V>> {
    seq(|rows|, i requires 0 <= i < |rows| => if rows[i].id <= last then Migrated(rows[i], c, initial) else rows[i])
  }

  function DifferencesUpTo<V(==)>(rows: seq<Row<V>>, c: Change<V>, initial: int, last: int): nat {
    if rows == [] then 0
    else (if rows[0].id <= last && Migrated(rows[0], c, initial) != rows[0] then 1 else 0)
         + DifferencesUpTo(rows[1..], c, initial, last)
  }

  lemma {:induction false} NothingYet<V>(rows: seq<Row<V>>, c: Change<V>, initial: int)
    ensures UpTo(rows, c, initial, initial) == rows && DifferencesUpTo(rows, c, initial, initial) == 0
  {
    if rows != [] {
      NothingYet(rows[1..], c, initial);
    }
  }

  /** Rows after `last` are still the original ones. */
  lemma {:induction false} RestIsUntouched<V>(rows: seq<Row<V>>, c: Change<V>, initial: int, last: int)
    ensures Matching(UpTo(rows, c, initial, last), c, last) == Matching(rows, c, last)
  {
    if rows != [] {
      RestIsUntouched(rows[1..], c, initial, last);
      assert UpTo(rows, c, initial, last)[1..] == UpTo(rows[1..], c, initial, last);
    }
  }

  predicate Picked<V>(r: Row<V>, c: Change<V>, after: int) {
    r.id > after && c.matches(r.value)
  }

  lemma {:induction false} MatchingIsARow<V>(rows: seq<Row<V>>, c: Change<V>, after: int, i: nat) returns (j: nat)
    requires i < |Matching(rows, c, after)|
    ensures j < |rows| && Matching(rows, c, after)[i] == rows[j] && Picked(rows[j], c, after)
  {
    if Picked(rows[0], c, after) && i == 0 {
      j := 0;
    } else {
      j := MatchingIsARow(rows[1..], c, after, if Picked(rows[0], c, after) then i - 1 else i);
      j := j + 1;
    }
  }

  lemma {:induction false} PickedIsMatching<V>(rows: seq<Row<V>>, c: Change<V>, after: int, j: nat) returns (i: nat)
    requires j < |rows| && Picked(rows[j], c, after)
    ensures i < |Matching(rows, c, after)| && Matching(rows, c, after)[i] == rows[j]
  {
    if j == 0 {
      i := 0;
    } else {
      i := PickedIsMatching(rows[1..], c, after, j - 1);
      if Picked(rows[0], c, after) {
        i := i + 1;
      }
    }
  }

  lemma {:induction false} MatchingIsKeyed<V>(rows: seq<Row<V>>, c: Change<V>, after: int)
    requires Keyed(rows)
    ensures Keyed(Matching(rows, c, after))
  {
    if rows != [] {
      MatchingIsKeyed(rows[1..], c, after);
      var rest := Matching(rows[1..], c, after);
      forall i | 0 <= i < |rest|
        ensures rows[0].id < rest[i].id
      {
        var j := MatchingIsARow(rows[1..], c, after, i);
        assert rows[j + 1] == rest[i];
      }
    }
  }

  /** The rows found are those of the table that match after the id, in order. */
  lemma MatchingIs<V>(rows: seq<Row<V>>, c: Change<V>, after: int)
    requires Keyed(rows)
    ensures var all := Matching(rows, c, after);
            && Keyed(all)
            && (forall i | 0 <= i < |all| :: all[i] in rows && Picked(all[i], c, after))
            && (forall i | 0 <= i < |rows| && Picked(rows[i], c, after) :: rows[i] in all)
  {
    MatchingIsKeyed(rows, c, after);
    var all := Matching(rows, c, after);
    forall i | 0 <= i < |all|
      ensures all[i] in rows && Picked(all[i], c, after)
    {
      var j := MatchingIsARow(rows, c, after, i);
    }
    forall j | 0 <= j < |rows| && Picked(rows[j], c, after)
      ensures rows[j] in all
    {
      var i := PickedIsMatching(rows, c, after, j);
    }
  }

  /** Once no row is left, everything is migrated. */
  lemma {:induction false} NoneLeft<V>(rows: seq<Row<V>>, c: Change<V>, initial: int, last: int)
    requires initial <= last && Matching(rows, c, last) == []
    ensures UpTo(rows, c, initial, last) == AllMigrated(rows, c, initial)
    ensures DifferencesUpTo(rows, c, initial, last) == Differences(rows, c, initial)
  {
    if rows != [] {
      NoneLeft(rows[1..], c, initial, last);
      assert UpTo(rows, c, initial, last)[1..] == UpTo(rows[1..], c, initial, last);
      assert AllMigrated(rows, c, initial)[1..] == AllMigrated(rows[1..], c, initial);
    }
  }

  lemma {:induction false} FewerAfter<V>(rows: seq<Row<V>>, c: Change<V>, last: int, next: int)
    requires last <= next
    ensures |Matching(rows, c, next)| <= |Matching(rows, c, last)|
    ensures (exists r :: r in rows && last < r.id <= next && c.matches(r.value)) ==>
              |Matching(rows, c, next)| < |Matching(rows, c, last)|
  {
    if rows != [] {
      FewerAfter(rows[1..], c, last, next);
      assert rows == [rows[0]] + rows[1..];
    }
  }

  /** No matching row lies strictly between `last` and `next`. */
  ghost predicate Gap<V>(rows: seq<Row<V>>, c: Change<V>, last: int, next: int) {
    forall r | r in rows && last < r.id < next :: !c.matches(r.value)
  }

  lemma OneMoreRow<V>(rows: seq<Row<V>>, c: Change<V>, initial: int, last: int, r: Row<V>)
    requires Keyed(rows) && initial <= last < r.id && r in rows && c.matches(r.value) && Gap(rows, c, last, r.id)
    ensures UpTo(rows, c, initial, r.id) == UpdateOne(UpTo(rows, c, initial, last), r.id, c.apply(r.value))
  {
    var k :| 0 <= k < |rows| && rows[k] == r;
    var before, after := UpdateOne(UpTo(rows, c, initial, last), r.id, c.apply(r.value)), UpTo(rows, c, initial, r.id);
    forall i | 0 <= i < |rows|
      ensures before[i] == after[i]
    {
      assert rows[i] in rows;
      assert i < k ==> rows[i].id < r.id;
      assert k < i ==> r.id < rows[i].id;
    }
  }

  lemma {:induction false} NoneBelow<V>(rows: seq<Row<V>>, c: Change<V>, initial: int, last: int)
    requires forall i | 0 <= i < |rows| :: last < rows[i].id
    ensures DifferencesUpTo(rows, c, initial, last) == 0
  {
    if rows != [] {
      NoneBelow(rows[1..], c, initial, last);
    }
  }

  lemma {:induction false} OneMoreCounted<V>(rows: seq<Row<V>>, c: Change<V>, initial: int, last: int, r: Row<V>)
    requires Keyed(rows) && initial <= last < r.id && r in rows && c.matches(r.value) && Gap(rows, c, last, r.id)
    ensures DifferencesUpTo(rows, c, initial, r.id) ==
            DifferencesUpTo(rows, c, initial, last) + (if c.apply(r.value) != r.value then 1 else 0)
  {
    assert rows[0] in rows;
    assert rows == [rows[0]] + rows[1..];
    if rows[0] == r {
      NoneBelow(rows[1..], c, initial, r.id);
      NoneBelow(rows[1..], c, initial, last);
    } else {
      assert rows[0].id < r.id;
      assert Gap(rows[1..], c, last, r.id);
      OneMoreCounted(rows[1..], c, initial, last, r);
    }
  }

  /** Place k of a batch: after the rows before it, the next one to change. */
  lemma NextOfBatch<V>(rows: seq<Row<V>>, c: Change<V>, last: int, k: nat)
    requires Keyed(rows) && k < |Matching(rows, c, last)|
    ensures var all := Matching(rows, c, last);
            var before := if k == 0 then last else all[k - 1].id;
            last <= before < all[k].id && all[k] in rows && c.matches(all[k].value) && Gap(rows, c, before, all[k].id)
  {
    MatchingIs(rows, c, last);
    var all := Matching(rows, c, last);
    var before := if k == 0 then last else all[k - 1].id;
    assert all[k] in all;
    if k > 0 {
      assert all[k - 1] in all;
    }
    forall r | r in rows && before < r.id < all[k].id
      ensures !c.matches(r.value)
    {
      if c.matches(r.value) {
        OutsideTheGap(rows, c, last, k, r);
      }
    }
  }

  /** A matching row is at or before the row found before the k-th, or at or after the k-th. */
  lemma OutsideTheGap<V>(rows: seq<Row<V>>, c: Change<V>, last: int, k: nat, r: Row<V>)
    requires Keyed(rows) && k < |Matching(rows, c, last)| && r in rows && Picked(r, c, last)
    ensures var all := Matching(rows, c, last);
            r.id <= (if k == 0 then last else all[k - 1].id) || all[k].id <= r.id
  {
    var j :| 0 <= j < |rows| && rows[j] == r;
    var i := PickedIsMatching(rows, c, last, j);
    MatchingIsKeyed(rows, c, last);
    KeyedAround(Matching(rows, c, last), i, k);
  }

  lemma KeyedAround<V>(all: seq<Row<V>>, i: nat, k: nat)
    requires Keyed(all) && i < |all| && k < |all|
    ensures if i < k then all[i].id <= all[k - 1].id else all[k].id <= all[i].id
  {
  }

  lemma OneMore<V>(rows: seq<Row<V>>, c: Change<V>, initial: int, last: int, k: nat)
    requires Keyed(rows) && initial <= last && k < |Matching(rows, c, last)|
    ensures var all := Matching(rows, c, last);
            var before := if k == 0 then last else all[k - 1].id;
            var value := c.apply(all[k].value);
            && UpTo(rows, c, initial, all[k].id) == UpdateOne(UpTo(rows, c, initial, before), all[k].id, value)
            && DifferencesUpTo(rows, c, initial, all[k].id) ==
               DifferencesUpTo(rows, c, initial, before) + (if value != all[k].value then 1 else 0)
  {
    var all := Matching(rows, c, last);
    var before := if k == 0 then last else all[k - 1].id;
    NextOfBatch(rows, c, last, k);
    OneMoreRow(rows, c, initial, before, all[k]);
    OneMoreCounted(rows, c, initial, before, all[k]);
  }

  lemma SameValueNoUpdate<V>(rows: seq<Row<V>>, c: Change<V>, initial: int, last: int, r: Row<V>)
    requires Keyed(rows) && r in rows && last < r.id
    ensures UpdateOne(UpTo(rows, c, initial, last), r.id, r.value) == UpTo(rows, c, initial, last)
  {
    var k :| 0 <= k < |rows| && rows[k] == r;
    var was := UpTo(rows, c, initial, last);
    forall i | 0 <= i < |rows|
      ensures UpdateOne(was, r.id, r.value)[i] == was[i]
    {
      assert i < k ==> rows[i].id < r.id;
      assert k < i ==> r.id < rows[i].id;
    }
  }

  lemma BatchMovesOn<V>(rows: seq<Row<V>>, c: Change<V>, last: int, k: nat)
    requires Keyed(rows) && k < |Matching(rows, c, last)|
    ensures last < Matching(rows, c, last)[k].id
    ensures |Matching(rows, c, Matching(rows, c, last)[k].id)| < |Matching(rows, c, last)|
  {
    MatchingIs(rows, c, last);
    var r := Matching(rows, c, last)[k];
    assert r in Matching(rows, c, last);
    FewerAfter(rows, c, last, r.id);
  }

  // ---------------------------------------------------------------- the loops

  class Table<V(==,!new)> {
    var rows: seq<Row<V>>

    /** `minimizar` and `recortar_notas`: read a batch after the last id read, update the rows
        that come out different, and go on until a batch is empty. */
    method ChangeInBatches(c: Change<V>, initial: int, batch: nat) returns (changed: nat)
      requires Keyed(rows) && batch >= 1
      modifies this
      ensures rows == AllMigrated(old(rows), c, initial)
      ensures changed == Differences(old(rows), c, initial)
    {
      ghost var start := rows;
      var last := initial;
      changed := 0;
      NothingYet(start, c, initial);
      while true
        invariant initial <= last
        invariant rows == UpTo(start, c, initial, last) && changed == DifferencesUpTo(start, c, initial, last)
        decreases |Matching(start, c, last)|
      {
        RestIsUntouched(start, c, initial, last);
        var found := Take(Matching(rows, c, last), batch);
        if found == [] {
          NoneLeft(start, c, initial, last);
          return;
        }
        for k := 0 to |found|
          invariant rows == UpTo(start, c, initial, if k == 0 then last else found[k - 1].id)
          invariant changed == DifferencesUpTo(start, c, initial, if k == 0 then last else found[k - 1].id)
        {
          OneMore(start, c, initial, last, k);
          NextOfBatch(start, c, last, k);
          SameValueNoUpdate(start, c, initial, if k == 0 then last else found[k - 1].id, found[k]);
          var value := c.apply(found[k].value);
          if value != found[k].value {
            rows := UpdateOne(rows, found[k].id, value);
            changed := changed + 1;
          }
        }
        BatchMovesOn(start, c, last, |found| - 1);
        last := found[|found| - 1].id;
      }
    }

    /** `marcar_portal`: one UPDATE for the ids of the batch, each counted as changed. */
    method MarkInBatches(c: Change<V>, initial: int, batch: nat) returns (changed: nat)
      requires Keyed(rows) && batch >= 1
      requires AlwaysChanges(c)
      modifies this
      ensures rows == AllMigrated(old(rows), c, initial)
      ensures changed == Differences(old(rows), c, initial)
    {
      ghost var start := rows;
      var last := initial;
      changed := 0;
      NothingYet(start, c, initial);
      while true
        invariant initial <= last
        invariant rows == UpTo(start, c, initial, last) && changed == DifferencesUpTo(start, c, initial, last)
        decreases |Matching(start, c, last)|
      {
        RestIsUntouched(start, c, initial, last);
        var found := Take(Matching(rows, c, last), batch);
        if found == [] {
          NoneLeft(start, c, initial, last);
          return;
        }
        BatchIsMarked(start, c, initial, last, |found|);
        BatchIsCounted(start, c, initial, last, |found|);
        rows := UpdateAll(rows, set r | r in found :: r.id, c);
        changed := changed + |found|;
        BatchMovesOn(start, c, last, |found| - 1);
        last := found[|found| - 1].id;
      }
    }
  }

  lemma BatchIdIsPicked<V>(rows: seq<Row<V>>, c: Change<V>, last: int, k: nat, q: Row<V>, r: Row<V>)
    requires Keyed(rows) && 0 < k <= |Matching(rows, c, last)| && r in rows
    requires q in Matching(rows, c, last)[..k] && q.id == r.id
    ensures c.matches(r.value) && last < r.id <= Matching(rows, c, last)[k - 1].id
  {
    MatchingIs(rows, c, last);
    var all := Matching(rows, c, last);
    var j :| 0 <= j < k && all[j] == q;
    SameIdSameRow(rows, q, r);
  }

  lemma NotAfter<V>(rows: seq<Row<V>>, i: nat, j: nat)
    requires Keyed(rows) && i < |rows| && j < |rows| && rows[i].id <= rows[j].id
    ensures i <= j
  {
  }

  lemma PickedIsInBatch<V>(rows: seq<Row<V>>, c: Change<V>, last: int, k: nat, r: Row<V>)
    requires Keyed(rows) && 0 < k <= |Matching(rows, c, last)| && r in rows
    requires c.matches(r.value) && last < r.id <= Matching(rows, c, last)[k - 1].id
    ensures r in Matching(rows, c, last)[..k]
  {
    MatchingIs(rows, c, last);
    var all := Matching(rows, c, last);
    var i :| 0 <= i < |rows| && rows[i] == r;
    assert Picked(rows[i], c, last);
    var j :| 0 <= j < |all| && all[j] == r;
    NotAfter(all, j, k - 1);
    assert all[..k][j] == r;
  }

  /** The ids of the first k rows found are those of the matching rows up to the last of them. */
  lemma IdsOfBatch<V>(rows: seq<Row<V>>, c: Change<V>, last: int, k: nat, r: Row<V>)
    requires Keyed(rows) && 0 < k <= |Matching(rows, c, last)| && r in rows
    ensures var all := Matching(rows, c, last);
            (exists q :: q in all[..k] && q.id == r.id) <==> c.matches(r.value) && last < r.id <= all[k - 1].id
  {
    var all := Matching(rows, c, last);
    if q :| q in all[..k] && q.id == r.id {
      BatchIdIsPicked(rows, c, last, k, q, r);
    }
    if c.matches(r.value) && last < r.id <= all[k - 1].id {
      PickedIsInBatch(rows, c, last, k, r);
    }
  }

  lemma SameIdSameRow<V>(rows: seq<Row<V>>, q: Row<V>, r: Row<V>)
    requires Keyed(rows) && q in rows && r in rows && q.id == r.id
    ensures q == r
  {
    var i, j :| 0 <= i < |rows| && 0 <= j < |rows| && rows[i] == q && rows[j] == r;
    assert i < j || i == j || j < i;
  }

  /** One UPDATE over the first k rows found moves the table up to the last of them. */
  lemma BatchIsMarked<V>(rows: seq<Row<V>>, c: Change<V>, initial: int, last: int, k: nat)
    requires Keyed(rows) && initial <= last && 0 < k <= |Matching(rows, c, last)|
    ensures var all := Matching(rows, c, last);
            UpTo(rows, c, initial, all[k - 1].id) ==
            UpdateAll(UpTo(rows, c, initial, last), set r | r in all[..k] :: r.id, c)
  {
    var all := Matching(rows, c, last);
    var ids := set r | r in all[..k] :: r.id;
    var was, now := UpTo(rows, c, initial, last), UpTo(rows, c, initial, all[k - 1].id);
    BatchMovesOn(rows, c, last, k - 1);
    forall i | 0 <= i < |rows|
      ensures now[i] == UpdateAll(was, ids, c)[i]
    {
      IdsOfBatch(rows, c, last, k, rows[i]);
      assert was[i].id == rows[i].id;
    }
  }

  lemma {:induction false} BatchIsCounted<V(!new)>(rows: seq<Row<V>>, c: Change<V>, initial: int, last: int, k: nat)
    requires Keyed(rows) && initial <= last && k <= |Matching(rows, c, last)|
    requires AlwaysChanges(c)
    ensures var next := if k == 0 then last else Matching(rows, c, last)[k - 1].id;
            DifferencesUpTo(rows, c, initial, next) == DifferencesUpTo(rows, c, initial, last) + k
  {
    if k > 0 {
      BatchIsCounted(rows, c, initial, last, k - 1);
      OneMore(rows, c, initial, last, k - 1);
      NextOfBatch(rows, c, last, k - 1);
    }
  }

  // ---------------------------------------------------------------- running it again

  /** A second run finds nothing to change when applying the change twice is applying it once. */
  lemma {:induction false} SecondRunChangesNothing<V(!new)>(rows: seq<Row<V>>, c: Change<V>, initial: int)
    requires Idempotent(c)
    ensures AllMigrated(AllMigrated(rows, c, initial), c, initial) == AllMigrated(rows, c, initial)
    ensures Differences(AllMigrated(rows, c, initial), c, initial) == 0
  {
    if rows != [] {
      SecondRunChangesNothing(rows[1..], c, initial);
      assert AllMigrated(rows, c, initial)[1..] == AllMigrated(rows[1..], c, initial);
    }
  }

  /** Every matching row through the change, whatever its id. */
  function Everywhere<V>(rows: seq<Row<V>>, c: Change<V>): seq<Row<V>> {
    seq(|rows|, i requires 0 <= i < |rows| =>
      if c.matches(rows[i].value) then Row(rows[i].id, c.apply(rows[i].value)) else rows[i])
  }

  /** The migration reaches every row that needs it exactly when none of those has an id at or
      below the first one (the empty text, or zero). */
  lemma EveryRowIsReachedExactly<V>(rows: seq<Row<V>>, c: Change<V>, initial: int)
    ensures AllMigrated(rows, c, initial) == Everywhere(rows, c) <==>
            forall i | 0 <= i < |rows| && rows[i].id <= initial && c.matches(rows[i].value) ::
              c.apply(rows[i].value) == rows[i].value
  {
    var reached, wanted := AllMigrated(rows, c, initial), Everywhere(rows, c);
    if reached == wanted {
      forall i | 0 <= i < |rows| && rows[i].id <= initial && c.matches(rows[i].value)
        ensures c.apply(rows[i].value) == rows[i].value
      {
        assert reached[i] == wanted[i];
      }
    }
  }
}
