/** The idempotency marker of one key: guard, save and release, each made of single Redis
    commands that any number of requests interleave. Time in milliseconds. */
module Idempotency {
  const PROCESSING_TTL: nat := 60_000
  const RESULT_TTL: nat := 86_400_000

  /** `MAX_WAIT_SECONDS`, in the quarter seconds the guard sleeps. */
  const MAX_WAIT: nat := 40

  /** What a GET finds. */
  datatype Cached<V> = Nothing | Processing | Result(value: V)

  // ---------------------------------------------------------------- the guard of one request

  datatype Guarding<V> =
    | AtGet(waited: nat)
    | AtSet(waited: nat)
    | Acquired
    | Returned(result: V)
    | InProgress

  function Retry<V>(waited: nat): Guarding<V> {
    if waited + 1 <= MAX_WAIT then AtGet(waited + 1) else InProgress
  }

  function OnGet<V>(waited: nat, cached: Cached<V>): Guarding<V> {
    match cached
    case Result(v) => Returned(v)
    case Nothing => AtSet(waited)
    case Processing => Retry(waited)
  }

  function OnSet<V>(waited: nat, taken: bool): Guarding<V> {
    if taken then Acquired else Retry(waited)
  }

  /** What a Redis command answers; Down is any connection error. */
  datatype Reply<T> = Down | Got(value: T)

  /** One turn of the loop: the GET and, when it finds nothing, the SET NX. A Redis that does
      not answer lets the request through as if it had acquired the key. */
  function Turn<V>(waited: nat, get: Reply<Cached<V>>, setNx: Reply<bool>): Guarding<V> {
    if get.Down? then Acquired
    else
      var g := OnGet(waited, get.value);
      if !g.AtSet? then g
      else if setNx.Down? then Acquired
      else OnSet(waited, setNx.value)
  }

  /** The turns from one on, given what each would be answered. */
  function GuardFrom<V>(gets: nat -> Reply<Cached<V>>, sets: nat -> Reply<bool>, turn: nat): Guarding<V>
    requires turn <= MAX_WAIT
    decreases MAX_WAIT - turn
  {
    var g := Turn(turn, gets(turn), sets(turn));
    if g.AtGet? then GuardFrom(gets, sets, turn + 1) else g
  }

  /** The key is another request's in this turn: its marker is read, or it wins the SET NX. */
  predicate Taken<V>(get: Reply<Cached<V>>, setNx: Reply<bool>) {
    get.Got? && (get.value.Processing? || (get.value.Nothing? && setNx == Got(false)))
  }

  /** The polling loop: at most 41 turns, the last of which is the first that finds the key
      not taken; it gives up exactly when all of them find it taken. */
  method Guard<V>(gets: nat -> Reply<Cached<V>>, sets: nat -> Reply<bool>) returns (outcome: Guarding<V>, turns: nat)
    ensures outcome == GuardFrom(gets, sets, 0)
    ensures 1 <= turns <= 41
    ensures forall i: nat | i + 1 < turns :: Taken(gets(i), sets(i))
    ensures outcome.InProgress? <==> Taken(gets(turns - 1), sets(turns - 1))
    ensures outcome.InProgress? ==> turns == 41
  {
    var waited: nat := 0;
    while waited <= MAX_WAIT
      invariant waited <= MAX_WAIT + 1
      invariant forall i: nat | i < waited :: Taken(gets(i), sets(i))
      invariant GuardFrom(gets, sets, 0) == if waited <= MAX_WAIT then GuardFrom(gets, sets, waited) else InProgress
    {
      turns := waited + 1;
      var cached := gets(waited);
      if cached.Down? {
        return Acquired, turns;
      }
      if cached.value.Result? {
        return Returned(cached.value.value), turns;
      }
      if cached.value.Nothing? {
        var acquired := sets(waited);
        if acquired.Down? || acquired.value {
          return Acquired, turns;
        }
      }
      waited := waited + 1;
    }
    turns := waited;
    outcome := InProgress;
  }

  // ---------------------------------------------------------------- the shared key

  /** The key in Redis. `owner` tells whose marker it is; no command reads it. */
  datatype Cell<V> = Missing | Marker(owner: nat, until: nat) | Saved(value: V, until: nat)

  function Read<V>(cell: Cell<V>, now: nat): Cached<V> {
    match cell
    case Missing => Nothing
    case Marker(_, until) => if now < until then Processing else Nothing
    case Saved(v, until) => if now < until then Result(v) else Nothing
  }

  /** A request: in its guard, executing since it acquired the key, about to delete the
      marker it just read, or over. */
  datatype Request<V> =
    | Guards(guarding: Guarding<V>)
    | Holds(since: nat)
    | Deletes(since: nat)
    | Over

  datatype SaveRecord<V> = SaveRecord(value: V, at: nat)
  datatype ReturnRecord<V> = ReturnRecord(value: V, at: nat, saves: nat)

  /** The key, the requests, and two logs nobody reads: the saves, and the values guards
      returned with the number of saves by then. */
  datatype World<V> = World(
    now: nat,
    cell: Cell<V>,
    requests: map<nat, Request<V>>,
    saves: seq<SaveRecord<V>>,
    answered: seq<ReturnRecord<V>>)

  datatype Action<V> =
    | Tick(elapsed: nat)
    | Start(id: nat)
    | Get(id: nat)
    | SetNx(id: nat)
    | Save(id: nat, value: V)
    | ReleaseGet(id: nat)
    | ReleaseDelete(id: nat)
    | Die(id: nat)

  function Begin<V>(): World<V> {
    World(0, Missing, map[], [], [])
  }

  predicate Executing<V>(w: World<V>, id: nat) {
    id in w.requests && (w.requests[id].Holds? || w.requests[id].Deletes?)
  }

  function Since<V>(w: World<V>, id: nat): nat
    requires Executing(w, id)
  {
    match w.requests[id] case Holds(since) => since case Deletes(since) => since
  }

  function Entered<V>(w: World<V>, g: Guarding<V>): Request<V> {
    if g.Acquired? then Holds(w.now) else Guards(g)
  }

  function DoGet<V>(w: World<V>, id: nat, waited: nat): World<V> {
    var g := OnGet(waited, Read(w.cell, w.now));
    w.(requests := w.requests[id := Entered(w, g)],
       answered := if g.Returned? then w.answered + [ReturnRecord(g.result, w.now, |w.saves|)] else w.answered)
  }

  function DoSet<V>(w: World<V>, id: nat, waited: nat): World<V> {
    var taken := Read(w.cell, w.now).Nothing?;
    w.(requests := w.requests[id := Entered(w, OnSet(waited, taken))],
       cell := if taken then Marker(id, w.now + PROCESSING_TTL) else w.cell)
  }

  function DoSave<V>(w: World<V>, id: nat, value: V): World<V> {
    w.(requests := w.requests[id := Over],
       cell := Saved(value, w.now + RESULT_TTL),
       saves := w.saves + [SaveRecord(value, w.now)])
  }

  /** One step; a step that its request cannot take now changes nothing. */
  function Next<V>(w: World<V>, a: Action<V>): World<V> {
    match a
    case Tick(elapsed) => w.(now := w.now + elapsed)
    case Start(id) => if id in w.requests then w else w.(requests := w.requests[id := Guards(AtGet(0))])
    case Get(id) =>
      if id in w.requests && w.requests[id].Guards? && w.requests[id].guarding.AtGet?
      then DoGet(w, id, w.requests[id].guarding.waited) else w
    case SetNx(id) =>
      if id in w.requests && w.requests[id].Guards? && w.requests[id].guarding.AtSet?
      then DoSet(w, id, w.requests[id].guarding.waited) else w
    case Save(id, value) =>
      if id in w.requests && w.requests[id].Holds? then DoSave(w, id, value) else w
    case ReleaseGet(id) =>
      if id in w.requests && w.requests[id].Holds?
      then w.(requests := w.requests[id := if Read(w.cell, w.now).Processing?
                                           then Deletes(w.requests[id].since) else Over])
      else w
    case ReleaseDelete(id) =>
      if id in w.requests && w.requests[id].Deletes?
      then w.(requests := w.requests[id := Over], cell := Missing) else w
    case Die(id) => if Executing(w, id) then w.(requests := w.requests[id := Over]) else w
  }

  function After<V>(run: seq<Action<V>>, n: nat): World<V>
    requires n <= |run|
  {
    if n == 0 then Begin() else Next(After(run, n - 1), run[n - 1])
  }

  /** Every request that executes has been at it for less than `hold`. */
  ghost predicate InTime<V>(w: World<V>, hold: nat) {
    forall id | Executing(w, id) :: w.now < Since(w, id) + hold
  }

  /** A run in which each holder saves, releases or dies within `hold` of acquiring. */
  ghost predicate Timely<V>(run: seq<Action<V>>, hold: nat) {
    forall n: nat | n <= |run| :: InTime(After(run, n), hold)
  }

  // ---------------------------------------------------------------- invariants

  /** Whoever executes owns the marker, which is alive. */
  ghost predicate OwnsMarker<V>(w: World<V>, id: nat) {
    Executing(w, id) ==> w.cell == Marker(id, Since(w, id) + PROCESSING_TTL)
  }

  ghost predicate Owned<V>(w: World<V>) {
    forall id | id in w.requests :: OwnsMarker(w, id)
  }

  /** A saved result in the key is the last save; saves are a result's lifetime apart. */
  ghost predicate SavesShape<V>(w: World<V>) {
    && (forall i | 0 <= i < |w.saves| - 1 :: w.saves[i].at + RESULT_TTL <= w.saves[i + 1].at)
    && (w.saves != [] ==>
          var last := w.saves[|w.saves| - 1];
          last.at <= w.now && (w.now < last.at + RESULT_TTL ==> w.cell == Saved(last.value, last.at + RESULT_TTL)))
    && (w.cell.Saved? ==> w.saves != [])
    && (w.cell.Saved? ==> w.cell == Saved(w.saves[|w.saves| - 1].value, w.saves[|w.saves| - 1].at + RESULT_TTL))
  }

  /** What a guard returned is the last save of then, not yet expired. */
  ghost predicate Faithful<V>(w: World<V>, r: ReturnRecord<V>) {
    && 1 <= r.saves <= |w.saves|
    && r.value == w.saves[r.saves - 1].value
    && w.saves[r.saves - 1].at <= r.at < w.saves[r.saves - 1].at + RESULT_TTL
  }

  ghost predicate ReturnsShape<V>(w: World<V>) {
    forall i | 0 <= i < |w.answered| :: Faithful(w, w.answered[i])
  }

  ghost predicate Inv<V>(w: World<V>) {
    Owned(w) && SavesShape(w) && ReturnsShape(w)
  }

  lemma OwnedKept<V>(w: World<V>, a: Action<V>, hold: nat)
    requires Owned(w) && InTime(w, hold) && hold <= PROCESSING_TTL
    ensures Owned(Next(w, a))
  {
    var t := Next(w, a);
    forall id | id in t.requests
      ensures OwnsMarker(t, id)
    {
      if Executing(w, id) {
        assert OwnsMarker(w, id) && w.now < Since(w, id) + hold;
      }
      match a
      case Save(other, _) =>
        if Executing(t, id) && Executing(w, other) { assert OwnsMarker(w, other); }
      case ReleaseDelete(other) =>
        if Executing(t, id) && Executing(w, other) { assert OwnsMarker(w, other); }
      case _ =>
    }
  }

  lemma SavesShapeKept<V>(w: World<V>, a: Action<V>)
    requires Owned(w) && SavesShape(w)
    ensures SavesShape(Next(w, a))
  {
    match a
    case Save(id, _) => if Executing(w, id) { assert OwnsMarker(w, id); }
    case ReleaseDelete(id) => if Executing(w, id) { assert OwnsMarker(w, id); }
    case _ =>
  }

  lemma ReturnsShapeKept<V>(w: World<V>, a: Action<V>)
    requires SavesShape(w) && ReturnsShape(w)
    ensures ReturnsShape(Next(w, a))
  {
    var t := Next(w, a);
    assert |w.saves| <= |t.saves| && t.saves[..|w.saves|] == w.saves;
    forall i | 0 <= i < |t.answered|
      ensures Faithful(t, t.answered[i])
    {
      if i < |w.answered| {
        assert Faithful(w, w.answered[i]);
      }
    }
  }

  lemma {:induction false} InvAlways<V>(run: seq<Action<V>>, hold: nat, n: nat)
    requires n <= |run| && Timely(run, hold) && hold <= PROCESSING_TTL
    ensures Inv(After(run, n))
  {
    if n > 0 {
      InvAlways(run, hold, n - 1);
      var w := After(run, n - 1);
      assert InTime(w, hold);
      OwnedKept(w, run[n - 1], hold);
      SavesShapeKept(w, run[n - 1]);
      ReturnsShapeKept(w, run[n - 1]);
    }
  }

  // ---------------------------------------------------------------- main results

  ghost predicate AtMostOneExecutes<V>(w: World<V>) {
    forall i, j | Executing(w, i) && Executing(w, j) :: i == j
  }

  lemma OneHolder<V>(run: seq<Action<V>>, hold: nat)
    requires Timely(run, hold) && hold <= PROCESSING_TTL
    ensures AtMostOneExecutes(After(run, |run|))
  {
    InvAlways(run, hold, |run|);
    var w := After(run, |run|);
    forall i, j | Executing(w, i) && Executing(w, j)
      ensures i == j
    {
      assert OwnsMarker(w, i) && OwnsMarker(w, j);
    }
  }

  /** Twin requests when a holder may take longer than the marker lives. */
  function TwoHolders(): seq<Action<int>> {
    [Start(1), Get(1), SetNx(1), Tick(PROCESSING_TTL), Start(2), Get(2), SetNx(2)]
  }

  lemma TwoHoldersRun(hold: nat)
    requires hold > PROCESSING_TTL
    ensures Timely(TwoHolders(), hold) && !AtMostOneExecutes(After(TwoHolders(), 7))
  {
    var run := TwoHolders();
    var w0 := After(run, 0);
    var w1 := After(run, 1);
    assert w1 == World(0, Missing, map[1 := Guards(AtGet(0))], [], []) by { assert w1 == Next(w0, run[0]); }
    var w2 := After(run, 2);
    assert w2 == w1.(requests := map[1 := Guards(AtSet(0))]) by { assert w2 == Next(w1, run[1]); }
    var w3 := After(run, 3);
    assert w3 == World(0, Marker(1, PROCESSING_TTL), map[1 := Holds(0)], [], []) by { assert w3 == Next(w2, run[2]); }
    var w4 := After(run, 4);
    assert w4 == w3.(now := PROCESSING_TTL) by { assert w4 == Next(w3, run[3]); }
    var w5 := After(run, 5);
    assert w5 == w4.(requests := map[1 := Holds(0), 2 := Guards(AtGet(0))]) by { assert w5 == Next(w4, run[4]); }
    var w6 := After(run, 6);
    assert w6 == w4.(requests := map[1 := Holds(0), 2 := Guards(AtSet(0))]) by { assert w6 == Next(w5, run[5]); }
    var w7 := After(run, 7);
    assert w7.now == PROCESSING_TTL && w7.requests == map[1 := Holds(0), 2 := Holds(PROCESSING_TTL)] by {
      assert w7 == Next(w6, run[6]);
    }
    assert Executing(w7, 1) && Executing(w7, 2);
    assert InTime(w0, hold) && InTime(w1, hold) && InTime(w2, hold) && InTime(w3, hold);
    assert InTime(w4, hold) && InTime(w5, hold) && InTime(w6, hold) && InTime(w7, hold);
    forall n: nat | n <= |run|
      ensures InTime(After(run, n), hold)
    {
      assert n in {0, 1, 2, 3, 4, 5, 6, 7};
    }
  }

  /** One request at a time executes, in every run, exactly when no holder takes longer than
      the marker lives. */
  lemma MutualExclusionExactly(hold: nat)
    ensures (forall run: seq<Action<int>> | Timely(run, hold) :: AtMostOneExecutes(After(run, |run|)))
            <==> hold <= PROCESSING_TTL
  {
    if hold <= PROCESSING_TTL {
      forall run: seq<Action<int>> | Timely(run, hold)
        ensures AtMostOneExecutes(After(run, |run|))
      {
        OneHolder(run, hold);
      }
    } else {
      TwoHoldersRun(hold);
      assert |TwoHolders()| == 7;
    }
  }

  /** The DELETE of a release removes the marker of that very request, still alive: never
      another holder's, never a result. */
  lemma ReleaseRemovesOwnMarker<V>(run: seq<Action<V>>, hold: nat, n: nat, id: nat)
    requires Timely(run, hold) && hold <= PROCESSING_TTL && n < |run| && run[n] == ReleaseDelete(id)
    ensures var before, after := After(run, n), After(run, n + 1);
            after == before || (before.cell.Marker? && before.cell.owner == id && before.now < before.cell.until)
  {
    InvAlways(run, hold, n);
    var w := After(run, n);
    if Executing(w, id) {
      assert OwnsMarker(w, id) && InTime(w, hold);
    }
  }

  /** Every value a guard returned is the result of the last save by then, saved less than
      24 hours before; and two saves of a key are at least 24 hours apart, so the operation
      takes effect once. */
  lemma RepliesAreTheSavedResult<V>(run: seq<Action<V>>, hold: nat)
    requires Timely(run, hold) && hold <= PROCESSING_TTL
    ensures var w := After(run, |run|);
            && (forall i | 0 <= i < |w.answered| :: Faithful(w, w.answered[i]))
            && (forall i | 0 <= i < |w.saves| - 1 :: w.saves[i].at + RESULT_TTL <= w.saves[i + 1].at)
  {
    InvAlways(run, hold, |run|);
  }

  lemma TimeMoves<V>(w: World<V>, a: Action<V>)
    ensures w.now <= Next(w, a).now && (Next(w, a) != w && !a.Tick? ==> Next(w, a).now == w.now)
    ensures |w.saves| <= |Next(w, a).saves|
  {
  }

  ghost predicate Stands<V>(w: World<V>, cell: Cell<V>) {
    w.cell == cell && forall id | id in w.requests :: !Executing(w, id)
  }

  lemma ResultStandsOneStep<V>(w: World<V>, a: Action<V>, cell: Cell<V>)
    requires Stands(w, cell) && cell.Saved? && w.now < cell.until
    ensures Stands(Next(w, a), cell)
  {
    var t := Next(w, a);
    forall id | id in t.requests
      ensures !Executing(t, id)
    {
      assert id in w.requests ==> !Executing(w, id);
    }
  }

  /** From a save until 24 hours later the key keeps that result, whatever anyone does, and so
      nobody executes and every GET returns it. */
  lemma {:induction false} SavedResultStands<V>(run: seq<Action<V>>, hold: nat, i: nat, j: nat)
    requires i <= j <= |run| && Timely(run, hold) && hold <= PROCESSING_TTL
    requires After(run, i).cell.Saved? && After(run, j).now < After(run, i).cell.until
    ensures Stands(After(run, j), After(run, i).cell)
    decreases j
  {
    if i < j {
      TimeMoves(After(run, j - 1), run[j - 1]);
      SavedResultStands(run, hold, i, j - 1);
      ResultStandsOneStep(After(run, j - 1), run[j - 1], After(run, i).cell);
    } else {
      InvAlways(run, hold, i);
      var w := After(run, i);
      forall id | id in w.requests
        ensures !Executing(w, id)
      {
        assert OwnsMarker(w, id);
      }
    }
  }

  /** A request that died holding the key blocks it for at most a minute more. */
  lemma {:induction false} MarkerIsShort<V>(run: seq<Action<V>>, n: nat)
    requires n <= |run|
    ensures var w := After(run, n);
            w.cell.Marker? ==> w.cell.until <= w.now + PROCESSING_TTL
  {
    if n > 0 {
      MarkerIsShort(run, n - 1);
      TimeMoves(After(run, n - 1), run[n - 1]);
    }
  }
}
