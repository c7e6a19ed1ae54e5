/** The in-memory circuit breaker under every interleaving: each await is a point where other
    calls may run, and calls admitted while closed can end in any later state. */
module CircuitBreaker {
  import opened Clock

  datatype State = Closed | Open | HalfOpen

  datatype Breaker = Breaker(state: State, failures: int, retryAt: int, probeInFlight: bool)

  datatype Config = Config(threshold: int, recovery: int)

  /** How an admitted call ends. A failure the caller does not record counts as a success. */
  datatype Outcome = Succeeded | Failed(recorded: bool) | CutShort

  const INITIAL := Breaker(Closed, 0, 0, false)

  /** Entering a call: the new state, and whether it is the probe; None when refused. */
  datatype Admission = Admission(breaker: Breaker, probe: Option<bool>)

  function BeforeCall(b: Breaker, now: int): Admission {
    if b.state.Open? && now < b.retryAt then Admission(b, None)
    else
      var c := if b.state.Open? then b.(state := HalfOpen) else b;
      if !c.state.HalfOpen? then Admission(c, Some(false))
      else if c.probeInFlight then Admission(c, None)
      else Admission(c.(probeInFlight := true), Some(true))
  }

  function MarkSuccess(b: Breaker, probe: bool): Breaker {
    Breaker(Closed, 0, b.retryAt, b.probeInFlight && !probe)
  }

  function OpenCircuit(b: Breaker, c: Config, now: int): Breaker {
    b.(state := Open, retryAt := now + c.recovery, failures := c.threshold)
  }

  function MarkFailure(b: Breaker, c: Config, now: int, probe: bool): Breaker {
    if probe || b.state.HalfOpen? then OpenCircuit(b, c, now).(probeInFlight := false)
    else
      var d := b.(failures := b.failures + 1);
      if d.failures >= c.threshold then OpenCircuit(d, c, now) else d
  }

  function ReleaseProbe(b: Breaker, probe: bool): Breaker {
    if probe then b.(probeInFlight := false) else b
  }

  function EndCall(b: Breaker, c: Config, now: int, probe: bool, outcome: Outcome): Breaker {
    match outcome
    case Succeeded => MarkSuccess(b, probe)
    case Failed(recorded) => if recorded then MarkFailure(b, c, now, probe) else MarkSuccess(b, probe)
    case CutShort => ReleaseProbe(b, probe)
  }

  /** The breaker of one provider. The clock is the time passed to each method. */
  class AsyncCircuitBreaker {
    const config: Config
    var state: State
    var consecutiveFailures: int
    var retryAt: int
    var probeInFlight: bool

    function Value(): Breaker
      reads this
    {
      Breaker(state, consecutiveFailures, retryAt, probeInFlight)
    }

    constructor (threshold: int, recovery: int)
      ensures Value() == INITIAL && config == Config(threshold, recovery)
    {
      config := Config(threshold, recovery);
      state := Closed;
      consecutiveFailures := 0;
      retryAt := 0;
      probeInFlight := false;
    }

    /** Either refuses (with the seconds left) or admits, saying whether it is the probe. */
    method Before(now: int) returns (admitted: bool, probe: bool, retryAfter: int)
      modifies this
      ensures Value() == BeforeCall(old(Value()), now).breaker
      ensures BeforeCall(old(Value()), now).probe == if admitted then Some(probe) else None
      ensures !admitted ==> retryAfter == if old(retryAt) < now then 0 else old(retryAt) - now
    {
      admitted, probe, retryAfter := true, false, 0;
      if state == Open {
        if now < retryAt {
          return false, false, retryAt - now;
        }
        state := HalfOpen;
      }
      if state == HalfOpen {
        if probeInFlight {
          return false, false, if retryAt < now then 0 else retryAt - now;
        }
        probeInFlight := true;
        probe := true;
      }
    }

    method Succeed(probe: bool)
      modifies this
      ensures Value() == MarkSuccess(old(Value()), probe)
    {
      state := Closed;
      consecutiveFailures := 0;
      if probe {
        probeInFlight := false;
      }
    }

    method OpenIt(now: int)
      modifies this`state, this`retryAt, this`consecutiveFailures
      ensures Value() == OpenCircuit(old(Value()), config, now)
    {
      state := Open;
      retryAt := now + config.recovery;
      consecutiveFailures := config.threshold;
    }

    method Fail(now: int, probe: bool)
      modifies this
      ensures Value() == MarkFailure(old(Value()), config, now, probe)
    {
      if probe || state == HalfOpen {
        OpenIt(now);
        probeInFlight := false;
        return;
      }
      consecutiveFailures := consecutiveFailures + 1;
      if consecutiveFailures >= config.threshold {
        OpenIt(now);
      }
    }

    method Release(probe: bool)
      modifies this`probeInFlight
      ensures Value() == ReleaseProbe(old(Value()), probe)
    {
      if probe {
        probeInFlight := false;
      }
    }

    /** The exits of `call` after the operation. */
    method End(now: int, probe: bool, outcome: Outcome)
      modifies this
      ensures Value() == EndCall(old(Value()), config, now, probe, outcome)
    {
      match outcome
      case CutShort => Release(probe);
      case Failed(recorded) =>
        if recorded {
          Fail(now, probe);
        } else {
          Succeed(probe);
        }
      case Succeeded => Succeed(probe);
    }
  }

  // ---------------------------------------------------------------- runs

  datatype Event = Tick(elapsed: nat) | Enter(id: nat) | Leave(id: nat, outcome: Outcome)

  /** The process: the clock, the breaker, the admitted calls in flight (probe or not), and
      two tallies nobody reads: straggler failures recorded while half-open, and what was
      recorded since the last success. */
  datatype World = World(
    now: int,
    breaker: Breaker,
    inFlight: map<nat, bool>,
    stragglerFailures: nat,
    failuresSinceSuccess: nat,
    probeFailedSinceSuccess: bool)

  function Begin(now: int): World {
    World(now, INITIAL, map[], 0, 0, false)
  }

  predicate IsFailure(o: Outcome) {
    o.Failed? && o.recorded
  }

  predicate IsSuccess(o: Outcome) {
    o.Succeeded? || (o.Failed? && !o.recorded)
  }

  /** One event; entering with an id in flight and leaving with one that is not do nothing. */
  function Next(w: World, c: Config, e: Event): World {
    match e
    case Tick(elapsed) => w.(now := w.now + elapsed)
    case Enter(id) =>
      if id in w.inFlight then w
      else
        var a := BeforeCall(w.breaker, w.now);
        w.(breaker := a.breaker,
           inFlight := if a.probe.Some? then w.inFlight[id := a.probe.value] else w.inFlight)
    case Leave(id, outcome) =>
      if id !in w.inFlight then w
      else
        var probe := w.inFlight[id];
        World(w.now,
              EndCall(w.breaker, c, w.now, probe, outcome),
              w.inFlight - {id},
              w.stragglerFailures +
                (if IsFailure(outcome) && !probe && w.breaker.state.HalfOpen? then 1 else 0),
              if IsSuccess(outcome) then 0 else w.failuresSinceSuccess + (if IsFailure(outcome) then 1 else 0),
              !IsSuccess(outcome) && (w.probeFailedSinceSuccess || (IsFailure(outcome) && probe)))
  }

  function After(start: int, c: Config, run: seq<Event>, n: nat): World
    requires n <= |run|
  {
    if n == 0 then Begin(start) else Next(After(start, c, run, n - 1), c, run[n - 1])
  }

  function ProbesIn(inFlight: map<nat, bool>): set<nat> {
    set id | id in inFlight && inFlight[id]
  }

  function Probes(w: World): set<nat> {
    ProbesIn(w.inFlight)
  }

  /** What holds of the breaker and the tallies, the calls in flight aside. */
  predicate Tallied(b: Breaker, now: int, c: Config, failures: nat, probeFailed: bool) {
    && (b.state.Closed? ==> 0 <= b.failures < c.threshold && b.failures == failures)
    && (!b.state.Closed? ==> b.failures == c.threshold)
    && (b.state.Closed? <==> failures < c.threshold && !probeFailed)
    && b.retryAt <= now + c.recovery
  }

  /** What holds of the probes in flight. */
  predicate Probed(probes: set<nat>, flag: bool, stragglerFailures: nat) {
    && (flag ==> probes != {})
    && |probes| <= stragglerFailures + (if flag then 1 else 0)
  }

  predicate Inv(w: World, c: Config) {
    && Probed(Probes(w), w.breaker.probeInFlight, w.stragglerFailures)
    && Tallied(w.breaker, w.now, c, w.failuresSinceSuccess, w.probeFailedSinceSuccess)
  }

  lemma EntryKeepsProbed(w: World, c: Config, id: nat)
    requires Probed(Probes(w), w.breaker.probeInFlight, w.stragglerFailures)
    ensures var t := Next(w, c, Enter(id));
            Probed(Probes(t), t.breaker.probeInFlight, t.stragglerFailures)
  {
    var t := Next(w, c, Enter(id));
    if id !in w.inFlight && BeforeCall(w.breaker, w.now).probe == Some(true) {
      assert Probes(t) == Probes(w) + {id};
      assert |Probes(t)| == |Probes(w)| + 1;
    } else {
      assert Probes(t) == Probes(w);
    }
  }

  lemma ProbesAfterExit(inFlight: map<nat, bool>, id: nat)
    requires id in inFlight
    ensures var rest := inFlight - {id};
            ProbesIn(rest) == ProbesIn(inFlight) - {id}
            && |ProbesIn(rest)| == |ProbesIn(inFlight)| - (if inFlight[id] then 1 else 0)
  {
    var all, rest := ProbesIn(inFlight), ProbesIn(inFlight - {id});
    assert rest == all - {id};
    if inFlight[id] {
      assert id in all;
      assert |all - {id}| == |all| - 1;
    } else {
      assert all - {id} == all;
    }
  }

  lemma FlagAfterExit(b: Breaker, c: Config, now: int, probe: bool, outcome: Outcome)
    ensures var flag := EndCall(b, c, now, probe, outcome).probeInFlight;
            flag == (b.probeInFlight && !probe && !(IsFailure(outcome) && b.state.HalfOpen?))
  {
  }

  lemma ExitKeepsProbed(w: World, c: Config, id: nat, outcome: Outcome)
    requires Probed(Probes(w), w.breaker.probeInFlight, w.stragglerFailures)
    ensures var t := Next(w, c, Leave(id, outcome));
            Probed(Probes(t), t.breaker.probeInFlight, t.stragglerFailures)
  {
    if id in w.inFlight {
      ProbesAfterExit(w.inFlight, id);
      FlagAfterExit(w.breaker, c, w.now, w.inFlight[id], outcome);
    }
  }

  lemma ExitKeepsTallied(w: World, c: Config, id: nat, outcome: Outcome)
    requires Tallied(w.breaker, w.now, c, w.failuresSinceSuccess, w.probeFailedSinceSuccess)
    requires c.threshold >= 1 && c.recovery >= 0
    ensures var t := Next(w, c, Leave(id, outcome));
            && Tallied(t.breaker, t.now, c, t.failuresSinceSuccess, t.probeFailedSinceSuccess)
            && w.breaker.retryAt <= t.breaker.retryAt
  {
  }

  lemma NextKeepsInv(w: World, c: Config, e: Event)
    requires Inv(w, c) && c.threshold >= 1 && c.recovery >= 0
    ensures Inv(Next(w, c, e), c)
    ensures w.breaker.retryAt <= Next(w, c, e).breaker.retryAt
  {
    match e
    case Tick(_) => assert Probes(Next(w, c, e)) == Probes(w);
    case Enter(id) => EntryKeepsProbed(w, c, id);
    case Leave(id, outcome) =>
      ExitKeepsProbed(w, c, id, outcome);
      ExitKeepsTallied(w, c, id, outcome);
  }

  lemma {:induction false} InvAlways(start: int, c: Config, run: seq<Event>, n: nat)
    requires n <= |run| && c.threshold >= 1 && c.recovery >= 0 && start >= 0
    ensures Inv(After(start, c, run, n), c) && 0 <= After(start, c, run, n).now
  {
    if n > 0 {
      InvAlways(start, c, run, n - 1);
      NextKeepsInv(After(start, c, run, n - 1), c, run[n - 1]);
    } else {
      assert Probes(Begin(start)) == {};
    }
  }

  // ---------------------------------------------------------------- main results

  /** Over every interleaving: the probe flag means a probe is really in flight; probes in
      flight never exceed one plus the straggler failures recorded while half-open; and the
      counter is below the threshold exactly in the closed state, where it counts the
      failures since the last success, and at the threshold otherwise. */
  lemma BreakerOverEveryRun(start: int, c: Config, run: seq<Event>)
    requires c.threshold >= 1 && c.recovery >= 0 && start >= 0
    ensures var w := After(start, c, run, |run|);
            var b := w.breaker;
            && (b.probeInFlight ==> exists id :: id in w.inFlight && w.inFlight[id])
            && |Probes(w)| <= 1 + w.stragglerFailures
            && (b.state.Closed? <==> b.failures < c.threshold)
            && (!b.state.Closed? ==> b.failures == c.threshold)
            && (b.state.Closed? ==> b.failures == w.failuresSinceSuccess)
  {
    InvAlways(start, c, run, |run|);
    var w := After(start, c, run, |run|);
    if w.breaker.probeInFlight {
      var id :| id in Probes(w);
      assert id in w.inFlight && w.inFlight[id];
    }
  }

  /** When the circuit is closed, told from the recorded outcomes alone: since the last
      success there were fewer failures than the threshold, and none of them was a probe's. */
  lemma ClosedExactlyWhen(start: int, c: Config, run: seq<Event>)
    requires c.threshold >= 1 && c.recovery >= 0 && start >= 0
    ensures var w := After(start, c, run, |run|);
            w.breaker.state.Closed? <==> w.failuresSinceSuccess < c.threshold && !w.probeFailedSinceSuccess
  {
    InvAlways(start, c, run, |run|);
  }

  lemma {:induction false} RetryAtNeverDecreases(start: int, c: Config, run: seq<Event>, i: nat, j: nat)
    requires i <= j <= |run| && c.threshold >= 1 && c.recovery >= 0 && start >= 0
    ensures After(start, c, run, i).breaker.retryAt <= After(start, c, run, j).breaker.retryAt
    decreases j
  {
    if i < j {
      RetryAtNeverDecreases(start, c, run, i, j - 1);
      InvAlways(start, c, run, j - 1);
      NextKeepsInv(After(start, c, run, j - 1), c, run[j - 1]);
    }
  }

  /** The breaker cannot get stuck: with nothing in flight, a call is refused exactly while
      the circuit is open and its retry time has not come. */
  lemma IdleBreakerRefusesOnlyWhileOpen(start: int, c: Config, run: seq<Event>)
    requires c.threshold >= 1 && c.recovery >= 0 && start >= 0
    requires After(start, c, run, |run|).inFlight == map[]
    ensures var w := After(start, c, run, |run|);
            BeforeCall(w.breaker, w.now).probe.None? <==> w.breaker.state.Open? && w.now < w.breaker.retryAt
  {
    InvAlways(start, c, run, |run|);
    assert Probes(After(start, c, run, |run|)) == {};
  }

  /** A single failure can reopen the circuit: call 1 is a straggler of the closed state;
      call 2 opens the circuit, call 3 is the probe; call 1 succeeds and closes it, and then
      the probe's lone failure opens it again, far from the threshold. */
  lemma LoneProbeFailureReopens(c: Config) returns (run: seq<Event>)
    requires c.threshold == 2 && c.recovery >= 0
    ensures var w := After(0, c, run, |run|);
            w.breaker.state.Open? && w.failuresSinceSuccess == 1
  {
    var bad := Failed(true);
    run := [Enter(1), Enter(2), Leave(2, bad), Enter(2), Leave(2, bad), Tick(c.recovery), Enter(3),
            Leave(1, Succeeded), Leave(3, bad)];
    var w0 := After(0, c, run, 0);
    var w1 := After(0, c, run, 1);
    assert w1 == World(0, INITIAL, map[1 := false], 0, 0, false) by { assert w1 == Next(w0, c, run[0]); }
    var w2 := After(0, c, run, 2);
    assert w2 == World(0, INITIAL, map[1 := false, 2 := false], 0, 0, false) by { assert w2 == Next(w1, c, run[1]); }
    var w3 := After(0, c, run, 3);
    assert w3 == World(0, INITIAL.(failures := 1), map[1 := false], 0, 1, false) by {
      assert w3 == Next(w2, c, run[2]);
      assert w2.inFlight - {2} == map[1 := false];
    }
    var w4 := After(0, c, run, 4);
    assert w4 == World(0, INITIAL.(failures := 1), map[1 := false, 2 := false], 0, 1, false) by {
      assert w4 == Next(w3, c, run[3]);
    }
    var w5 := After(0, c, run, 5);
    assert w5 == World(0, Breaker(Open, 2, c.recovery, false), map[1 := false], 0, 2, false) by {
      assert w5 == Next(w4, c, run[4]);
      assert w4.inFlight - {2} == map[1 := false];
    }
    var w6 := After(0, c, run, 6);
    assert w6 == w5.(now := c.recovery) by { assert w6 == Next(w5, c, run[5]); }
    var w7 := After(0, c, run, 7);
    assert w7 == w6.(breaker := Breaker(HalfOpen, 2, c.recovery, true), inFlight := map[1 := false, 3 := true]) by {
      assert w7 == Next(w6, c, run[6]);
    }
    var w8 := After(0, c, run, 8);
    assert w8 == World(c.recovery, Breaker(Closed, 0, c.recovery, true), map[3 := true], 0, 0, false) by {
      assert w8 == Next(w7, c, run[7]);
      assert w7.inFlight - {1} == map[3 := true];
    }
    assert After(0, c, run, 9) == Next(w8, c, run[8]);
  }
}
