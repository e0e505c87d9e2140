/** The event circuit breaker (internal/events/circuit_breaker.go).

    `Execute` takes its lock twice, once to admit a call and once to record its result, so any
    number of calls can be in flight and results can arrive in any later state.  The breaker is
    a value with the two locked regions as functions; runs interleave them freely. */
module CircuitBreaker {

  import opened Common

  datatype CircuitState = Closed | Open | HalfOpen

  datatype Config = Config(failureThreshold: int, successThreshold: int, maxHalfOpenCalls: int, recoveryTimeout: int)

  datatype Breaker = Breaker(
    state: CircuitState,
    failureCount: int,
    successCount: int,
    halfOpenCalls: int,
    lastFailureTime: int)

  const INITIAL := Breaker(Closed, 0, 0, 0, 0)

  /** Whether `allowCall` admits the call, and the breaker afterwards. */
  predicate Admits(cfg: Config, b: Breaker, now: int) {
    match b.state
    case Closed => true
    case Open => now - b.lastFailureTime >= cfg.recoveryTimeout
    case HalfOpen => b.halfOpenCalls < cfg.maxHalfOpenCalls
  }

  function AfterAllow(cfg: Config, b: Breaker, now: int): Breaker {
    if !Admits(cfg, b, now) then b
    else match b.state
      case Closed => b
      case Open => b.(state := HalfOpen, halfOpenCalls := 0)
      case HalfOpen => b.(halfOpenCalls := b.halfOpenCalls + 1)
  }

  function AfterResult(cfg: Config, b: Breaker, ok: bool, now: int): Breaker {
    if ok then
      var c := b.(successCount := b.successCount + 1);
      match b.state
      case HalfOpen => if c.successCount >= cfg.successThreshold then c.(state := Closed, failureCount := 0) else c
      case Closed => c.(failureCount := 0)
      case Open => c
    else
      var c := b.(failureCount := b.failureCount + 1, lastFailureTime := now);
      match b.state
      case Closed => if c.failureCount >= cfg.failureThreshold then c.(state := Open) else c
      case HalfOpen => c.(state := Open)
      case Open => c
  }

  function AfterReset(b: Breaker): Breaker {
    b.(state := Closed, failureCount := 0, successCount := 0, halfOpenCalls := 0)
  }

  /* ---------- The object ---------- */

  class SimpleCircuitBreaker {
    const config: Config
    var state: CircuitState
    var failureCount: int
    var successCount: int
    var halfOpenCalls: int
    var lastFailureTime: int
    var lastSuccessTime: int

    constructor (config: Config)
      ensures View() == INITIAL && this.config == config
    {
      this.config := config;
      state, failureCount, successCount, halfOpenCalls := Closed, 0, 0, 0;
      lastFailureTime, lastSuccessTime := 0, 0;
    }

    ghost function View(): Breaker
      reads this
    {
      Breaker(state, failureCount, successCount, halfOpenCalls, lastFailureTime)
    }

    method AllowCall(now: int) returns (allowed: bool)
      modifies this`state, this`halfOpenCalls
      ensures allowed == Admits(config, old(View()), now)
      ensures View() == AfterAllow(config, old(View()), now)
    {
      match state {
        case Closed => return true;
        case Open =>
          if now - lastFailureTime >= config.recoveryTimeout {
            state, halfOpenCalls := HalfOpen, 0;
            return true;
          }
          return false;
        case HalfOpen =>
          if halfOpenCalls < config.maxHalfOpenCalls {
            halfOpenCalls := halfOpenCalls + 1;
            return true;
          }
          return false;
      }
    }

    /** One protected call, with the function's outcome and its finishing time. */
    method Execute(now: int, outcome: bool, later: int) returns (ran: bool, ok: bool)
      modifies this
      ensures ran == Admits(config, old(View()), now) && ok == (ran && outcome)
      ensures !ran ==> View() == old(View())
      ensures ran ==> View() == AfterResult(config, AfterAllow(config, old(View()), now), outcome, later)
    {
      ran := AllowCall(now);
      if !ran {
        return false, false;
      }
      RecordResult(outcome, later);
      ok := outcome;
    }

    method RecordResult(ok: bool, now: int)
      modifies this
      ensures View() == AfterResult(config, old(View()), ok, now)
    {
      if ok {
        RecordSuccess(now);
      } else {
        RecordFailure(now);
      }
    }

    method RecordFailure(now: int)
      modifies this
      ensures View() == AfterResult(config, old(View()), false, now)
    {
      failureCount := failureCount + 1;
      lastFailureTime := now;
      match state {
        case Closed =>
          if failureCount >= config.failureThreshold {
            state := Open;
          }
        case HalfOpen => state := Open;
        case Open =>
      }
    }

    method RecordSuccess(now: int)
      modifies this
      ensures View() == AfterResult(config, old(View()), true, now)
    {
      successCount := successCount + 1;
      lastSuccessTime := now;
      match state {
        case HalfOpen =>
          if successCount >= config.successThreshold {
            state, failureCount := Closed, 0;
          }
        case Closed => failureCount := 0;
        case Open =>
      }
    }

    method Reset()
      modifies this`state, this`failureCount, this`successCount, this`halfOpenCalls
      ensures View() == AfterReset(old(View()))
    {
      state, failureCount, successCount, halfOpenCalls := Closed, 0, 0, 0;
    }
  }

  /* ---------- Runs ---------- */

  datatype Step = Tick(elapsed: nat) | Call | Finish(ok: bool) | Reset

  /** The breaker with its environment; `log` and the `episode` counters only observe. */
  datatype System = System(
    breaker: Breaker,
    now: int,
    inFlight: nat,              // admitted, result not yet recorded
    log: seq<bool>,             // results since construction or Reset
    episodeAdmitted: nat,       // calls admitted since the breaker last became half-open
    episodeSuccesses: nat)      // successes recorded since then while half-open

  function Start(now: int): System {
    System(INITIAL, now, 0, [], 0, 0)
  }

  predicate Enabled(s: System, step: Step) {
    step.Finish? ==> s.inFlight > 0
  }

  function Next(cfg: Config, s: System, step: Step): System
    requires Enabled(s, step)
  {
    var b := s.breaker;
    match step
    case Tick(elapsed) => s.(now := s.now + elapsed)
    case Call =>
      if !Admits(cfg, b, s.now) then s.(breaker := AfterAllow(cfg, b, s.now))
      else s.(breaker := AfterAllow(cfg, b, s.now), inFlight := s.inFlight + 1,
              episodeAdmitted := if b.state.Open? then 1 else if b.state.HalfOpen? then s.episodeAdmitted + 1 else s.episodeAdmitted,
              episodeSuccesses := if b.state.Open? then 0 else s.episodeSuccesses)
    case Finish(ok) =>
      s.(breaker := AfterResult(cfg, b, ok, s.now), inFlight := s.inFlight - 1, log := s.log + [ok],
         episodeSuccesses := s.episodeSuccesses + if ok && b.state.HalfOpen? then 1 else 0)
    case Reset => s.(breaker := AfterReset(b), log := [])
  }

  function Run(cfg: Config, s: System, steps: seq<Step>): (r: Option<System>)
    decreases |steps|
  {
    if steps == [] then Some(s)
    else if Enabled(s, steps[0]) then Run(cfg, Next(cfg, s, steps[0]), steps[1..])
    else None
  }

  ghost predicate Reachable(cfg: Config, s: System) {
    exists start: int, steps: seq<Step> :: Run(cfg, Start(start), steps) == Some(s)
  }

  /* ---------- What the log says ---------- */

  function TrailingFailures(log: seq<bool>): nat {
    if log == [] || log[|log| - 1] then 0 else 1 + TrailingFailures(log[..|log| - 1])
  }

  function Successes(log: seq<bool>): nat {
    if log == [] then 0 else Successes(log[..|log| - 1]) + if log[|log| - 1] then 1 else 0
  }

  /** Calls beyond the first that a half-open episode may admit. */
  function ExtraCalls(cfg: Config): nat {
    Max(0, cfg.maxHalfOpenCalls)
  }

  /* ---------- Invariant ---------- */

  ghost predicate CountsFollowLog(cfg: Config, s: System) {
    && s.breaker.successCount == Successes(s.log)
    && (s.breaker.state.Closed? ==>
          s.breaker.failureCount == TrailingFailures(s.log) && s.breaker.failureCount < Max(1, cfg.failureThreshold))
  }

  ghost predicate EpisodeAccounted(cfg: Config, s: System) {
    s.breaker.state.HalfOpen? ==>
      && s.episodeAdmitted == s.breaker.halfOpenCalls + 1
      && 0 <= s.breaker.halfOpenCalls <= ExtraCalls(cfg)
      && s.inFlight + s.episodeSuccesses >= s.episodeAdmitted
      && s.episodeSuccesses <= s.breaker.successCount
      && (s.episodeSuccesses > 0 ==> s.breaker.successCount < cfg.successThreshold)
  }

  ghost predicate Inv(cfg: Config, s: System) {
    CountsFollowLog(cfg, s) && EpisodeAccounted(cfg, s)
  }

  lemma StepKeepsInv(cfg: Config, s: System, step: Step)
    requires Inv(cfg, s) && Enabled(s, step)
    ensures Inv(cfg, Next(cfg, s, step))
  {
    if step.Finish? {
      assert (s.log + [step.ok])[..|s.log|] == s.log;
    }
  }

  lemma {:induction false} RunKeepsInv(cfg: Config, s: System, steps: seq<Step>)
    requires Inv(cfg, s) && Run(cfg, s, steps).Some?
    ensures Inv(cfg, Run(cfg, s, steps).value)
    decreases |steps|
  {
    if steps != [] {
      StepKeepsInv(cfg, s, steps[0]);
      RunKeepsInv(cfg, Next(cfg, s, steps[0]), steps[1..]);
    }
  }

  lemma ReachableInv(cfg: Config, s: System)
    requires Reachable(cfg, s)
    ensures Inv(cfg, s)
  {
    var start: int, steps: seq<Step> :| Run(cfg, Start(start), steps) == Some(s);
    RunKeepsInv(cfg, Start(start), steps);
  }

  /** While closed, `failureCount` is the trailing run of failures and below the threshold;
      `successCount` is always the number of successes. */
  lemma CountersMatchLog(cfg: Config, s: System)
    requires Reachable(cfg, s)
    ensures s.breaker.successCount == Successes(s.log)
    ensures s.breaker.state.Closed? ==> s.breaker.failureCount == TrailingFailures(s.log)
    ensures s.breaker.state.Closed? && cfg.failureThreshold >= 1 ==> s.breaker.failureCount < cfg.failureThreshold
  {
    ReachableInv(cfg, s);
  }

  /** A half-open episode admits its opening call and at most `MaxHalfOpenCalls` more. */
  lemma EpisodeIsBounded(cfg: Config, s: System)
    requires Reachable(cfg, s) && s.breaker.state.HalfOpen?
    ensures 1 <= s.episodeAdmitted <= Max(0, cfg.maxHalfOpenCalls) + 1
  {
    ReachableInv(cfg, s);
  }

  /* ---------- Wedging ---------- */

  /** Half-open, nothing in flight that could move it, and refusing calls. */
  predicate Wedged(cfg: Config, s: System) {
    s.breaker.state.HalfOpen? && s.inFlight == 0 && !Admits(cfg, s.breaker, s.now)
  }

  /** A wedged breaker stays wedged, with nothing admitted, until someone calls `Reset`. */
  lemma {:induction false} WedgedForever(cfg: Config, s: System, steps: seq<Step>)
    requires Wedged(cfg, s) && Run(cfg, s, steps).Some? && Reset !in steps
    ensures Wedged(cfg, Run(cfg, s, steps).value) && Run(cfg, s, steps).value.breaker == s.breaker
    decreases |steps|
  {
    if steps != [] {
      assert steps[0] != Reset;
      WedgedForever(cfg, Next(cfg, s, steps[0]), steps[1..]);
    }
  }

  /** The breaker can wedge exactly when it asks for more successes than an episode admits calls. */
  lemma WedgesIff(cfg: Config)
    ensures (exists s :: Reachable(cfg, s) && Wedged(cfg, s)) <==> cfg.successThreshold > Max(0, cfg.maxHalfOpenCalls) + 1
  {
    forall s | Reachable(cfg, s) && Wedged(cfg, s)
      ensures cfg.successThreshold > ExtraCalls(cfg) + 1
    {
      ReachableInv(cfg, s);
    }
    if cfg.successThreshold > ExtraCalls(cfg) + 1 {
      var steps := DriveToWedge(cfg);
      assert Reachable(cfg, Run(cfg, Start(0), steps).value);
    }
  }

  /** In particular, with at most as many successes required as calls admitted, a half-open
      breaker with nothing in flight always admits the next call. */
  lemma NeverWedges(cfg: Config, s: System)
    requires cfg.successThreshold <= cfg.maxHalfOpenCalls + 1
    requires Reachable(cfg, s) && s.breaker.state.HalfOpen? && s.inFlight == 0
    ensures Admits(cfg, s.breaker, s.now)
  {
    ReachableInv(cfg, s);
  }

  lemma {:induction false} RunAppend(cfg: Config, s: System, a: seq<Step>, b: seq<Step>)
    requires Run(cfg, s, a).Some?
    ensures Run(cfg, s, a + b) == Run(cfg, Run(cfg, s, a).value, b)
    decreases |a|
  {
    if a == [] {
      assert a + b == b;
    } else {
      assert (a + b)[0] == a[0] && (a + b)[1..] == a[1..] + b;
      RunAppend(cfg, Next(cfg, s, a[0]), a[1..], b);
    }
  }

  /** One call from admission to result. */
  lemma CallThenFinish(cfg: Config, s: System, ok: bool)
    requires Admits(cfg, s.breaker, s.now)
    ensures Run(cfg, s, [Call, Finish(ok)]) == Some(Next(cfg, Next(cfg, s, Call), Finish(ok)))
  {
    var t := Next(cfg, s, Call);
    assert [Call, Finish(ok)][1..] == [Finish(ok)] && [Finish(ok)][1..] == [];
    assert Run(cfg, t, [Finish(ok)]) == Run(cfg, Next(cfg, t, Finish(ok)), []);
  }

  /** `k` failing calls in a row while the breaker stays closed. */
  lemma {:induction false} DriveFailures(cfg: Config, k: nat) returns (steps: seq<Step>)
    requires k < Max(1, cfg.failureThreshold)
    ensures Run(cfg, Start(0), steps).Some?
    ensures var t := Run(cfg, Start(0), steps).value;
      t.breaker.state.Closed? && t.breaker.failureCount == k && t.breaker.successCount == 0 && t.inFlight == 0
  {
    if k == 0 {
      steps := [];
    } else {
      var before := DriveFailures(cfg, k - 1);
      var s := Run(cfg, Start(0), before).value;
      CallThenFinish(cfg, s, false);
      RunAppend(cfg, Start(0), before, [Call, Finish(false)]);
      steps := before + [Call, Finish(false)];
    }
  }

  /** Fail until the breaker opens, wait, and let the opening call of an episode succeed. */
  lemma DriveToHalfOpen(cfg: Config) returns (steps: seq<Step>)
    requires cfg.successThreshold >= 2
    ensures Run(cfg, Start(0), steps).Some?
    ensures var t := Run(cfg, Start(0), steps).value;
      t.breaker.state.HalfOpen? && t.breaker.halfOpenCalls == 0 && t.breaker.successCount == 1 && t.inFlight == 0
  {
    var failing := DriveFailures(cfg, Max(1, cfg.failureThreshold) - 1);
    var s := Run(cfg, Start(0), failing).value;
    CallThenFinish(cfg, s, false);
    RunAppend(cfg, Start(0), failing, [Call, Finish(false)]);
    var tripped := failing + [Call, Finish(false)];
    var o := Run(cfg, Start(0), tripped).value;
    assert o.breaker.state.Open?;
    var wait := Tick(Max(0, cfg.recoveryTimeout));
    RunAppend(cfg, Start(0), tripped, [wait]);
    assert [wait][1..] == [] && Run(cfg, o, [wait]) == Some(Next(cfg, o, wait));
    var waited := tripped + [wait];
    var w := Run(cfg, Start(0), waited).value;
    CallThenFinish(cfg, w, true);
    RunAppend(cfg, Start(0), waited, [Call, Finish(true)]);
    steps := waited + [Call, Finish(true)];
  }

  /** Use up `k` of the episode's further calls, all succeeding. */
  lemma {:induction false} DriveSuccesses(cfg: Config, k: nat) returns (steps: seq<Step>)
    requires k <= ExtraCalls(cfg) && cfg.successThreshold > ExtraCalls(cfg) + 1
    ensures Run(cfg, Start(0), steps).Some?
    ensures var t := Run(cfg, Start(0), steps).value;
      t.breaker.state.HalfOpen? && t.breaker.halfOpenCalls == k && t.breaker.successCount == k + 1 && t.inFlight == 0
  {
    if k == 0 {
      steps := DriveToHalfOpen(cfg);
    } else {
      var before := DriveSuccesses(cfg, k - 1);
      var s := Run(cfg, Start(0), before).value;
      CallThenFinish(cfg, s, true);
      RunAppend(cfg, Start(0), before, [Call, Finish(true)]);
      steps := before + [Call, Finish(true)];
    }
  }

  lemma DriveToWedge(cfg: Config) returns (steps: seq<Step>)
    requires cfg.successThreshold > ExtraCalls(cfg) + 1
    ensures Run(cfg, Start(0), steps).Some? && Wedged(cfg, Run(cfg, Start(0), steps).value)
  {
    steps := DriveSuccesses(cfg, ExtraCalls(cfg));
  }

  /* ---------- Recovery timeout ---------- */

  /** Number of calls admitted along a run. */
  function Admissions(cfg: Config, s: System, steps: seq<Step>): nat
    requires Run(cfg, s, steps).Some?
    decreases |steps|
  {
    if steps == [] then 0
    else (if steps[0].Call? && Admits(cfg, s.breaker, s.now) then 1 else 0) + Admissions(cfg, Next(cfg, s, steps[0]), steps[1..])
  }

  /** After a failure leaves the breaker open, no call is admitted before the recovery timeout,
      whatever late results arrive, unless someone resets it. */
  lemma FailureQuarantines(cfg: Config, s: System, steps: seq<Step>)
    requires s.inFlight > 0 && Next(cfg, s, Finish(false)).breaker.state.Open?
    requires var t := Next(cfg, s, Finish(false));
      Run(cfg, t, steps).Some? && Reset !in steps && Run(cfg, t, steps).value.now < s.now + cfg.recoveryTimeout
    ensures Admissions(cfg, Next(cfg, s, Finish(false)), steps) == 0
    ensures Run(cfg, Next(cfg, s, Finish(false)), steps).value.breaker.state.Open?
  {
    OpenStaysOpen(cfg, Next(cfg, s, Finish(false)), steps, s.now);
  }

  lemma {:induction false} TimeAdvances(cfg: Config, s: System, steps: seq<Step>)
    requires Run(cfg, s, steps).Some?
    ensures s.now <= Run(cfg, s, steps).value.now
    decreases |steps|
  {
    if steps != [] {
      TimeAdvances(cfg, Next(cfg, s, steps[0]), steps[1..]);
    }
  }

  lemma {:induction false} OpenStaysOpen(cfg: Config, s: System, steps: seq<Step>, failedAt: int)
    requires s.breaker.state.Open? && failedAt <= s.breaker.lastFailureTime <= s.now
    requires Run(cfg, s, steps).Some? && Reset !in steps
    requires Run(cfg, s, steps).value.now < failedAt + cfg.recoveryTimeout
    ensures Admissions(cfg, s, steps) == 0 && Run(cfg, s, steps).value.breaker.state.Open?
    decreases |steps|
  {
    if steps != [] {
      TimeAdvances(cfg, s, steps);
      assert steps[0] != Reset;
      OpenStaysOpen(cfg, Next(cfg, s, steps[0]), steps[1..], failedAt);
    }
  }

  /* ---------- When calls are admitted and what results do ---------- */

  /** No result that failed, and no reset. */
  predicate NoFailures(steps: seq<Step>) {
    Finish(false) !in steps && Reset !in steps
  }

  lemma {:induction false} OpenWaits(cfg: Config, s: System, steps: seq<Step>)
    requires s.breaker.state.Open? && NoFailures(steps)
    requires Run(cfg, s, steps).Some? && Admissions(cfg, s, steps) == 0
    ensures var u := Run(cfg, s, steps).value;
      u.breaker.state.Open? && u.breaker.lastFailureTime == s.breaker.lastFailureTime
    decreases |steps|
  {
    if steps != [] {
      assert steps[0] in steps;
      OpenWaits(cfg, Next(cfg, s, steps[0]), steps[1..]);
    }
  }

  /** After a failure at `s.now` leaves the breaker open, and as long as no further failure, reset or
      admission intervenes, the next call is admitted if and only if the recovery timeout has passed since
      that failure; and then it opens an episode. */
  lemma RecoversIff(cfg: Config, s: System, steps: seq<Step>)
    requires s.inFlight > 0 && Next(cfg, s, Finish(false)).breaker.state.Open?
    requires var t := Next(cfg, s, Finish(false));
      NoFailures(steps) && Run(cfg, t, steps).Some? && Admissions(cfg, t, steps) == 0
    ensures var u := Run(cfg, Next(cfg, s, Finish(false)), steps).value;
      var v := Next(cfg, u, Call);
      if u.now >= s.now + cfg.recoveryTimeout
      then v.inFlight == u.inFlight + 1 && v.breaker.state.HalfOpen? && v.episodeAdmitted == 1
      else v.inFlight == u.inFlight && v.breaker == u.breaker
  {
    OpenWaits(cfg, Next(cfg, s, Finish(false)), steps);
  }

  /** A closed breaker admits every call; a half-open one admits one exactly while its episode has
      admitted no more than MaxHalfOpenCalls. */
  lemma CallDecides(cfg: Config, s: System)
    requires Reachable(cfg, s) && !s.breaker.state.Open?
    ensures var t := Next(cfg, s, Call);
      && t.breaker.state == s.breaker.state
      && (t.inFlight == if s.breaker.state.Closed? || s.episodeAdmitted <= cfg.maxHalfOpenCalls then s.inFlight + 1 else s.inFlight)
  {
    ReachableInv(cfg, s);
  }

  /** The state after a result, read off the log: a closed breaker opens exactly at the threshold of
      consecutive failures, a half-open one at any failure, and it closes exactly when the successes since
      the last reset reach their threshold; an open breaker stays open. */
  lemma ResultDecides(cfg: Config, s: System, ok: bool)
    requires Reachable(cfg, s) && s.inFlight > 0
    ensures Next(cfg, s, Finish(ok)).breaker.state ==
      match s.breaker.state
      case Closed => if !ok && TrailingFailures(s.log) + 1 >= cfg.failureThreshold then Open else Closed
      case HalfOpen => if !ok then Open else if Successes(s.log) + 1 >= cfg.successThreshold then Closed else HalfOpen
      case Open => Open
  {
    ReachableInv(cfg, s);
  }

  /** After a reset the breaker is closed, its log starts anew, and the next call is admitted. */
  lemma ResetReadmits(cfg: Config, s: System)
    requires Reachable(cfg, s)
    ensures var t := Next(cfg, s, Reset);
      t.breaker.state.Closed? && t.log == [] && Next(cfg, t, Call).inFlight == s.inFlight + 1
  {
    ReachableInv(cfg, s);
  }
}
