/** The decision to tear a roost down, and why it does not depend on the order in which evaluators
    are found (internal/teardown/manager.go). */
module TeardownManager {

  import opened Common
  import opened TeardownEvaluation
  import opened TeardownSafety

  /* ---------- What the decision should be ---------- */

  predicate Recommended(roost: Roost, now: int) {
    || (exists t <- Triggers(roost) :: Expired(t, roost, now))
    || (exists t <- Triggers(roost) :: TooManyFailures(t, roost))
    || (Configured(roost, HealthBased) && roost.health == "unhealthy")
  }

  predicate Vetoed(roost: Roost, cluster: Cluster) {
    VolumesAtRisk(roost, cluster) || NeedsApproval(roost)
  }

  /** The strongest fired trigger: failures outrank ill health, which outranks age. */
  function Winner(roost: Roost, now: int): Option<Decision> {
    if FailureAnswer(roost).Some? then FailureAnswer(roost)
    else if Configured(roost, HealthBased) && HealthAnswer(roost).Some? then HealthAnswer(roost)
    else TimeoutAnswer(roost, now)
  }

  /** The aggregated decision before the safety gate. */
  function Aggregated(roost: Roost, now: int): Decision {
    if Winner(roost, now).Some?
    then Winner(roost, now).value.(triggerReasons := Reasons(FiredDecisions(roost, now)))
    else Declined(NoTriggers)
  }

  function Gated(d: Decision, roost: Roost, cluster: Cluster): Decision {
    d.(safetyChecks := Report(roost, cluster),
       shouldTeardown := !Vetoed(roost, cluster),
       reason := if VolumesAtRisk(roost, cluster) then SafetyCheckFailed(PersistentVolumes)
                 else if NeedsApproval(roost) then SafetyCheckFailed(ManualApproval)
                 else d.reason)
  }

  /** The outcome as a function of the roost, the clock and the cluster alone: no registry, no
      collection order, no sort. */
  ghost function Outcome(roost: Roost, now: int, safety: bool, cluster: Cluster): Decision {
    if roost.policy.None? then Declined(NoPolicy)
    else if forall k :: k in DEFAULT_PRIORITIES ==> !Configured(roost, k) then Declined(NoEvaluators)
    else if safety && Aggregated(roost, now).shouldTeardown then Gated(Aggregated(roost, now), roost, cluster)
    else Aggregated(roost, now)
  }

  lemma WinnerIffRecommended(roost: Roost, now: int)
    ensures Winner(roost, now).Some? <==> Recommended(roost, now)
    ensures Winner(roost, now).Some? ==> Winner(roost, now).value.shouldTeardown
  {
    var ts := Triggers(roost);
    assert TimeoutAnswer(roost, now).Some? <==> exists t <- ts :: Expired(t, roost, now) by {
      assert forall i | 0 <= i < |ts| :: ts[i] in ts;
    }
    assert FailureAnswer(roost).Some? <==> exists t <- ts :: TooManyFailures(t, roost) by {
      assert forall i | 0 <= i < |ts| :: ts[i] in ts;
    }
  }

  lemma RecommendedNeedsEvaluator(roost: Roost, now: int)
    requires Recommended(roost, now)
    ensures exists k :: k in DEFAULT_PRIORITIES && Configured(roost, k)
  {
    if exists t <- Triggers(roost) :: Expired(t, roost, now) {
      assert Configured(roost, Timeout) && Timeout in DEFAULT_PRIORITIES;
    } else if exists t <- Triggers(roost) :: TooManyFailures(t, roost) {
      assert Configured(roost, FailureCount) && FailureCount in DEFAULT_PRIORITIES;
    } else {
      assert Configured(roost, HealthBased) && HealthBased in DEFAULT_PRIORITIES;
    }
  }

  /** A roost is torn down exactly when a trigger fires and, with safety checks on, nothing vetoes it. */
  lemma TeardownIff(roost: Roost, now: int, safety: bool, cluster: Cluster)
    ensures Outcome(roost, now, safety, cluster).shouldTeardown <==> Recommended(roost, now) && (safety ==> !Vetoed(roost, cluster))
  {
    WinnerIffRecommended(roost, now);
    if Recommended(roost, now) {
      RecommendedNeedsEvaluator(roost, now);
    }
  }

  /** The same, in terms of the policy and the lists alone: a timeout has expired, the 32-bit failure total
      reaches a threshold, or the roost is unhealthy and has a health trigger; and with safety checks on, no
      manual approval is required and the volume claims could be listed and are absent or preserved. */
  lemma TeardownMeans(roost: Roost, now: int, safety: bool, cluster: Cluster)
    requires roost.policy.Some?
    ensures var policy := roost.policy.value;
      Outcome(roost, now, safety, cluster).shouldTeardown <==>
        && (|| (exists t <- policy.triggers :: t.kind == Timeout && t.timeout.Some? && now - roost.creationTime > t.timeout.value)
            || (exists t <- policy.triggers ::
                  t.kind == FailureCount && t.failureCount.Some? && Wrap32(Sum(roost.healthChecks)) >= t.failureCount.value)
            || ((exists t <- policy.triggers :: t.kind == HealthBased) && roost.health == "unhealthy"))
        && (safety ==>
              && !policy.requireManualApproval
              && cluster.volumeClaims.Some?
              && (cluster.volumeClaims.value == [] || (policy.dataPreservation.Some? && policy.dataPreservation.value.enabled)))
  {
    TeardownIff(roost, now, safety, cluster);
    var ts := roost.policy.value.triggers;
    assert (exists t <- ts :: Expired(t, roost, now)) <==>
      (exists t <- ts :: t.kind == Timeout && t.timeout.Some? && now - roost.creationTime > t.timeout.value);
    assert (exists t <- ts :: TooManyFailures(t, roost)) <==>
      (exists t <- ts :: t.kind == FailureCount && t.failureCount.Some? && Wrap32(Sum(roost.healthChecks)) >= t.failureCount.value);
  }

  /** The trigger types the custom resource definition admits. */
  predicate Legal(roost: Roost) {
    forall t <- Triggers(roost) :: t.kind in {Timeout, FailureCount, ResourceThreshold, Schedule, Webhook}
  }

  /** With admissible triggers the roost's health plays no part. */
  lemma LegalTeardownIff(roost: Roost, now: int, cluster: Cluster)
    requires Legal(roost)
    ensures Outcome(roost, now, true, cluster).shouldTeardown <==>
      && roost.policy.Some?
      && ((exists t <- roost.policy.value.triggers ::
             t.kind == Timeout && t.timeout.Some? && now - roost.creationTime > t.timeout.value)
          || (exists t <- roost.policy.value.triggers ::
                t.kind == FailureCount && t.failureCount.Some? && Wrap32(Sum(roost.healthChecks)) >= t.failureCount.value))
      && !roost.policy.value.requireManualApproval
      && cluster.volumeClaims.Some?
      && (cluster.volumeClaims.value == []
          || (roost.policy.value.dataPreservation.Some? && roost.policy.value.dataPreservation.value.enabled))
  {
    if roost.policy.Some? {
      TeardownMeans(roost, now, true, cluster);
    }
  }

  /** A trigger that fires by itself. */
  predicate Fires(t: Trigger, roost: Roost, now: int) {
    || (t.kind == Timeout && t.timeout.Some? && now - roost.creationTime > t.timeout.value)
    || (t.kind == FailureCount && t.failureCount.Some? && Wrap32(Sum(roost.healthChecks)) >= t.failureCount.value)
    || (t.kind == HealthBased && roost.health == "unhealthy")
  }

  /** How a decision made for this trigger presents itself. */
  predicate Names(d: Decision, t: Trigger) {
    && d.triggerType == Some(t.kind)
    && d.urgency == (if t.kind == Timeout then Medium else High)
    && d.score == (if t.kind == FailureCount then 80 else if t.kind == HealthBased then 70 else 50)
  }

  function ReasonOf(t: Trigger, roost: Roost): Reason {
    if t.kind == FailureCount && t.failureCount.Some? then FailureCountReached(Wrap32(Sum(roost.healthChecks)), t.failureCount.value)
    else if t.kind == Timeout && t.timeout.Some? then TimeoutReached(t.timeout.value)
    else LongUnhealthy
  }

  /** The trigger that decides: failures before ill health before age, and the first of its kind in the list. */
  predicate Leads(ts: seq<Trigger>, i: int, roost: Roost, now: int) {
    && 0 <= i < |ts| && Fires(ts[i], roost, now)
    && (forall j | 0 <= j < i && ts[j].kind == ts[i].kind :: !Fires(ts[j], roost, now))
    && (ts[i].kind == Timeout ==> forall t <- ts | Fires(t, roost, now) :: t.kind == Timeout)
    && (ts[i].kind == HealthBased ==> forall t <- ts | Fires(t, roost, now) :: t.kind != FailureCount)
  }

  /** A recommendation names the leading trigger, and gives its reason unless it is declined. */
  lemma OutcomeNames(roost: Roost, now: int, safety: bool, cluster: Cluster)
    requires Recommended(roost, now)
    ensures var d, ts := Outcome(roost, now, safety, cluster), Triggers(roost);
      exists i | 0 <= i < |ts| :: Leads(ts, i, roost, now) && Names(d, ts[i]) && (d.shouldTeardown ==> d.reason == ReasonOf(ts[i], roost))
  {
    WinnerNames(roost, now);
    RecommendedNeedsEvaluator(roost, now);
    WinnerIffRecommended(roost, now);
    TeardownIff(roost, now, safety, cluster);
  }

  lemma WinnerNames(roost: Roost, now: int)
    requires Recommended(roost, now)
    ensures Winner(roost, now).Some?
    ensures var d, ts := Winner(roost, now).value, Triggers(roost);
      exists i | 0 <= i < |ts| :: Leads(ts, i, roost, now) && Names(d, ts[i]) && d.reason == ReasonOf(ts[i], roost)
  {
    WinnerIffRecommended(roost, now);
    if FailureAnswer(roost).Some? {
      FailureLeads(roost, now);
    } else if Configured(roost, HealthBased) && roost.health == "unhealthy" {
      HealthLeads(roost, now);
    } else {
      TimeoutLeads(roost, now);
    }
  }

  lemma FailureLeads(roost: Roost, now: int)
    requires FailureAnswer(roost).Some?
    ensures var d, ts := FailureAnswer(roost).value, Triggers(roost);
      exists i | 0 <= i < |ts| :: Leads(ts, i, roost, now) && Names(d, ts[i]) && d.reason == ReasonOf(ts[i], roost)
  {
    var ts, total := Triggers(roost), Wrap32(Sum(roost.healthChecks));
    FailureMeans(roost);
    var i :| 0 <= i < |ts|
      && ts[i].kind == FailureCount && ts[i].failureCount.Some? && ts[i].failureCount.value <= total
      && (forall j | 0 <= j < i && ts[j].kind == FailureCount && ts[j].failureCount.Some? :: total < ts[j].failureCount.value)
      && FailureAnswer(roost).value.reason == FailureCountReached(total, ts[i].failureCount.value);
    assert Leads(ts, i, roost, now);
  }

  lemma TimeoutLeads(roost: Roost, now: int)
    requires FailureAnswer(roost).None? && TimeoutAnswer(roost, now).Some?
    requires !(Configured(roost, HealthBased) && roost.health == "unhealthy")
    ensures var d, ts := TimeoutAnswer(roost, now).value, Triggers(roost);
      exists i | 0 <= i < |ts| :: Leads(ts, i, roost, now) && Names(d, ts[i]) && d.reason == ReasonOf(ts[i], roost)
  {
    var ts, age := Triggers(roost), now - roost.creationTime;
    FailureMeans(roost);
    TimeoutMeans(roost, now);
    var i :| 0 <= i < |ts|
      && ts[i].kind == Timeout && ts[i].timeout.Some? && age > ts[i].timeout.value
      && (forall j | 0 <= j < i && ts[j].kind == Timeout && ts[j].timeout.Some? :: age <= ts[j].timeout.value)
      && TimeoutAnswer(roost, now).value.reason == TimeoutReached(ts[i].timeout.value);
    assert forall t <- ts | Fires(t, roost, now) :: t.kind == Timeout;
    assert Leads(ts, i, roost, now);
  }

  lemma HealthLeads(roost: Roost, now: int)
    requires FailureAnswer(roost).None? && Configured(roost, HealthBased) && roost.health == "unhealthy"
    ensures var ts := Triggers(roost); exists i | 0 <= i < |ts| :: Leads(ts, i, roost, now) && ts[i].kind == HealthBased
  {
    var ts := Triggers(roost);
    FailureMeans(roost);
    var i := First(ts, (t: Trigger) => t.kind == HealthBased);
    var t :| t in ts && t.kind == HealthBased;
    assert i < |ts| && Leads(ts, i, roost, now);
  }

  function ReasonIf(d: Option<Decision>, kind: Kind): seq<(Option<Kind>, Reason)> {
    if d.Some? then [(Some(kind), d.value.reason)] else []
  }

  /** A recommendation lists every kind of trigger that fired with its reason: age, then ill health, then
      failures. */
  lemma OutcomeLists(roost: Roost, now: int, safety: bool, cluster: Cluster)
    requires Recommended(roost, now)
    ensures Outcome(roost, now, safety, cluster).triggerReasons ==
      ReasonIf(TimeoutAnswer(roost, now), Timeout)
      + (if Configured(roost, HealthBased) && roost.health == "unhealthy" then [(Some(HealthBased), LongUnhealthy)] else [])
      + ReasonIf(FailureAnswer(roost), FailureCount)
  {
    WinnerIffRecommended(roost, now);
    RecommendedNeedsEvaluator(roost, now);
    assert Outcome(roost, now, safety, cluster).triggerReasons == Reasons(FiredDecisions(roost, now));
  }

  /** What stands in the way of a recommended teardown, with safety checks on; and what is said when nothing
      is recommended. */
  lemma OutcomeDeclines(roost: Roost, now: int, safety: bool, cluster: Cluster)
    ensures var d := Outcome(roost, now, safety, cluster);
      && (d.shouldTeardown || (Recommended(roost, now) && safety) ==> d.safetyChecks == if safety then Report(roost, cluster) else [])
      && (Recommended(roost, now) && !d.shouldTeardown ==>
            d.reason == SafetyCheckFailed(
              if cluster.volumeClaims.None? || (cluster.volumeClaims.value != [] && !Preserves(roost)) then PersistentVolumes
              else ManualApproval))
      && (!Recommended(roost, now) ==>
            d == Decision(false,
              if roost.policy.None? then NoPolicy else if SomeEvaluator(roost.policy.value) then NoTriggers else NoEvaluators,
              Low, None, 0, [], []))
  {
    WinnerIffRecommended(roost, now);
    TeardownIff(roost, now, safety, cluster);
    if Recommended(roost, now) {
      RecommendedNeedsEvaluator(roost, now);
    }
    if roost.policy.Some? {
      EvaluatorsExistIff(roost);
    }
  }

  /** Some trigger has one of the six types with a built-in evaluator. */
  predicate SomeEvaluator(policy: Policy) {
    exists t <- policy.triggers :: t.kind in {Timeout, ResourceThreshold, HealthBased, FailureCount, Schedule, Webhook}
  }

  lemma EvaluatorsExistIff(roost: Roost)
    requires roost.policy.Some?
    ensures SomeEvaluator(roost.policy.value) <==> exists k :: k in DEFAULT_PRIORITIES && Configured(roost, k)
  {
    if SomeEvaluator(roost.policy.value) {
      var t :| t in roost.policy.value.triggers && t.kind in {Timeout, ResourceThreshold, HealthBased, FailureCount, Schedule, Webhook};
      assert t.kind in DEFAULT_PRIORITIES && Configured(roost, t.kind);
    }
  }

  /* ---------- EvaluateTeardownPolicy ---------- */

  lemma StrongestIsWinner(roost: Roost, now: int, i: nat)
    requires Strongest(FiredDecisions(roost, now), i)
    ensures Winner(roost, now) == Some(FiredDecisions(roost, now)[i])
  {
    var ds := FiredDecisions(roost, now);
    var t := AsSeq(TimeoutAnswer(roost, now));
    var h := if Configured(roost, HealthBased) then AsSeq(HealthAnswer(roost)) else [];
    var f := AsSeq(FailureAnswer(roost));
    assert ds == t + h + f && |t| <= 1 && |h| <= 1 && |f| <= 1;
    assert ds[|ds| - 1].score <= ds[i].score;
    assert i == |ds| - 1;
  }

  lemma FiredIffWinner(roost: Roost, now: int)
    ensures FiredDecisions(roost, now) == [] <==> Winner(roost, now).None?
    ensures forall d <- FiredDecisions(roost, now) :: d.score >= 50
  {
  }

  class Manager {
    const registry: EvaluatorRegistry
    const enableSafetyChecks: bool

    constructor (enableSafetyChecks: bool)
      ensures this.enableSafetyChecks == enableSafetyChecks
      ensures fresh(registry) && registry.evaluators == DEFAULT_PRIORITIES
    {
      var r := new EvaluatorRegistry();
      r.RegisterDefaults();
      assert map[] + DEFAULT_PRIORITIES == DEFAULT_PRIORITIES;
      registry := r;
      this.enableSafetyChecks := enableSafetyChecks;
    }

    method EvaluateTeardownPolicy(roost: Roost, now: int, cluster: Cluster) returns (d: Decision)
      requires registry.evaluators == DEFAULT_PRIORITIES
      ensures d == Outcome(roost, now, enableSafetyChecks, cluster)
    {
      if roost.policy.None? {
        return Declined(NoPolicy);
      }
      var evaluators := registry.GetByTrigger(roost.policy.value.triggers);
      if |evaluators| == 0 {
        assert forall k :: k in DEFAULT_PRIORITIES && Configured(roost, k) ==> k in evaluators;
        return Declined(NoEvaluators);
      }
      assert evaluators[0] in evaluators;
      assert evaluators[0] in DEFAULT_PRIORITIES && Configured(roost, evaluators[0]);
      d := Evaluate(evaluators, roost, now);
      if d.shouldTeardown && enableSafetyChecks {
        d := Gate(d, roost, cluster);
      }
    }

    /** Run the matching evaluators by priority and aggregate what fires. */
    method Evaluate(found: seq<Kind>, roost: Roost, now: int) returns (d: Decision)
      requires Distinct(found)
      requires forall k :: k in found <==> k in DEFAULT_PRIORITIES && Configured(roost, k)
      ensures d == Aggregated(roost, now)
    {
      PrioritiesAreDistinct();
      var evaluators := SortByPriority(DEFAULT_PRIORITIES, found);
      EvaluatorsAre(evaluators, roost);
      OrderDecides(roost, now);
      var decisions := RunAll(evaluators, roost, now);
      d := AggregateDecisions(decisions);
      AggregateIs(d, roost, now);
    }

    method RunAll(evaluators: seq<Kind>, roost: Roost, now: int) returns (decisions: seq<Decision>)
      ensures decisions == Decisions(evaluators, roost, now)
    {
      decisions := [];
      for i := 0 to |evaluators|
        invariant decisions == Decisions(evaluators[..i], roost, now)
      {
        var decision := RunEvaluator(evaluators[i], roost, now);
        DecisionsNext(evaluators, i, roost, now);
        if decision.Some? && decision.value.shouldTeardown {
          decisions := decisions + [decision.value];
        }
      }
      assert evaluators[..|evaluators|] == evaluators;
    }

    /** Attach the safety report, and decline if one of its checks stops the teardown. */
    method Gate(decision: Decision, roost: Roost, cluster: Cluster) returns (d: Decision)
      requires decision.shouldTeardown
      ensures d == Gated(decision, roost, cluster)
    {
      var checks := PerformSafetyChecks(roost, cluster);
      d := decision.(safetyChecks := checks);
      forall j: nat | j < |checks|
        ensures Stops(checks[j]) <==> (j == 1 && VolumesAtRisk(roost, cluster)) || (j == 7 && NeedsApproval(roost))
      {
        OnlyVolumesAndApprovalStop(roost, cluster, j);
      }
      for i := 0 to |checks|
        invariant d == decision.(safetyChecks := checks)
        invariant forall j | 0 <= j < i :: !Stops(checks[j])
      {
        if Stops(checks[i]) {
          assert i == 7 ==> !Stops(checks[1]);
          return d.(shouldTeardown := false, reason := SafetyCheckFailed(checks[i].name));
        }
      }
      assert !Stops(checks[1]) && !Stops(checks[7]);
    }
  }

  lemma DecisionsNext(evaluators: seq<Kind>, i: nat, roost: Roost, now: int)
    requires i < |evaluators|
    ensures Decisions(evaluators[..i + 1], roost, now)
         == Decisions(evaluators[..i], roost, now) + AsSeq(Answer(evaluators[i], roost, now))
    ensures Answer(evaluators[i], roost, now).Some? ==> Answer(evaluators[i], roost, now).value.shouldTeardown
  {
    var one := [evaluators[i]];
    assert evaluators[..i + 1] == evaluators[..i] + one;
    DecisionsOfConcat(evaluators[..i], one, roost, now);
    assert one[1..] == [];
  }

  lemma AggregateIs(d: Decision, roost: Roost, now: int)
    requires var ds := FiredDecisions(roost, now);
      && (ds == [] ==> d == Declined(NoTriggers))
      && (ds != [] ==> exists i | 0 <= i < |ds| ::
            && d == ds[i].(triggerReasons := Reasons(ds))
            && (Strongest(ds, i) || (i == 0 && forall e <- ds :: e.score <= -1)))
    ensures d == Aggregated(roost, now)
  {
    FiredIffWinner(roost, now);
    var ds := FiredDecisions(roost, now);
    if ds != [] {
      var i :| 0 <= i < |ds| && d == ds[i].(triggerReasons := Reasons(ds))
        && (Strongest(ds, i) || (i == 0 && forall e <- ds :: e.score <= -1));
      assert ds[i] in ds;
      StrongestIsWinner(roost, now, i);
    }
  }

  lemma EvaluatorsAre(evaluators: seq<Kind>, roost: Roost)
    requires ByPriority(DEFAULT_PRIORITIES, evaluators)
    requires forall k :: k in evaluators <==> k in DEFAULT_PRIORITIES && Configured(roost, k)
    ensures evaluators == Chosen(ORDER, roost)
  {
    OrderIsByPriority();
    ChosenIsOrdered(DEFAULT_PRIORITIES, ORDER, roost);
    PriorityOrderIsUnique(DEFAULT_PRIORITIES, evaluators, Chosen(ORDER, roost));
  }
}
