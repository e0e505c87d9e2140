/** Evaluating teardown triggers: the built-in evaluators, their registry and priority order, and
    aggregation by score (internal/teardown/evaluators.go, evaluator.go, manager.go). */
module TeardownEvaluation {

  import opened Common

  /** The `type` of a trigger: the names of the built-in evaluators, or any other text. */
  datatype Kind = Timeout | ResourceThreshold | HealthBased | FailureCount | Schedule | Webhook | Other(name: string)

  datatype Trigger = Trigger(kind: Kind, timeout: Option<int>, failureCount: Option<int>)

  datatype DataPreservation = DataPreservation(enabled: bool, backupPolicy: bool)

  datatype Policy = Policy(
    triggers: seq<Trigger>,
    requireManualApproval: bool,
    dataPreservation: Option<DataPreservation>)

  datatype Roost = Roost(
    creationTime: int,
    policy: Option<Policy>,
    health: string,
    healthChecks: seq<int>)         // failure count of each health check, an int32

  datatype Reason =
    | NoPolicy | NoEvaluators | NoTriggers
    | TimeoutReached(timeout: int)
    | FailureCountReached(failures: int, threshold: int)
    | LongUnhealthy
    | SafetyCheckFailed(check: CheckName)

  datatype Urgency = Low | Medium | High

  datatype Severity = Info | Warning | Error | Critical

  datatype CheckName =
    | ActiveConnections | PersistentVolumes | DependentResources | RunningPods
    | ExternalEndpoints | DataPersistence | BackupRequirements | ManualApproval

  /** `found` is the number of offending resources a check reports. */
  datatype SafetyCheck = SafetyCheck(name: CheckName, passed: bool, canOverride: bool, severity: Severity, found: nat)

  /** `triggerReasons` is the aggregated metadata: every trigger that fired, with its reason. */
  datatype Decision = Decision(
    shouldTeardown: bool,
    reason: Reason,
    urgency: Urgency,
    triggerType: Option<Kind>,
    score: int,
    triggerReasons: seq<(Option<Kind>, Reason)>,
    safetyChecks: seq<SafetyCheck>)

  function Declined(reason: Reason): Decision {
    Decision(false, reason, Low, None, 0, [], [])
  }

  function Fired(reason: Reason, urgency: Urgency, kind: Kind, score: int): Decision {
    Decision(true, reason, urgency, Some(kind), score, [], [])
  }

  /* ---------- Evaluators ---------- */

  predicate Expired(t: Trigger, roost: Roost, now: int) {
    t.kind == Timeout && t.timeout.Some? && now > roost.creationTime + t.timeout.value
  }

  predicate TooManyFailures(t: Trigger, roost: Roost) {
    t.kind == FailureCount && t.failureCount.Some? && t.failureCount.value <= Wrap32(Sum(roost.healthChecks))
  }

  function Triggers(roost: Roost): seq<Trigger> {
    if roost.policy.Some? then roost.policy.value.triggers else []
  }

  predicate Configured(roost: Roost, kind: Kind) {
    exists t <- Triggers(roost) :: t.kind == kind
  }

  /** The position of the first trigger satisfying `p`, or the length of the list. */
  function First(ts: seq<Trigger>, p: Trigger -> bool): (i: nat)
    ensures i <= |ts|
    ensures i < |ts| ==> p(ts[i])
    ensures forall j | 0 <= j < i :: !p(ts[j])
  {
    if ts == [] || p(ts[0]) then 0 else 1 + First(ts[1..], p)
  }

  function TimeoutAnswer(roost: Roost, now: int): Option<Decision> {
    var ts := Triggers(roost);
    var i := First(ts, t => Expired(t, roost, now));
    if i < |ts| then Some(Fired(TimeoutReached(ts[i].timeout.value), Medium, Timeout, 50)) else None
  }

  function FailureAnswer(roost: Roost): Option<Decision> {
    var ts := Triggers(roost);
    var i := First(ts, t => TooManyFailures(t, roost));
    if i < |ts|
    then Some(Fired(FailureCountReached(Wrap32(Sum(roost.healthChecks)), ts[i].failureCount.value), High, FailureCount, 80))
    else None
  }

  function HealthAnswer(roost: Roost): Option<Decision> {
    if roost.health == "unhealthy" then Some(Fired(LongUnhealthy, High, HealthBased, 70)) else None
  }

  /** The first timeout trigger whose time has passed decides. */
  lemma TimeoutMeans(roost: Roost, now: int)
    ensures var d, ts := TimeoutAnswer(roost, now), Triggers(roost);
      && (d.None? <==> forall t <- ts | t.kind == Timeout && t.timeout.Some? :: now - roost.creationTime <= t.timeout.value)
      && (d.Some? ==> exists i | 0 <= i < |ts| ::
            && ts[i].kind == Timeout && ts[i].timeout.Some? && now - roost.creationTime > ts[i].timeout.value
            && (forall j | 0 <= j < i && ts[j].kind == Timeout && ts[j].timeout.Some? :: now - roost.creationTime <= ts[j].timeout.value)
            && d.value == Decision(true, TimeoutReached(ts[i].timeout.value), Medium, Some(Timeout), 50, [], []))
  {
    var ts := Triggers(roost);
    var i := First(ts, t => Expired(t, roost, now));
    assert forall j | 0 <= j < i :: !Expired(ts[j], roost, now);
    if i < |ts| {
      assert ts[i] in ts;
    }
  }

  /** The first failure trigger whose threshold the total reaches decides. */
  lemma FailureMeans(roost: Roost)
    ensures var d, ts, total := FailureAnswer(roost), Triggers(roost), Wrap32(Sum(roost.healthChecks));
      && (d.None? <==> forall t <- ts | t.kind == FailureCount && t.failureCount.Some? :: total < t.failureCount.value)
      && (d.Some? ==> exists i | 0 <= i < |ts| ::
            && ts[i].kind == FailureCount && ts[i].failureCount.Some? && ts[i].failureCount.value <= total
            && (forall j | 0 <= j < i && ts[j].kind == FailureCount && ts[j].failureCount.Some? :: total < ts[j].failureCount.value)
            && d.value == Decision(true, FailureCountReached(total, ts[i].failureCount.value), High, Some(FailureCount), 80, [], []))
  {
    var ts := Triggers(roost);
    var i := First(ts, t => TooManyFailures(t, roost));
    assert forall j | 0 <= j < i :: !TooManyFailures(ts[j], roost);
    if i < |ts| {
      assert ts[i] in ts;
    }
  }

  method EvaluateTimeout(roost: Roost, now: int) returns (d: Option<Decision>)
    ensures d == TimeoutAnswer(roost, now)
    ensures d.None? <==> forall t <- Triggers(roost) | t.kind == Timeout && t.timeout.Some? :: now - roost.creationTime <= t.timeout.value
  {
    TimeoutMeans(roost, now);
    var ts := Triggers(roost);
    for i := 0 to |ts|
      invariant forall j | 0 <= j < i :: !Expired(ts[j], roost, now)
    {
      if ts[i].kind == Timeout && ts[i].timeout.Some? {
        var expirationTime := roost.creationTime + ts[i].timeout.value;
        if now > expirationTime {
          assert First(ts, t => Expired(t, roost, now)) == i;
          return Some(Fired(TimeoutReached(ts[i].timeout.value), Medium, Timeout, 50));
        }
      }
    }
    return None;
  }

  method SumFailures(xs: seq<int>) returns (failureCount: int)
    ensures failureCount == Wrap32(Sum(xs))
  {
    failureCount := 0;
    for i := 0 to |xs|
      invariant failureCount == Wrap32(Sum(xs[..i]))
    {
      assert xs[..i + 1][..i] == xs[..i];
      WrapAdd(Sum(xs[..i]), xs[i]);
      failureCount := Wrap32(failureCount + xs[i]);
    }
    assert xs[..|xs|] == xs;
  }

  method EvaluateFailureCount(roost: Roost) returns (d: Option<Decision>)
    ensures d == FailureAnswer(roost)
    ensures d.None? <==> forall t <- Triggers(roost) | t.kind == FailureCount && t.failureCount.Some? ::
      Wrap32(Sum(roost.healthChecks)) < t.failureCount.value
  {
    FailureMeans(roost);
    var ts := Triggers(roost);
    for i := 0 to |ts|
      invariant forall j | 0 <= j < i :: !TooManyFailures(ts[j], roost)
    {
      if ts[i].kind == FailureCount && ts[i].failureCount.Some? {
        var failureCount := SumFailures(roost.healthChecks);
        if failureCount >= ts[i].failureCount.value {
          assert First(ts, t => TooManyFailures(t, roost)) == i;
          return Some(Fired(FailureCountReached(failureCount, ts[i].failureCount.value), High, FailureCount, 80));
        }
      }
    }
    return None;
  }

  /** What the evaluator of each built-in kind answers. */
  function Answer(kind: Kind, roost: Roost, now: int): Option<Decision> {
    if kind == Timeout then TimeoutAnswer(roost, now)
    else if kind == FailureCount then FailureAnswer(roost)
    else if kind == HealthBased then HealthAnswer(roost)
    else None
  }

  method RunEvaluator(kind: Kind, roost: Roost, now: int) returns (d: Option<Decision>)
    ensures d == Answer(kind, roost, now)
  {
    d := None;
    if kind == Timeout {
      d := EvaluateTimeout(roost, now);
    } else if kind == FailureCount {
      d := EvaluateFailureCount(roost);
    } else if kind == HealthBased && roost.health == "unhealthy" {
      d := Some(Fired(LongUnhealthy, High, HealthBased, 70));
    }
  }

  /* ---------- Registry ---------- */

  /** The built-in evaluators and their priorities. */
  const DEFAULT_PRIORITIES: map<Kind, int> := map[
    Timeout := 100, ResourceThreshold := 80, HealthBased := 90,
    FailureCount := 70, Schedule := 60, Webhook := 50]

  lemma DefaultsOverlay(before: map<Kind, int>)
    ensures before[Timeout := 100][ResourceThreshold := 80][HealthBased := 90][FailureCount := 70][Schedule := 60][Webhook := 50]
         == before + DEFAULT_PRIORITIES
  {
    var m := before[Timeout := 100][ResourceThreshold := 80][HealthBased := 90][FailureCount := 70][Schedule := 60][Webhook := 50];
    assert m.Keys == before.Keys + DEFAULT_PRIORITIES.Keys;
  }

  class EvaluatorRegistry {
    var evaluators: map<Kind, int>        // kind to priority

    constructor ()
      ensures evaluators == map[]
    {
      evaluators := map[];
    }

    method Register(kind: Kind, priority: int)
      modifies this
      ensures evaluators == old(evaluators)[kind := priority]
    {
      evaluators := evaluators[kind := priority];
    }

    method RegisterDefaults()
      modifies this
      ensures evaluators == old(evaluators) + DEFAULT_PRIORITIES
    {
      ghost var before := evaluators;
      Register(Timeout, 100);
      Register(ResourceThreshold, 80);
      Register(HealthBased, 90);
      Register(FailureCount, 70);
      Register(Schedule, 60);
      Register(Webhook, 50);
      DefaultsOverlay(before);
    }

    /** One evaluator per trigger type present, in the order Go ranges over the set. */
    method GetByTrigger(triggers: seq<Trigger>) returns (matching: seq<Kind>)
      ensures Distinct(matching)
      ensures forall k :: k in matching <==> k in evaluators && exists t <- triggers :: t.kind == k
    {
      var triggerTypes: set<Kind> := {};
      for i := 0 to |triggers|
        invariant forall k :: k in triggerTypes <==> exists t <- triggers[..i] :: t.kind == k
      {
        assert triggers[..i + 1] == triggers[..i] + [triggers[i]];
        triggerTypes := triggerTypes + {triggers[i].kind};
      }
      assert triggers[..|triggers|] == triggers;
      matching := [];
      var todo := triggerTypes;
      while todo != {}
        invariant todo <= triggerTypes
        invariant Distinct(matching)
        invariant forall k :: k in matching <==> k in evaluators && k in triggerTypes && k !in todo
        decreases |todo|
      {
        var triggerType :| triggerType in todo;
        if triggerType in evaluators {
          matching := matching + [triggerType];
        }
        todo := todo - {triggerType};
      }
    }
  }

  /* ---------- Priority order ---------- */

  function Priority(m: map<Kind, int>, kind: Kind): int {
    if kind in m then m[kind] else 0
  }

  ghost predicate ByPriority(m: map<Kind, int>, xs: seq<Kind>) {
    forall i, j | 0 <= i < j < |xs| :: Priority(m, xs[i]) > Priority(m, xs[j])
  }

  ghost predicate SameElements(xs: seq<Kind>, ys: seq<Kind>) {
    forall k :: k in xs <==> k in ys
  }

  ghost predicate Injective(m: map<Kind, int>) {
    forall k, l | k in m && l in m && k != l :: m[k] != m[l]
  }

  /** Insertion of one evaluator in front of the first of lower priority. */
  method Insert(m: map<Kind, int>, xs: seq<Kind>, x: Kind) returns (ys: seq<Kind>)
    requires ByPriority(m, xs)
    requires forall y <- xs :: Priority(m, y) != Priority(m, x)
    ensures ByPriority(m, ys)
    ensures SameElements(ys, xs + [x])
  {
    var i := 0;
    while i < |xs| && Priority(m, xs[i]) > Priority(m, x)
      invariant 0 <= i <= |xs|
      invariant forall j | 0 <= j < i :: Priority(m, xs[j]) > Priority(m, x)
    {
      i := i + 1;
    }
    ys := xs[..i] + [x] + xs[i..];
    assert xs == xs[..i] + xs[i..];
  }

  /** Sorting by descending priority; distinct priorities make the order strict. */
  method SortByPriority(m: map<Kind, int>, xs: seq<Kind>) returns (ys: seq<Kind>)
    requires Distinct(xs) && Injective(m) && forall x <- xs :: x in m
    ensures ByPriority(m, ys) && SameElements(ys, xs)
  {
    ys := [];
    for i := 0 to |xs|
      invariant ByPriority(m, ys) && SameElements(ys, xs[..i])
    {
      assert xs[i] !in xs[..i];
      forall y <- ys ensures Priority(m, y) != Priority(m, xs[i]) {
        assert y in xs[..i];
      }
      assert xs[..i + 1] == xs[..i] + [xs[i]];
      ys := Insert(m, ys, xs[i]);
    }
    assert xs[..|xs|] == xs;
  }

  lemma TailElements(m: map<Kind, int>, xs: seq<Kind>, ys: seq<Kind>)
    requires ByPriority(m, xs) && xs != [] && ys != [] && xs[0] == ys[0]
    requires SameElements(xs, ys)
    ensures forall k <- xs[1..] :: k in ys[1..]
  {
    forall k <- xs[1..] ensures k in ys[1..] {
      var i :| 0 <= i < |xs[1..]| && xs[1..][i] == k;
      assert xs[i + 1] == k && Priority(m, xs[0]) > Priority(m, xs[i + 1]);
      assert k in xs;
      var j :| 0 <= j < |ys| && ys[j] == k;
      assert j > 0 && ys[1..][j - 1] == k;
    }
  }

  lemma NonEmpty(xs: seq<Kind>, ys: seq<Kind>)
    requires SameElements(xs, ys) && ys != []
    ensures xs != []
  {
    assert ys[0] in ys;
  }

  /** A set of evaluators has only one order by priority, whatever order it was collected in. */
  lemma {:induction false} PriorityOrderIsUnique(m: map<Kind, int>, xs: seq<Kind>, ys: seq<Kind>)
    requires ByPriority(m, xs) && ByPriority(m, ys) && SameElements(xs, ys)
    ensures xs == ys
  {
    if xs == [] {
      if ys != [] {
        NonEmpty(xs, ys);
      }
    } else {
      NonEmpty(ys, xs);
      assert xs[0] in xs && xs[0] in ys && ys[0] in ys && ys[0] in xs;
      assert xs[0] == ys[0];
      TailElements(m, xs, ys);
      TailElements(m, ys, xs);
      PriorityOrderIsUnique(m, xs[1..], ys[1..]);
      assert xs == [xs[0]] + xs[1..] && ys == [ys[0]] + ys[1..];
    }
  }

  function Keep(roost: Roost, kind: Kind): seq<Kind> {
    if Configured(roost, kind) then [kind] else []
  }

  /** The members of `order` for which the roost has a trigger. */
  function Chosen(order: seq<Kind>, roost: Roost): seq<Kind> {
    if order == [] then [] else Keep(roost, order[0]) + Chosen(order[1..], roost)
  }

  /** The built-in evaluators, highest priority first. */
  const ORDER: seq<Kind> :=
    [Timeout, HealthBased, ResourceThreshold, FailureCount, Schedule, Webhook]

  lemma {:induction false} ChosenIsOrdered(m: map<Kind, int>, order: seq<Kind>, roost: Roost)
    requires ByPriority(m, order)
    ensures ByPriority(m, Chosen(order, roost))
    ensures forall k :: k in Chosen(order, roost) <==> k in order && Configured(roost, k)
  {
    if order != [] {
      ChosenIsOrdered(m, order[1..], roost);
      assert order == [order[0]] + order[1..];
      var rest := Chosen(order[1..], roost);
      forall i | 0 <= i < |rest| ensures Priority(m, order[0]) > Priority(m, rest[i]) {
        assert rest[i] in order[1..];
      }
    }
  }

  lemma OrderIsByPriority()
    ensures ByPriority(DEFAULT_PRIORITIES, ORDER)
    ensures forall k :: k in ORDER <==> k in DEFAULT_PRIORITIES
  {
  }

  lemma PrioritiesAreDistinct()
    ensures Injective(DEFAULT_PRIORITIES)
  {
  }

  /* ---------- Running the evaluators ---------- */

  function AsSeq<T>(x: Option<T>): seq<T> {
    if x.Some? then [x.value] else []
  }

  /** The decisions of those evaluators that fire, in order. */
  function Decisions(kinds: seq<Kind>, roost: Roost, now: int): seq<Decision> {
    if kinds == [] then [] else AsSeq(Answer(kinds[0], roost, now)) + Decisions(kinds[1..], roost, now)
  }

  lemma {:induction false} DecisionsOfConcat(xs: seq<Kind>, ys: seq<Kind>, roost: Roost, now: int)
    ensures Decisions(xs + ys, roost, now) == Decisions(xs, roost, now) + Decisions(ys, roost, now)
  {
    if xs == [] {
      assert xs + ys == ys;
    } else {
      assert (xs + ys)[1..] == xs[1..] + ys;
      DecisionsOfConcat(xs[1..], ys, roost, now);
    }
  }

  /** The triggers that fire, stated without evaluators, registry or order of discovery. */
  function FiredDecisions(roost: Roost, now: int): seq<Decision> {
    AsSeq(TimeoutAnswer(roost, now))
    + (if Configured(roost, HealthBased) then AsSeq(HealthAnswer(roost)) else [])
    + AsSeq(FailureAnswer(roost))
  }

  function FiredAlong(order: seq<Kind>, roost: Roost, now: int): seq<Decision> {
    if order == [] then []
    else (if Configured(roost, order[0]) then AsSeq(Answer(order[0], roost, now)) else [])
         + FiredAlong(order[1..], roost, now)
  }

  lemma {:induction false} ChosenDecides(order: seq<Kind>, roost: Roost, now: int)
    ensures Decisions(Chosen(order, roost), roost, now) == FiredAlong(order, roost, now)
  {
    if order != [] {
      var kept := Keep(roost, order[0]);
      DecisionsOfConcat(kept, Chosen(order[1..], roost), roost, now);
      assert kept != [] ==> kept[1..] == [];
      ChosenDecides(order[1..], roost, now);
    }
  }

  lemma AnswerNeedsTrigger(roost: Roost, now: int)
    ensures TimeoutAnswer(roost, now).Some? ==> Configured(roost, Timeout)
    ensures FailureAnswer(roost).Some? ==> Configured(roost, FailureCount)
  {
  }

  lemma OrderDecides(roost: Roost, now: int)
    ensures Decisions(Chosen(ORDER, roost), roost, now) == FiredDecisions(roost, now)
  {
    ChosenDecides(ORDER, roost, now);
    AnswerNeedsTrigger(roost, now);
    LastFour(roost, now);
    var rest := [HealthBased, ResourceThreshold, FailureCount, Schedule, Webhook];
    assert rest[1..] == [ResourceThreshold, FailureCount, Schedule, Webhook];
    assert ORDER[1..] == rest;
  }

  lemma LastFour(roost: Roost, now: int)
    ensures FiredAlong([ResourceThreshold, FailureCount, Schedule, Webhook], roost, now) == AsSeq(FailureAnswer(roost))
  {
    LastThree(roost, now);
    assert [ResourceThreshold, FailureCount, Schedule, Webhook][1..] == [FailureCount, Schedule, Webhook];
  }

  lemma LastThree(roost: Roost, now: int)
    ensures FiredAlong([FailureCount, Schedule, Webhook], roost, now) == AsSeq(FailureAnswer(roost))
  {
    AnswerNeedsTrigger(roost, now);
    assert [Webhook][1..] == [] && FiredAlong([Webhook], roost, now) == [];
    assert [Schedule, Webhook][1..] == [Webhook] && FiredAlong([Schedule, Webhook], roost, now) == [];
    assert [FailureCount, Schedule, Webhook][1..] == [Schedule, Webhook];
  }

  /* ---------- aggregateDecisions ---------- */

  /** The first decision of highest score. */
  ghost predicate Strongest(decisions: seq<Decision>, i: int) {
    && 0 <= i < |decisions|
    && (forall j | 0 <= j < |decisions| :: decisions[j].score <= decisions[i].score)
    && (forall j | 0 <= j < i :: decisions[j].score < decisions[i].score)
  }

  function Reasons(decisions: seq<Decision>): seq<(Option<Kind>, Reason)> {
    seq(|decisions|, i requires 0 <= i < |decisions| => (decisions[i].triggerType, decisions[i].reason))
  }

  /** Scores below zero never win the comparison against the initial -1; then the first decision is taken. */
  method AggregateDecisions(decisions: seq<Decision>) returns (final: Decision)
    ensures decisions == [] ==> final == Declined(NoTriggers)
    ensures decisions != [] ==> exists i | 0 <= i < |decisions| ::
      && final == decisions[i].(triggerReasons := Reasons(decisions))
      && (Strongest(decisions, i) || (i == 0 && forall d <- decisions :: d.score <= -1))
      && (forall j | 0 <= j < i :: decisions[j].score < decisions[i].score)
    ensures forall d <- decisions :: d.score <= Max(-1, final.score)
    ensures |final.triggerReasons| == |decisions|
    ensures forall i | 0 <= i < |decisions| :: final.triggerReasons[i] == (decisions[i].triggerType, decisions[i].reason)
  {
    if |decisions| == 0 {
      return Declined(NoTriggers);
    }
    var highestScore, best := -1, -1;
    for i := 0 to |decisions|
      invariant -1 <= best < i && (best == -1 ==> highestScore == -1)
      invariant best >= 0 ==> decisions[best].score == highestScore > -1
      invariant forall j | 0 <= j < i :: decisions[j].score <= highestScore
      invariant forall j | 0 <= j < best :: decisions[j].score < highestScore
    {
      if decisions[i].score > highestScore {
        highestScore, best := decisions[i].score, i;
      }
    }
    assert best >= 0 ==> Strongest(decisions, best);
    if best == -1 {
      best := 0;
    }
    var triggerReasons := [];
    for i := 0 to |decisions|
      invariant triggerReasons == Reasons(decisions)[..i]
    {
      triggerReasons := triggerReasons + [(decisions[i].triggerType, decisions[i].reason)];
    }
    return decisions[best].(triggerReasons := triggerReasons);
  }
}
