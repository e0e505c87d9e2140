/** What a racing decision costs: from the moment it is made, exclusive use can be broken without any
    further race.  So the condition under which `ConnectionPool.PoolIsSafe` holds is exact. */
module ConnectionPoolRaces {
  import opened Common
  import opened ConnectionPool

  /** A run without a racing decision leads from `s` to `t`. */
  ghost predicate Reaches(cfg: Config, s: Pool, t: Pool) {
    exists steps: seq<Step> :: RaceFree(cfg, s, steps) && Run(cfg, s, steps) == Some(t)
  }

  lemma ReachesItself(cfg: Config, s: Pool)
    ensures Reaches(cfg, s, s)
  {
    assert RaceFree(cfg, s, []) && Run(cfg, s, []) == Some(s);
  }

  lemma ReachesOn(cfg: Config, s: Pool, t: Pool, u: Pool)
    requires Reaches(cfg, s, t) && Reaches(cfg, t, u)
    ensures Reaches(cfg, s, u)
  {
    var a: seq<Step> :| RaceFree(cfg, s, a) && Run(cfg, s, a) == Some(t);
    var b: seq<Step> :| RaceFree(cfg, t, b) && Run(cfg, t, b) == Some(u);
    RunsCompose(cfg, s, a, b);
    assert RaceFree(cfg, s, a + b) && Run(cfg, s, a + b) == Some(u);
  }

  /** One more step. */
  lemma Extend(cfg: Config, s: Pool, t: Pool, step: Step) returns (u: Pool)
    requires Reaches(cfg, s, t) && Enabled(cfg, t, step) && !Racing(cfg, t, step)
    ensures u == Next(cfg, t, step) && Reaches(cfg, s, u)
  {
    u := Next(cfg, t, step);
    var one := [step];
    assert one[1..] == [];
    assert RaceFree(cfg, u, []) && Run(cfg, u, []) == Some(u);
    assert RaceFree(cfg, t, one) && Run(cfg, t, one) == Some(u);
    ReachesOn(cfg, s, t, u);
  }

  lemma Kept(cfg: Config, s: Pool, t: Pool)
    requires Basic(cfg, s) && Reaches(cfg, s, t)
    ensures Basic(cfg, t)
  {
    var steps: seq<Step> :| RaceFree(cfg, s, steps) && Run(cfg, s, steps) == Some(t);
    RunKeepsBasic(cfg, s, steps);
  }

  /* ---------- Letting the others finish ---------- */

  /** Everything but the clients' own progress and cleanup's list is as before, and `c` is untouched. */
  ghost predicate Undisturbed(s: Pool, t: Pool, c: ConnId) {
    && c in s.store && c in s.stage && c in t.store && c in t.stage
    && t.store[c] == s.store[c] && t.stage[c] == s.stage[c] && t.now == s.now
    && (c in s.reaper.victims ==> c in t.reaper.victims) && (c in s.active ==> c in t.active)
  }

  /** Cleanup can always finish looking without a race: a client in a window first moves on. */
  lemma {:induction false} FinishScan(cfg: Config, s: Pool, c: ConnId) returns (t: Pool)
    requires Basic(cfg, s) && c in s.store && (c in s.reaper.scan ==> s.stage[c] != Accepted && s.stage[c] != Unmarked)
    ensures Reaches(cfg, s, t) && Basic(cfg, t) && Undisturbed(s, t, c)
    ensures t.reaper.scan == {} && t.health == s.health && t.log == s.log && t.channel == s.channel && t.active == s.active
    decreases |s.reaper.scan|
  {
    if s.reaper.scan == {} {
      ReachesItself(cfg, s);
      return s;
    }
    var e :| e in s.reaper.scan;
    var r := LookAtOne(cfg, s, e);
    assert |r.reaper.scan| < |s.reaper.scan|;
    t := FinishScan(cfg, r, c);
    ReachesOn(cfg, s, r, t);
  }

  lemma LookAtOne(cfg: Config, s: Pool, e: ConnId) returns (t: Pool)
    requires Basic(cfg, s) && e in s.reaper.scan
    ensures Reaches(cfg, s, t) && Basic(cfg, t)
    ensures t.reaper.scan == s.reaper.scan - {e} && s.reaper.victims <= t.reaper.victims && t.now == s.now
    ensures t.health == s.health && t.log == s.log && t.channel == s.channel && t.active == s.active
    ensures t.store.Keys == s.store.Keys && forall c <- s.store | c != e :: t.store[c] == s.store[c] && t.stage[c] == s.stage[c]
    ensures s.stage[e] != Accepted && s.stage[e] != Unmarked ==> t.store[e] == s.store[e] && t.stage[e] == s.stage[e]
  {
    ReachesItself(cfg, s);
    var r := MoveOn(cfg, s, e);
    t := Extend(cfg, s, r, CleanupLook(e));
    Kept(cfg, s, t);
  }

  /** A client in a window leaves it. */
  lemma MoveOn(cfg: Config, s: Pool, e: ConnId) returns (r: Pool)
    requires Basic(cfg, s) && e in s.reaper.scan
    ensures Reaches(cfg, s, r) && Enabled(cfg, r, CleanupLook(e)) && !Racing(cfg, r, CleanupLook(e))
    ensures r == s.(store := r.store, stage := r.stage) && r.store.Keys == r.stage.Keys == s.store.Keys
    ensures forall c <- s.store | c != e :: r.store[c] == s.store[c] && r.stage[c] == s.stage[c]
    ensures s.stage[e] != Accepted && s.stage[e] != Unmarked ==> r == s
  {
    ReachesItself(cfg, s);
    r := s;
    if s.stage[e] == Accepted {
      r := Extend(cfg, s, s, Claim(e));
    } else if s.stage[e] == Unmarked {
      r := Extend(cfg, s, s, Restamp(e));
    }
  }

  /** Getters can empty the channel. */
  lemma {:induction false} Drain(cfg: Config, s: Pool, c: ConnId) returns (t: Pool)
    requires Basic(cfg, s) && c in s.store && s.stage[c] != Queued
    ensures Reaches(cfg, s, t) && Basic(cfg, t) && Undisturbed(s, t, c)
    ensures t.channel == [] && t.log == s.log
    decreases |s.channel|
  {
    ReachesItself(cfg, s);
    if s.channel == [] {
      return s;
    }
    assert s.channel[0] in s.channel;
    var r := Extend(cfg, s, s, Receive);
    Kept(cfg, s, r);
    t := Drain(cfg, r, c);
    ReachesOn(cfg, s, r, t);
  }

  function Rank(p: Phase): nat {
    match p
    case Looking => 3
    case Judged(_) => 2
    case Marked => 1
    case Doomed => 0
  }

  /** Only the `healthy` flag of `c` may have changed. */
  ghost predicate Coming(cfg: Config, s: Pool, c: ConnId) {
    && Basic(cfg, s) && c in s.active && c in s.reaper.victims && Unlocked(s)
    && s.stage[c] == Restamped && s.store[c].lastUsed == s.now && s.now - s.store[c].createdAt <= MAX_AGE
  }

  /** The health check can finish its pass without a race and without touching a young `c` that is
      coming back, except to mark it healthy. */
  lemma {:induction false} FinishPass(cfg: Config, s: Pool, c: ConnId) returns (t: Pool)
    requires Coming(cfg, s, c) && cfg.maxIdleTime > 0
    requires s.health.todo != [] && s.health.todo[0] == c ==> s.health.phase.Looking? || s.health.phase == Judged(true)
    ensures Reaches(cfg, s, t) && Coming(cfg, t, c) && t.health.todo == []
    decreases |s.health.todo|, Rank(s.health.phase)
  {
    if s.health.todo == [] {
      ReachesItself(cfg, s);
      return s;
    }
    var r := HealthGoesOn(cfg, s, c);
    t := FinishPass(cfg, r, c);
    ReachesOn(cfg, s, r, t);
  }

  lemma HealthGoesOn(cfg: Config, s: Pool, c: ConnId) returns (r: Pool)
    requires Coming(cfg, s, c) && cfg.maxIdleTime > 0 && s.health.todo != []
    requires s.health.todo[0] == c ==> s.health.phase.Looking? || s.health.phase == Judged(true)
    ensures Reaches(cfg, s, r) && Coming(cfg, r, c)
    ensures r.health.todo != [] && r.health.todo[0] == c ==> r.health.phase.Looking? || r.health.phase == Judged(true)
    ensures |r.health.todo| < |s.health.todo| || (r.health.todo == s.health.todo && Rank(r.health.phase) < Rank(s.health.phase))
  {
    ReachesItself(cfg, s);
    assert s.health.todo[0] in s.health.todo;
    match s.health.phase {
      case Looking => r := Extend(cfg, s, s, HealthJudge);
      case Judged(_) => r := Extend(cfg, s, s, HealthMark);
      case Marked => r := HealthDecides(cfg, s, c);
      case Doomed => r := Extend(cfg, s, s, HealthDestroy);
    }
    Kept(cfg, s, r);
  }

  lemma HealthDecides(cfg: Config, s: Pool, c: ConnId) returns (r: Pool)
    requires Basic(cfg, s) && Visiting(s, Marked) && s.health.todo[0] != c && c in s.store
    ensures Reaches(cfg, s, r) && Undisturbed(s, r, c) && r.reaper == s.reaper
    ensures r.health == Onward(s.health) || r.health == Health(s.health.todo, Doomed)
  {
    ReachesItself(cfg, s);
    var e := s.health.todo[0];
    r := s;
    if s.stage[e] == Accepted {
      r := Extend(cfg, s, s, Claim(e));
    }
    r := Extend(cfg, s, r, HealthDecide);
  }

  /* ---------- Breaking exclusive use ---------- */

  /** Exclusive use can be broken from here on without any further race. */
  ghost predicate Breakable(cfg: Config, s: Pool) {
    exists t :: Reaches(cfg, s, t) && !ExclusiveUse(t.log)
  }

  lemma ForbiddenEvent(log: seq<Event>, e: Event)
    requires !MayFollow(log, e)
    ensures !ExclusiveUse(log + [e])
  {
    var longer := log + [e];
    assert longer[..|log|] == log && longer[|log|] == e;
  }

  /** Condemned between test and claim: the client claims it, and it is destroyed in its hands. */
  lemma AcceptedBreaks(cfg: Config, s: Pool, c: ConnId, destroy: Step)
    requires Basic(cfg, s) && c in s.store && s.stage[c] == Accepted
    requires (destroy == HealthDestroy && s.health.todo != [] && s.health.todo[0] == c && s.health.phase.Doomed?)
          || (destroy == CleanupDestroy(c) && c in s.reaper.victims)
    ensures Breakable(cfg, s)
  {
    ReachesItself(cfg, s);
    var claimed := Extend(cfg, s, s, Claim(c));
    Kept(cfg, s, claimed);
    var scanned := FinishScan(cfg, claimed, c);
    ReachesOn(cfg, s, claimed, scanned);
    ClaimedBreaks(cfg, scanned, c, destroy);
    BreakableEarlier(cfg, s, scanned);
  }

  lemma ClaimedBreaks(cfg: Config, s: Pool, c: ConnId, destroy: Step)
    requires Basic(cfg, s) && c in s.store && s.stage[c] == Claimed && Unlocked(s)
    requires (destroy == HealthDestroy && s.health.todo != [] && s.health.todo[0] == c && s.health.phase.Doomed?)
          || (destroy == CleanupDestroy(c) && c in s.reaper.victims)
    ensures Breakable(cfg, s)
  {
    ReachesItself(cfg, s);
    var held := Extend(cfg, s, s, Stamp(c));
    Kept(cfg, s, held);
    assert Holders(held.log, c) == 1;
    var end := Extend(cfg, s, held, destroy);
    ForbiddenEvent(held.log, Destroyed(c));
  }

  /** Restamped and still healthy although it will be destroyed: it comes back into the channel and is
      handed out afterwards. */
  lemma RestampedBreaks(cfg: Config, s: Pool, c: ConnId)
    requires Basic(cfg, s) && c in s.reaper.victims && Unlocked(s) && cfg.maxConnections > 0 && cfg.maxIdleTime > 0
    requires s.stage[c] == Restamped && s.store[c].lastUsed == s.now && s.store[c].healthy
    ensures Breakable(cfg, s)
  {
    ReachesItself(cfg, s);
    var destroyed := Extend(cfg, s, s, CleanupDestroy(c));
    Kept(cfg, s, destroyed);
    var empty := Drain(cfg, destroyed, c);
    ReachesOn(cfg, s, destroyed, empty);
    assert Destroyed(c) in destroyed.log;
    ReuseBreaks(cfg, empty, c);
    BreakableEarlier(cfg, s, empty);
  }

  lemma ReuseBreaks(cfg: Config, s: Pool, c: ConnId)
    requires c in s.store && c in s.stage && Destroyed(c) in s.log && s.channel == []
    requires cfg.maxConnections > 0 && cfg.maxIdleTime > 0
    requires s.stage[c] == Restamped && s.store[c].lastUsed == s.now && s.store[c].healthy
    ensures Breakable(cfg, s)
  {
    ReachesItself(cfg, s);
    var sent := Extend(cfg, s, s, Send(c));
    assert sent.channel == [c];
    var accepted := Extend(cfg, s, sent, Receive);
    var claimed := Extend(cfg, s, accepted, Claim(c));
    var end := Extend(cfg, s, claimed, Stamp(c));
    ForbiddenEvent(claimed.log, HandedOut(c));
  }

  /** Collected by cleanup between the two writes of a return, and healthy. */
  lemma HealthyBreaks(cfg: Config, s: Pool, c: ConnId)
    requires Basic(cfg, s) && c in s.reaper.victims && c !in s.reaper.scan
    requires s.stage[c] == Unmarked && s.store[c].healthy && cfg.maxConnections > 0 && cfg.maxIdleTime > 0
    ensures Breakable(cfg, s)
  {
    ReachesItself(cfg, s);
    var scanned := FinishScan(cfg, s, c);
    var restamped := Extend(cfg, s, scanned, Restamp(c));
    Kept(cfg, s, restamped);
    RestampedBreaks(cfg, restamped, c);
    BreakableEarlier(cfg, s, restamped);
  }

  lemma BreakableEarlier(cfg: Config, s: Pool, t: Pool)
    requires Reaches(cfg, s, t) && Breakable(cfg, t)
    ensures Breakable(cfg, s)
  {
    var u :| Reaches(cfg, t, u) && !ExclusiveUse(u.log);
    ReachesOn(cfg, s, t, u);
  }

  /** The same, but marked unhealthy and young: the health check heals it first. */
  lemma YoungBreaks(cfg: Config, s: Pool, c: ConnId)
    requires Basic(cfg, s) && c in s.reaper.victims && c !in s.reaper.scan && c in s.active
    requires s.stage[c] == Unmarked && s.now - s.store[c].createdAt <= MAX_AGE
    requires cfg.maxConnections > 0 && cfg.maxIdleTime > 0
    requires s.health.todo != [] && s.health.todo[0] == c ==> s.health.phase.Looking?
    ensures Breakable(cfg, s)
  {
    ReachesItself(cfg, s);
    var scanned := FinishScan(cfg, s, c);
    var restamped := Extend(cfg, s, scanned, Restamp(c));
    Kept(cfg, s, restamped);
    var quiet := FinishPass(cfg, restamped, c);
    ReachesOn(cfg, s, restamped, quiet);
    var healed := Heal(cfg, quiet, c);
    ReachesOn(cfg, s, quiet, healed);
    RestampedBreaks(cfg, healed, c);
    BreakableEarlier(cfg, s, healed);
  }

  /** A fresh health pass that begins with `c` marks it healthy. */
  lemma Heal(cfg: Config, s: Pool, c: ConnId) returns (t: Pool)
    requires Coming(cfg, s, c) && cfg.maxIdleTime > 0 && s.health.todo == []
    ensures Reaches(cfg, s, t) && Coming(cfg, t, c) && t.store[c].healthy
  {
    ReachesItself(cfg, s);
    var snapshot := SnapshotFrom(s.active, c);
    var started := Extend(cfg, s, s, HealthStart(snapshot));
    var judged := Extend(cfg, s, started, HealthJudge);
    assert judged.health.phase == Judged(true);
    t := Extend(cfg, s, judged, HealthMark);
    Kept(cfg, s, t);
  }

  /** Go ranges over the table in any order; here `c` comes first. */
  lemma SnapshotFrom(active: set<ConnId>, c: ConnId) returns (snapshot: seq<ConnId>)
    requires c in active
    ensures Distinct(snapshot) && Elements(snapshot) == active && snapshot != [] && snapshot[0] == c
  {
    var rest := Listing(active - {c});
    snapshot := [c] + rest;
    assert Elements(snapshot) == active;
  }

  lemma CollectedBreaks(cfg: Config, s: Pool, c: ConnId)
    requires Inv(cfg, s) && Enabled(cfg, s, CleanupLook(c)) && Racing(cfg, s, CleanupLook(c)) && s.stage[c] == Unmarked
    ensures Breakable(cfg, Next(cfg, s, CleanupLook(c)))
  {
    var t := Next(cfg, s, CleanupLook(c));
    StepKeepsBasic(cfg, s, CleanupLook(c));
    if t.store[c].healthy {
      HealthyBreaks(cfg, t, c);
    } else if t.health.todo != [] && t.health.todo[0] == c && !t.health.phase.Looking? {
      ReachesItself(cfg, t);
      var marked := Extend(cfg, t, t, HealthMark);
      Kept(cfg, t, marked);
      HealthyBreaks(cfg, marked, c);
      BreakableEarlier(cfg, t, marked);
    } else {
      assert c in s.reaper.scan && c in s.active;
      YoungBreaks(cfg, t, c);
    }
  }

  /** For every run without a racing decision and every possible next step: exclusive use can be broken
      without any further race if and only if that step is a racing decision. */
  lemma DecisionBreaksIff(cfg: Config, start: int, before: seq<Step>, step: Step)
    requires RaceFree(cfg, Empty(start), before) && Run(cfg, Empty(start), before).Some?
    requires Enabled(cfg, Run(cfg, Empty(start), before).value, step)
    ensures var s := Run(cfg, Empty(start), before).value;
      Racing(cfg, s, step) <==> Breakable(cfg, Next(cfg, s, step))
  {
    var s := Run(cfg, Empty(start), before).value;
    RunKeepsInv(cfg, Empty(start), before);
    var t := Next(cfg, s, step);
    if Racing(cfg, s, step) {
      StepKeepsBasic(cfg, s, step);
      match step
      case HealthDecide =>
        assert s.health.todo[0] in s.health.todo && Tidy(cfg, s, s.health.todo[0]);
        AcceptedBreaks(cfg, t, s.health.todo[0], HealthDestroy);
      case CleanupLook(id) =>
        if s.stage[id] == Accepted {
          AcceptedBreaks(cfg, t, id, CleanupDestroy(id));
        } else {
          CollectedBreaks(cfg, s, id);
        }
    } else {
      StepKeepsInv(cfg, s, step);
      forall u | Reaches(cfg, t, u) ensures ExclusiveUse(u.log) {
        var steps: seq<Step> :| RaceFree(cfg, t, steps) && Run(cfg, t, steps) == Some(u);
        RunKeepsInv(cfg, t, steps);
      }
    }
  }

  /* ---------- Which configurations are safe ---------- */

  lemma {:induction false} NoRaces(cfg: Config, s: Pool, steps: seq<Step>)
    requires Basic(cfg, s) && Run(cfg, s, steps).Some? && (cfg.maxConnections == 0 || cfg.maxIdleTime <= 0)
    ensures RaceFree(cfg, s, steps)
    decreases |steps|
  {
    if steps != [] {
      if steps[0].HealthDecide? {
        assert Tidy(cfg, s, s.health.todo[0]);
      } else if steps[0].CleanupLook? {
        assert Tidy(cfg, s, steps[0].id);
      }
      StepKeepsBasic(cfg, s, steps[0]);
      NoRaces(cfg, Next(cfg, s, steps[0]), steps[1..]);
    }
  }

  /** A time after which cleanup collects what nobody uses. */
  function Stale(cfg: Config): nat {
    if cfg.maxIdleTime < 0 then 0 else cfg.maxIdleTime + 1
  }

  /** A connection held that long is coming back. */
  lemma StaleOnReturn(cfg: Config, start: int, id: ConnId) returns (t: Pool)
    ensures Reaches(cfg, Empty(start), t)
    ensures t.now == start + Stale(cfg) && t.channel == [] && t.active == {id} && t.stats.size == 1
    ensures t.store == map[id := Conn(start, start, false, true, 1)] && t.stage == map[id := Unmarked]
    ensures t.reaper == Reaper(start, {}, {})
  {
    var s0 := Empty(start);
    var s1 := FirstConnection(cfg, start, id);
    var s2 := Extend(cfg, s0, s1, Tick(Stale(cfg)));
    t := Extend(cfg, s0, s2, Unmark(id));
  }

  /** A connection held for longer than the idle limit is being returned while cleanup looks at it. */
  lemma IntoTheWindow(cfg: Config, start: int, id: ConnId) returns (s: Pool)
    requires cfg.maxConnections > 0 && cfg.maxIdleTime > 0
    ensures Reaches(cfg, Empty(start), s)
    ensures Enabled(cfg, s, CleanupLook(id)) && Racing(cfg, s, CleanupLook(id))
  {
    var t := StaleOnReturn(cfg, start, id);
    s := Extend(cfg, Empty(start), t, CleanupStart(0));
  }

  /** The other window: an aged connection that was just used passes the test, and the health check, which
      has judged it too old, marks it and is about to look at `InUse` before the client has written it. */
  lemma IntoTheClaimWindow(cfg: Config, start: int, id: ConnId) returns (s: Pool)
    requires cfg.maxConnections > 0 && cfg.maxIdleTime > 0
    ensures Reaches(cfg, Empty(start), s)
    ensures Enabled(cfg, s, HealthDecide) && Racing(cfg, s, HealthDecide)
  {
    var s0 := Empty(start);
    var s1 := AgedInChannel(cfg, start, id);
    var s2 := Extend(cfg, s0, s1, HealthStart([id]));
    var s3 := Extend(cfg, s0, s2, HealthJudge);
    assert s3.health == Health([id], Judged(false));
    var s4 := Extend(cfg, s0, s3, Receive);
    assert s4.stage[id] == Accepted;
    s := Extend(cfg, s0, s4, HealthMark);
  }

  lemma AgedInChannel(cfg: Config, start: int, id: ConnId) returns (t: Pool)
    requires cfg.maxConnections > 0
    ensures Reaches(cfg, Empty(start), t)
    ensures t.now == start + MAX_AGE + 1 && t.channel == [id] && t.active == {id} && t.health.todo == []
    ensures t.store == map[id := Conn(start, t.now, false, true, 1)] && t.stage == map[id := Queued]
  {
    var s0 := Empty(start);
    var s1 := FirstConnection(cfg, start, id);
    var s2 := Extend(cfg, s0, s1, Tick(MAX_AGE + 1));
    var s3 := Extend(cfg, s0, s2, Unmark(id));
    var s4 := Extend(cfg, s0, s3, Restamp(id));
    assert s4.stage == map[id := Restamped];
    t := Extend(cfg, s0, s4, Send(id));
  }

  lemma FirstConnection(cfg: Config, start: int, id: ConnId) returns (t: Pool)
    ensures Reaches(cfg, Empty(start), t)
    ensures t == Pool(start, map[id := Conn(start, start, true, true, 1)], map[id := Held], [], {id},
                      Health([], Looking), Reaper(start, {}, {}), Stats(1, 1, 0, 0, 1), [HandedOut(id)])
  {
    ReachesItself(cfg, Empty(start));
    t := Extend(cfg, Empty(start), Empty(start), Create(id));
  }

  /** There it is collected, destroyed, and handed out again. */
  lemma UseCanBreak(cfg: Config, start: int, id: ConnId) returns (steps: seq<Step>)
    requires cfg.maxConnections > 0 && cfg.maxIdleTime > 0
    ensures Run(cfg, Empty(start), steps).Some? && !ExclusiveUse(Run(cfg, Empty(start), steps).value.log)
  {
    var s := IntoTheWindow(cfg, start, id);
    var look := CleanupLook(id);
    var before: seq<Step> :| RaceFree(cfg, Empty(start), before) && Run(cfg, Empty(start), before) == Some(s);
    DecisionBreaksIff(cfg, start, before, look);
    var t := Next(cfg, s, look);
    var u :| Reaches(cfg, t, u) && !ExclusiveUse(u.log);
    var after: seq<Step> :| RaceFree(cfg, t, after) && Run(cfg, t, after) == Some(u);
    steps := Around(cfg, start, before, look, after);
  }

  lemma Around(cfg: Config, start: int, before: seq<Step>, step: Step, after: seq<Step>) returns (steps: seq<Step>)
    requires Run(cfg, Empty(start), before).Some? && Enabled(cfg, Run(cfg, Empty(start), before).value, step)
    ensures Run(cfg, Empty(start), steps)
         == Run(cfg, Next(cfg, Run(cfg, Empty(start), before).value, step), after)
  {
    var s := Run(cfg, Empty(start), before).value;
    steps := before + ([step] + after);
    RunsCompose(cfg, Empty(start), before, [step] + after);
    assert ([step] + after)[0] == step && ([step] + after)[1..] == after;
  }

  /** Exclusive use holds over every interleaving exactly for the configurations that never reuse a
      connection: no room in the channel, or no idle time allowed. */
  lemma AlwaysExclusiveIff(cfg: Config, start: int)
    ensures (forall steps: seq<Step> | Run(cfg, Empty(start), steps).Some? ::
               ExclusiveUse(Run(cfg, Empty(start), steps).value.log))
            <==> cfg.maxConnections == 0 || cfg.maxIdleTime <= 0
  {
    if cfg.maxConnections == 0 || cfg.maxIdleTime <= 0 {
      forall steps: seq<Step> | Run(cfg, Empty(start), steps).Some?
        ensures ExclusiveUse(Run(cfg, Empty(start), steps).value.log)
      {
        NoRaces(cfg, Empty(start), steps);
        PoolIsSafe(cfg, start, steps);
      }
    } else {
      var steps := UseCanBreak(cfg, start, "");
    }
  }

  /* ---------- Drift of `stats.Size` ---------- */

  /** Created, used and put back. */
  lemma PutBack(cfg: Config, start: int, id: ConnId) returns (t: Pool)
    requires cfg.maxConnections > 0
    ensures Reaches(cfg, Empty(start), t) && Basic(cfg, t)
    ensures t.now == start && t.channel == [id] && t.active == {id} && t.store == map[id := Conn(start, start, false, true, 1)]
    ensures t.stats.size == 1 && t.reaper == Reaper(start, {}, {})
  {
    var s0 := Empty(start);
    var s1 := FirstConnection(cfg, start, id);
    var s2 := Extend(cfg, s0, s1, Unmark(id));
    var s3 := Extend(cfg, s0, s2, Restamp(id));
    assert s3.store == map[id := Conn(start, start, false, true, 1)] && s3.stage == map[id := Restamped];
    t := Extend(cfg, s0, s3, Send(id));
    Kept(cfg, s0, t);
  }

  /** Removed by cleanup while it sits in the channel. */
  lemma Reaped(cfg: Config, s: Pool, id: ConnId) returns (t: Pool)
    requires Basic(cfg, s) && s.channel == [id] && s.active == {id} && id in s.store
    requires s.now == s.store[id].lastUsed && s.reaper.scan == {} && s.reaper.victims == {}
    ensures Reaches(cfg, s, t) && Basic(cfg, t)
    ensures t.channel == [id] && t.active == {} && t.stats.size == s.stats.size - 1 && Unlocked(t)
    ensures id in t.store && t.now - t.store[id].lastUsed > cfg.maxIdleTime
  {
    ReachesItself(cfg, s);
    assert id in s.channel && At(s, id, Queued) && Tidy(cfg, s, id);
    var s1 := Extend(cfg, s, s, Tick(Stale(cfg)));
    var s2 := Extend(cfg, s, s1, CleanupStart(0));
    var s3 := Extend(cfg, s, s2, CleanupLook(id));
    assert s3.reaper.scan == {};
    t := Extend(cfg, s, s3, CleanupDestroy(id));
    Kept(cfg, s, t);
  }

  /** Without room: collected and destroyed between the two writes of its return, where it can do no harm,
      since the client then finds no room and destroys it again. */
  lemma ReapedOnReturn(cfg: Config, start: int, id: ConnId) returns (t: Pool)
    requires cfg.maxConnections == 0
    ensures Reaches(cfg, Empty(start), t)
    ensures t.channel == [] && t.active == {} && t.stats.size == 0 && Unlocked(t)
    ensures id in t.store && t.stage == map[id := Unmarked]
  {
    var s0 := Empty(start);
    var s3 := StaleOnReturn(cfg, start, id);
    var s4 := Extend(cfg, s0, s3, CleanupStart(0));
    var s5 := Extend(cfg, s0, s4, CleanupLook(id));
    assert s5.reaper.scan == {} && s5.reaper.victims == {id};
    t := Extend(cfg, s0, s5, CleanupDestroy(id));
  }

  lemma DriftWithoutRoom(cfg: Config, start: int, id: ConnId) returns (t: Pool)
    requires cfg.maxConnections == 0
    ensures Reaches(cfg, Empty(start), t) && t.active == {} && t.stats.size == -1
  {
    var s0 := Empty(start);
    var s1 := ReapedOnReturn(cfg, start, id);
    var s2 := Extend(cfg, s0, s1, Restamp(id));
    var s3 := Extend(cfg, s0, s2, Send(id));
    t := Extend(cfg, s0, s3, Drop(id));
  }

  /** Cleanup removes it while it sits in the channel, and it is destroyed again when it is popped. */
  lemma DriftWithRoom(cfg: Config, start: int, id: ConnId) returns (t: Pool)
    requires cfg.maxConnections > 0
    ensures Reaches(cfg, Empty(start), t) && t.active == {} && t.stats.size == -1
  {
    var s := PutBack(cfg, start, id);
    var gone := Reaped(cfg, s, id);
    ReachesOn(cfg, Empty(start), s, gone);
    assert id in gone.channel && At(gone, id, Queued);
    var popped := Extend(cfg, Empty(start), gone, Receive);
    t := Extend(cfg, Empty(start), popped, Drop(id));
  }

  /** `Size == |active|` is false of the code, without any race and in every configuration: the table can be
      empty and the count negative. */
  lemma SizeCanDrift(cfg: Config, start: int)
    ensures exists t :: Reaches(cfg, Empty(start), t) && t.active == {} && t.stats.size == -1
  {
    if cfg.maxConnections == 0 {
      var t := DriftWithoutRoom(cfg, start, "");
    } else {
      var t := DriftWithRoom(cfg, start, "");
    }
  }
}
