/** The per-resource connection pool (internal/performance/connection_pool.go) as an
    interleaving of its clients' gets and returns with the health-check and cleanup passes.

    A connection's fields are read and written without a lock, so a get is a receive with its
    test, then the write of `InUse`, then the write of `LastUsed`; a return is the same two
    writes and then a send; a health visit judges, marks, and only then looks at `InUse`; and
    cleanup looks at one connection after another.  Both passes destroy later what they decided
    earlier, and they remove connections from `active` without taking them out of the channel.

    The receive and the two reads of its test are one step, and so are cleanup's two reads of a
    connection: what another goroutine does between them has the same effect before or after. */
module ConnectionPool {

  import opened Common

  type ConnId = string

  datatype Config = Config(maxConnections: nat, maxIdleTime: int)

  /** 30 minutes, in the clock's unit. */
  const MAX_AGE: int := 1_800_000_000_000

  datatype Conn = Conn(createdAt: int, lastUsed: int, inUse: bool, healthy: bool, usageCount: int)

  datatype Event = HandedOut(id: ConnId) | Returned(id: ConnId) | Destroyed(id: ConnId)

  datatype Stats = Stats(size: int, created: int, destroyed: int, hits: int, misses: int)

  /** How far the client operation that has the connection got. */
  datatype Stage =
    | Queued        // in the channel
    | Accepted      // received and tested, `InUse` not yet written
    | Claimed       // `InUse` written, `LastUsed` not yet
    | Held
    | Unmarked      // coming back: `InUse` cleared, `LastUsed` not yet written
    | Restamped     // coming back: both written, not yet sent
    | Dropped       // rejected, or no room: the client's `destroyConnection` is pending
    | Gone

  datatype Phase = Looking | Judged(ok: bool) | Marked | Doomed

  /** The health check: the rest of its snapshot, and how far it is with the first of it. */
  datatype Health = Health(todo: seq<ConnId>, phase: Phase)

  /** Cleanup: its clock reading, what it has still to look at, and what it will destroy.  While it
      looks it holds the read lock, so nothing enters or leaves `active`. */
  datatype Reaper = Reaper(at: int, scan: set<ConnId>, victims: set<ConnId>)

  datatype Pool = Pool(
    now: int,
    store: map<ConnId, Conn>,       // every connection ever created
    stage: map<ConnId, Stage>,
    channel: seq<ConnId>,
    active: set<ConnId>,            // the `active` table
    health: Health,
    reaper: Reaper,
    stats: Stats,
    log: seq<Event>)

  function Empty(now: int): Pool {
    Pool(now, map[], map[], [], {}, Health([], Looking), Reaper(now, {}, {}), Stats(0, 0, 0, 0, 0), [])
  }

  datatype Step =
    | Tick(elapsed: nat)
    | Receive                       // from the channel, with the test
    | Claim(id: ConnId)
    | Stamp(id: ConnId)             // and hand out
    | Create(id: ConnId)            // nothing usable: a new connection, handed out
    | Unmark(id: ConnId)            // the client gives it back
    | Restamp(id: ConnId)
    | Send(id: ConnId)
    | Drop(id: ConnId)              // the client's `destroyConnection`
    | HealthStart(snapshot: seq<ConnId>)
    | HealthJudge
    | HealthMark
    | HealthDecide
    | HealthDestroy
    | CleanupStart(waited: nat)     // the clock is read before the lock is taken
    | CleanupLook(id: ConnId)
    | CleanupDestroy(id: ConnId)

  /** `isConnectionHealthy`. */
  predicate IsHealthy(cfg: Config, c: Conn, now: int) {
    !(now - c.createdAt > MAX_AGE) && !(now - c.lastUsed > cfg.maxIdleTime)
  }

  /** What `getConnection` accepts from the channel. */
  predicate Usable(cfg: Config, c: Conn, now: int) {
    c.healthy && now - c.lastUsed < cfg.maxIdleTime
  }

  /** What `cleanup` collects. */
  predicate Idle(cfg: Config, c: Conn, now: int) {
    !c.inUse && now - c.lastUsed > cfg.maxIdleTime
  }

  function Elements(s: seq<ConnId>): set<ConnId> {
    set c | c in s
  }

  predicate At(s: Pool, id: ConnId, stage: Stage) {
    id in s.store && id in s.stage && s.stage[id] == stage
  }

  predicate Visiting(s: Pool, phase: Phase) {
    s.health.todo != [] && s.health.todo[0] in s.store && s.health.todo[0] in s.stage && s.health.phase == phase
  }

  /** No reader of `active` is in the way. */
  predicate Unlocked(s: Pool) {
    s.reaper.scan == {}
  }

  predicate Enabled(cfg: Config, s: Pool, step: Step) {
    match step
    case Tick(_) => true
    case Receive => s.channel != [] && s.channel[0] in s.store
    case Claim(id) => At(s, id, Accepted)
    case Stamp(id) => At(s, id, Claimed)
    case Create(id) => id !in s.store && Unlocked(s)
    case Unmark(id) => At(s, id, Held)
    case Restamp(id) => At(s, id, Unmarked)
    case Send(id) => At(s, id, Restamped)
    case Drop(id) => At(s, id, Dropped) && Unlocked(s)
    case HealthStart(snapshot) => s.health.todo == [] && Distinct(snapshot) && Elements(snapshot) == s.active
    case HealthJudge => Visiting(s, Looking)
    case HealthMark => Visiting(s, Judged(true)) || Visiting(s, Judged(false))
    case HealthDecide => Visiting(s, Marked)
    case HealthDestroy => Visiting(s, Doomed) && Unlocked(s)
    case CleanupStart(_) => s.reaper.scan == {} && s.reaper.victims == {}
    case CleanupLook(id) => id in s.reaper.scan && id in s.store && id in s.stage
    case CleanupDestroy(id) => id in s.reaper.victims && Unlocked(s)
  }

  function Move(s: Pool, id: ConnId, c: Conn, stage: Stage): Pool {
    s.(store := s.store[id := c], stage := s.stage[id := stage])
  }

  /** `destroyConnection`. */
  function Remove(s: Pool, id: ConnId): Pool {
    s.(active := s.active - {id},
       stats := s.stats.(destroyed := s.stats.destroyed + 1, size := s.stats.size - 1),
       log := s.log + [Destroyed(id)])
  }

  /** The health check goes on to the next connection. */
  function Onward(h: Health): Health
    requires h.todo != []
  {
    Health(h.todo[1..], Looking)
  }

  function Next(cfg: Config, s: Pool, step: Step): Pool
    requires Enabled(cfg, s, step)
  {
    match step
    case Tick(elapsed) => s.(now := s.now + elapsed)
    case Receive =>
      var id := s.channel[0];
      s.(channel := s.channel[1..],
         stage := s.stage[id := if Usable(cfg, s.store[id], s.now) then Accepted else Dropped])
    case Claim(id) => Move(s, id, s.store[id].(inUse := true), Claimed)
    case Stamp(id) =>
      Move(s, id, s.store[id].(lastUsed := s.now, usageCount := s.store[id].usageCount + 1), Held).(
        stats := s.stats.(hits := s.stats.hits + 1),
        log := s.log + [HandedOut(id)])
    case Create(id) =>
      Move(s, id, Conn(s.now, s.now, true, true, 1), Held).(
        active := s.active + {id},
        stats := s.stats.(created := s.stats.created + 1, size := s.stats.size + 1, misses := s.stats.misses + 1),
        log := s.log + [HandedOut(id)])
    case Unmark(id) => Move(s, id, s.store[id].(inUse := false), Unmarked).(log := s.log + [Returned(id)])
    case Restamp(id) => Move(s, id, s.store[id].(lastUsed := s.now), Restamped)
    case Send(id) =>
      if |s.channel| < cfg.maxConnections then s.(stage := s.stage[id := Queued], channel := s.channel + [id])
      else s.(stage := s.stage[id := Dropped])
    case Drop(id) => Remove(s, id).(stage := s.stage[id := Gone])
    case HealthStart(snapshot) => s.(health := Health(snapshot, Looking))
    case HealthJudge =>
      s.(health := Health(s.health.todo, Judged(IsHealthy(cfg, s.store[s.health.todo[0]], s.now))))
    case HealthMark =>
      var id, ok := s.health.todo[0], s.health.phase.ok;
      s.(store := s.store[id := s.store[id].(healthy := ok)],
         health := if ok then Onward(s.health) else Health(s.health.todo, Marked))
    case HealthDecide =>
      s.(health := if s.store[s.health.todo[0]].inUse then Onward(s.health) else Health(s.health.todo, Doomed))
    case HealthDestroy => Remove(s, s.health.todo[0]).(health := Onward(s.health))
    case CleanupStart(waited) => s.(reaper := Reaper(s.now - waited, s.active, {}))
    case CleanupLook(id) =>
      var r := s.reaper;
      s.(reaper := Reaper(r.at, r.scan - {id}, if Idle(cfg, s.store[id], r.at) then r.victims + {id} else r.victims))
    case CleanupDestroy(id) => Remove(s, id).(reaper := s.reaper.(victims := s.reaper.victims - {id}))
  }

  /** The state after a run, if every step was enabled. */
  ghost function Run(cfg: Config, s: Pool, steps: seq<Step>): (r: Option<Pool>)
    decreases |steps|
  {
    if steps == [] then Some(s)
    else if Enabled(cfg, s, steps[0]) then Run(cfg, Next(cfg, s, steps[0]), steps[1..])
    else None
  }

  /* ---------- The promise, read off the event log alone ---------- */

  /** How many clients hold `id` after these events. */
  function Holders(log: seq<Event>, id: ConnId): int {
    if log == [] then 0
    else
      var before := Holders(log[..|log| - 1], id);
      match log[|log| - 1]
      case HandedOut(c) => if c == id then before + 1 else before
      case Returned(c) => if c == id then before - 1 else before
      case Destroyed(_) => before
  }

  /** Whether `e` may follow `past`: nobody receives a connection someone holds or that was
      ever destroyed; only holders return; nothing held is destroyed. */
  ghost predicate MayFollow(past: seq<Event>, e: Event) {
    && Holders(past, e.id) == (if e.Returned? then 1 else 0)
    && (e.HandedOut? ==> Destroyed(e.id) !in past)
  }

  ghost predicate ExclusiveUse(log: seq<Event>) {
    forall i | 0 <= i < |log| :: MayFollow(log[..i], log[i])
  }

  /** Connections destroyed again after they had already left `active`. */
  function Repeats(log: seq<Event>): nat {
    if log == [] then 0
    else
      var front, last := log[..|log| - 1], log[|log| - 1];
      Repeats(front) + if last.Destroyed? && last in front then 1 else 0
  }

  /* ---------- Racing decisions ---------- */

  /** The health check may yet mark `c` healthy: it is about to, or may judge it while it is young. */
  predicate CanHeal(s: Pool, c: ConnId)
    requires c in s.store
  {
    if s.health.todo != [] && s.health.todo[0] == c && !s.health.phase.Looking?
    then s.health.phase == Judged(true)
    else (c in s.active || c in s.health.todo) && s.now - s.store[c].createdAt <= MAX_AGE
  }

  /** A connection that is coming back, or is back in the channel, and can never be accepted again. */
  predicate Hopeless(cfg: Config, s: Pool, c: ConnId)
    requires c in s.store && c in s.stage
  {
    || cfg.maxConnections == 0
    || (if s.stage[c] == Unmarked then 0 else s.now - s.store[c].lastUsed) >= cfg.maxIdleTime
    || (!s.store[c].healthy && !CanHeal(s, c))
  }

  /** A decision to destroy that falls on a connection a client has accepted but not yet claimed, or
      has given back but not yet restamped (unless it can never be accepted again anyway). */
  predicate Racing(cfg: Config, s: Pool, step: Step)
    requires Enabled(cfg, s, step)
  {
    match step
    case HealthDecide => s.stage[s.health.todo[0]] == Accepted
    case CleanupLook(id) =>
      && Idle(cfg, s.store[id], s.reaper.at)
      && (s.stage[id] == Accepted || (s.stage[id] == Unmarked && !Hopeless(cfg, s, id)))
    case _ => false
  }

  /** No step of the run is a racing decision. */
  ghost predicate RaceFree(cfg: Config, s: Pool, steps: seq<Step>)
    decreases |steps|
  {
    steps != [] ==>
      Enabled(cfg, s, steps[0]) && !Racing(cfg, s, steps[0]) && RaceFree(cfg, Next(cfg, s, steps[0]), steps[1..])
  }

  lemma {:induction false} RunsCompose(cfg: Config, s: Pool, a: seq<Step>, b: seq<Step>)
    requires Run(cfg, s, a).Some?
    ensures Run(cfg, s, a + b) == Run(cfg, Run(cfg, s, a).value, b)
    ensures RaceFree(cfg, s, a) && RaceFree(cfg, Run(cfg, s, a).value, b) ==> RaceFree(cfg, s, a + b)
    decreases |a|
  {
    if a == [] {
      assert a + b == b;
    } else {
      assert (a + b)[0] == a[0] && (a + b)[1..] == a[1..] + b;
      RunsCompose(cfg, Next(cfg, s, a[0]), a[1..], b);
    }
  }

  /* ---------- What every run keeps ---------- */

  ghost predicate Shape(cfg: Config, s: Pool) {
    && s.stage.Keys == s.store.Keys
    && s.active <= s.store.Keys
    && Distinct(s.channel) && |s.channel| <= cfg.maxConnections
    && (forall c :: c in s.channel <==> At(s, c, Queued))
    && Distinct(s.health.todo) && (forall c <- s.health.todo :: c in s.store)
    && s.reaper.scan <= s.active && s.reaper.victims <= s.store.Keys && s.reaper.at <= s.now
  }

  /** What holds of each connection. */
  ghost predicate Tidy(cfg: Config, s: Pool, c: ConnId)
    requires c in s.store && c in s.stage
  {
    && (s.store[c].inUse <==> s.stage[c] == Claimed || s.stage[c] == Held)
    && s.store[c].lastUsed <= s.now
    && (s.stage[c] == Accepted ==> cfg.maxConnections > 0 && cfg.maxIdleTime > 0)
    && (s.health.todo != [] && s.health.todo[0] == c && (s.health.phase.Marked? || s.health.phase.Doomed?)
        ==> !s.store[c].healthy)
  }

  ghost predicate Tracked(s: Pool) {
    && (forall c: ConnId :: Holders(s.log, c) == if At(s, c, Held) then 1 else 0)
    && (forall c: ConnId :: Destroyed(c) in s.log <==> c in s.store && c !in s.active)
  }

  ghost predicate Counted(s: Pool) {
    && s.stats.size == s.stats.created - s.stats.destroyed
    && |s.active| == s.stats.size + Repeats(s.log)
  }

  ghost predicate Basic(cfg: Config, s: Pool) {
    Shape(cfg, s) && (forall c <- s.store :: Tidy(cfg, s, c)) && Tracked(s) && Counted(s)
  }

  /* ---------- What race-free runs keep ---------- */

  /** Destroyed, or decided to be. */
  predicate Threatened(s: Pool, c: ConnId) {
    || c !in s.active
    || c in s.reaper.victims
    || (s.health.todo != [] && s.health.todo[0] == c && s.health.phase.Doomed?)
  }

  /** Nobody has a threatened connection, and none will be accepted again. */
  ghost predicate Secure(cfg: Config, s: Pool, c: ConnId)
    requires c in s.store && c in s.stage
  {
    Threatened(s, c) ==>
      match s.stage[c]
      case Accepted => false
      case Claimed => false
      case Held => false
      case Dropped => true
      case Gone => true
      case _ => Hopeless(cfg, s, c)
  }

  ghost predicate Inv(cfg: Config, s: Pool) {
    Basic(cfg, s) && (forall c <- s.store :: Secure(cfg, s, c)) && ExclusiveUse(s.log)
  }

  /* ---------- Preservation ---------- */

  lemma StepKeepsTidy(cfg: Config, s: Pool, step: Step, c: ConnId)
    requires Shape(cfg, s) && (forall d <- s.store :: Tidy(cfg, s, d)) && Enabled(cfg, s, step)
    requires c in Next(cfg, s, step).store && c in Next(cfg, s, step).stage
    ensures Tidy(cfg, Next(cfg, s, step), c)
  {
    if c in s.store {
      assert Tidy(cfg, s, c);
    }
    match step
    case Receive => assert s.channel[0] in s.channel;
    case HealthMark =>
      assert s.health.todo[0] in s.health.todo;
      assert s.health.phase.ok && |s.health.todo| > 1 ==> s.health.todo[0] != s.health.todo[1];
    case _ =>
  }

  predicate ByClient(step: Step) {
    step.Receive? || step.Create? || OnOne(step)
  }

  /** Client steps on a connection the client has. */
  predicate OnOne(step: Step) {
    step.Claim? || step.Stamp? || step.Unmark? || step.Restamp? || step.Send? || step.Drop?
  }

  lemma ReceiveKeepsSecure(cfg: Config, s: Pool, c: ConnId)
    requires Basic(cfg, s) && Enabled(cfg, s, Receive) && c in s.store && Secure(cfg, s, c)
    ensures Secure(cfg, Next(cfg, s, Receive), c)
  {
    assert s.channel[0] in s.channel;
  }

  lemma ClientKeepsSecure(cfg: Config, s: Pool, step: Step, c: ConnId)
    requires Basic(cfg, s) && Enabled(cfg, s, step) && OnOne(step) && c in s.store && Secure(cfg, s, c)
    ensures Secure(cfg, Next(cfg, s, step), c)
  {
    assert Tidy(cfg, s, c);
  }

  lemma PassKeepsSecure(cfg: Config, s: Pool, step: Step, c: ConnId)
    requires Basic(cfg, s) && Enabled(cfg, s, step) && !Racing(cfg, s, step) && !ByClient(step)
    requires c in s.store && Secure(cfg, s, c)
    ensures Secure(cfg, Next(cfg, s, step), c)
  {
    assert Tidy(cfg, s, c);
  }

  lemma StepKeepsSecure(cfg: Config, s: Pool, step: Step, c: ConnId)
    requires Basic(cfg, s) && (forall d <- s.store :: Secure(cfg, s, d))
    requires Enabled(cfg, s, step) && !Racing(cfg, s, step)
    requires c in Next(cfg, s, step).store && c in Next(cfg, s, step).stage
    ensures Secure(cfg, Next(cfg, s, step), c)
  {
    if c in s.store {
      assert Secure(cfg, s, c);
      if step.Receive? {
        ReceiveKeepsSecure(cfg, s, c);
      } else if OnOne(step) {
        ClientKeepsSecure(cfg, s, step, c);
      } else if !step.Create? {
        PassKeepsSecure(cfg, s, step, c);
      }
    }
  }

  /** The event a step logs, if any. */
  function Logged(s: Pool, step: Step): Option<Event> {
    match step
    case Stamp(id) => Some(HandedOut(id))
    case Create(id) => Some(HandedOut(id))
    case Unmark(id) => Some(Returned(id))
    case Drop(id) => Some(Destroyed(id))
    case HealthDestroy => if s.health.todo == [] then None else Some(Destroyed(s.health.todo[0]))
    case CleanupDestroy(id) => Some(Destroyed(id))
    case _ => None
  }

  lemma StepLogs(cfg: Config, s: Pool, step: Step)
    requires Enabled(cfg, s, step)
    ensures Next(cfg, s, step).log == match Logged(s, step) case None => s.log case Some(e) => s.log + [e]
  {
  }

  lemma HoldersAppend(log: seq<Event>, e: Event, id: ConnId)
    ensures Holders(log + [e], id) ==
      if e == HandedOut(id) then Holders(log, id) + 1
      else if e == Returned(id) then Holders(log, id) - 1
      else Holders(log, id)
  {
    assert (log + [e])[..|log|] == log;
  }

  lemma ExclusiveAppend(log: seq<Event>, e: Event)
    requires ExclusiveUse(log)
    ensures ExclusiveUse(log + [e]) <==> MayFollow(log, e)
  {
    var longer := log + [e];
    assert longer[..|log|] == log && longer[|log|] == e;
    forall i | 0 <= i < |log| ensures MayFollow(longer[..i], longer[i]) {
      assert longer[..i] == log[..i] && MayFollow(log[..i], log[i]);
    }
  }

  lemma RepeatsAppend(log: seq<Event>, e: Event)
    ensures Repeats(log + [e]) == Repeats(log) + if e.Destroyed? && e in log then 1 else 0
  {
    assert (log + [e])[..|log|] == log;
  }

  lemma StepKeepsTracked(cfg: Config, s: Pool, step: Step)
    requires Shape(cfg, s) && Tracked(s) && Enabled(cfg, s, step)
    ensures Tracked(Next(cfg, s, step))
  {
    var t := Next(cfg, s, step);
    StepLogs(cfg, s, step);
    forall c: ConnId ensures Holders(t.log, c) == (if At(t, c, Held) then 1 else 0) {
      if Logged(s, step).Some? {
        HoldersAppend(s.log, Logged(s, step).value, c);
      }
      if step.Receive? {
        assert s.channel[0] in s.channel;
      }
    }
  }

  lemma RemoveKeepsCounted(s: Pool, id: ConnId)
    requires Tracked(s) && Counted(s) && id in s.store
    ensures Counted(Remove(s, id))
  {
    RepeatsAppend(s.log, Destroyed(id));
    assert |s.active - {id}| == if id in s.active then |s.active| - 1 else |s.active|;
  }

  lemma CreateKeepsCounted(cfg: Config, s: Pool, id: ConnId)
    requires Shape(cfg, s) && Counted(s) && Enabled(cfg, s, Create(id))
    ensures Counted(Next(cfg, s, Create(id)))
  {
    RepeatsAppend(s.log, HandedOut(id));
    assert |s.active + {id}| == |s.active| + 1;
  }

  lemma StepKeepsCounted(cfg: Config, s: Pool, step: Step)
    requires Shape(cfg, s) && Tracked(s) && Counted(s) && Enabled(cfg, s, step)
    ensures Counted(Next(cfg, s, step))
  {
    match step
    case Stamp(id) => RepeatsAppend(s.log, HandedOut(id));
    case Create(id) => CreateKeepsCounted(cfg, s, id);
    case Unmark(id) => RepeatsAppend(s.log, Returned(id));
    case Drop(id) => RemoveKeepsCounted(s, id);
    case HealthDestroy => RemoveKeepsCounted(s, s.health.todo[0]);
    case CleanupDestroy(id) => RemoveKeepsCounted(s, id);
    case _ =>
  }

  lemma ReceiveKeepsShape(cfg: Config, s: Pool)
    requires Shape(cfg, s) && Enabled(cfg, s, Receive)
    ensures Shape(cfg, Next(cfg, s, Receive))
  {
    var t := Next(cfg, s, Receive);
    assert s.channel[0] in s.channel && s.channel == [s.channel[0]] + t.channel;
    forall c ensures c in t.channel <==> At(t, c, Queued) {
      assert c in s.channel <==> c in t.channel || c == s.channel[0];
    }
  }

  lemma SendKeepsShape(cfg: Config, s: Pool, id: ConnId)
    requires Shape(cfg, s) && Enabled(cfg, s, Send(id))
    ensures Shape(cfg, Next(cfg, s, Send(id)))
  {
    assert id !in s.channel;
    var t := Next(cfg, s, Send(id));
    if |s.channel| < cfg.maxConnections {
      assert t.channel == s.channel + [id];
    }
  }

  lemma StepKeepsShape(cfg: Config, s: Pool, step: Step)
    requires Shape(cfg, s) && Enabled(cfg, s, step)
    ensures Shape(cfg, Next(cfg, s, step))
  {
    match step
    case Receive => ReceiveKeepsShape(cfg, s);
    case Send(id) => SendKeepsShape(cfg, s, id);
    case HealthStart(snapshot) => assert forall c <- snapshot :: c in Elements(snapshot);
    case _ =>
  }

  /** Every step, racing or not. */
  lemma StepKeepsBasic(cfg: Config, s: Pool, step: Step)
    requires Basic(cfg, s) && Enabled(cfg, s, step)
    ensures Basic(cfg, Next(cfg, s, step))
  {
    StepKeepsShape(cfg, s, step);
    StepKeepsTracked(cfg, s, step);
    StepKeepsCounted(cfg, s, step);
    forall c <- Next(cfg, s, step).store ensures Tidy(cfg, Next(cfg, s, step), c) {
      StepKeepsTidy(cfg, s, step, c);
    }
  }

  /** Every step that is not a racing decision. */
  lemma StepKeepsInv(cfg: Config, s: Pool, step: Step)
    requires Inv(cfg, s) && Enabled(cfg, s, step) && !Racing(cfg, s, step)
    ensures Inv(cfg, Next(cfg, s, step))
  {
    var t := Next(cfg, s, step);
    StepKeepsBasic(cfg, s, step);
    forall c <- t.store ensures Secure(cfg, t, c) {
      StepKeepsSecure(cfg, s, step, c);
    }
    StepLogs(cfg, s, step);
    if Logged(s, step).Some? {
      EventMayFollow(cfg, s, step);
      ExclusiveAppend(s.log, Logged(s, step).value);
    }
  }

  lemma EventMayFollow(cfg: Config, s: Pool, step: Step)
    requires Inv(cfg, s) && Enabled(cfg, s, step) && Logged(s, step).Some?
    ensures MayFollow(s.log, Logged(s, step).value)
  {
    var id := Logged(s, step).value.id;
    if id in s.store {
      assert Secure(cfg, s, id);
    }
  }

  lemma {:induction false} RunKeepsBasic(cfg: Config, s: Pool, steps: seq<Step>)
    requires Basic(cfg, s) && Run(cfg, s, steps).Some?
    ensures Basic(cfg, Run(cfg, s, steps).value)
    decreases |steps|
  {
    if steps != [] {
      StepKeepsBasic(cfg, s, steps[0]);
      RunKeepsBasic(cfg, Next(cfg, s, steps[0]), steps[1..]);
    }
  }

  lemma {:induction false} RunKeepsInv(cfg: Config, s: Pool, steps: seq<Step>)
    requires Inv(cfg, s) && RaceFree(cfg, s, steps)
    ensures Run(cfg, s, steps).Some? && Inv(cfg, Run(cfg, s, steps).value)
    decreases |steps|
  {
    if steps != [] {
      StepKeepsInv(cfg, s, steps[0]);
      RunKeepsInv(cfg, Next(cfg, s, steps[0]), steps[1..]);
    }
  }

  /* ---------- Main results ---------- */

  /** Over every interleaving whatever: no connection ever has two holders, and the channel stays
      within its capacity. */
  lemma NeverTwoHolders(cfg: Config, start: int, steps: seq<Step>)
    requires Run(cfg, Empty(start), steps).Some?
    ensures var s := Run(cfg, Empty(start), steps).value;
      (forall c: ConnId :: 0 <= Holders(s.log, c) <= 1) && |s.channel| <= cfg.maxConnections
  {
    RunKeepsBasic(cfg, Empty(start), steps);
  }

  /** Over every interleaving without a racing decision: exclusive use, no destroy of a held
      connection, and no use after destroy. */
  lemma PoolIsSafe(cfg: Config, start: int, steps: seq<Step>)
    requires RaceFree(cfg, Empty(start), steps)
    ensures Run(cfg, Empty(start), steps).Some? && ExclusiveUse(Run(cfg, Empty(start), steps).value.log)
  {
    RunKeepsInv(cfg, Empty(start), steps);
  }

  /** `stats.Size` under-counts `active` by exactly the number of repeated destroys. */
  lemma SizeDriftIsRepeats(cfg: Config, start: int, steps: seq<Step>)
    requires Run(cfg, Empty(start), steps).Some?
    ensures var s := Run(cfg, Empty(start), steps).value;
      |s.active| - s.stats.size == Repeats(s.log)
  {
    RunKeepsBasic(cfg, Empty(start), steps);
  }
}
