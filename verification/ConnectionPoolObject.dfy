/** The pool's operations as the Go code runs them, on fields updated in place.  Connections are
    shared between the channel and the `active` table, so they live in a table by id and both
    hold ids.  Every operation is shown to be a run of the interleaving in `ConnectionPool`, and
    operations that do not overlap are shown to be free of racing decisions: `PoolIsSafe` holds
    of them without a condition. */
module ConnectionPoolObject {
  import opened Common
  import opened ConnectionPool

  /** No client operation is under way. */
  ghost predicate Quiet(s: Pool) {
    forall c <- s.stage :: s.stage[c] == Queued || s.stage[c] == Held || s.stage[c] == Gone
  }

  /** Which of these connections the health check finds healthy. */
  function HealthyOf(cfg: Config, objects: map<ConnId, Conn>, cs: set<ConnId>, now: int): set<ConnId> {
    set c | c in cs && c in objects && IsHealthy(cfg, objects[c], now)
  }

  lemma OneMoreChecked(cfg: Config, objects: map<ConnId, Conn>, todo: seq<ConnId>, i: nat, now: int)
    requires i < |todo| && todo[i] in objects && todo[i] !in todo[..i]
    ensures |HealthyOf(cfg, objects, Elements(todo[..i + 1]), now)|
         == |HealthyOf(cfg, objects, Elements(todo[..i]), now)| + if IsHealthy(cfg, objects[todo[i]], now) then 1 else 0
  {
    var before := HealthyOf(cfg, objects, Elements(todo[..i]), now);
    assert todo[..i + 1] == todo[..i] + [todo[i]];
    assert Elements(todo[..i + 1]) == Elements(todo[..i]) + {todo[i]};
    assert HealthyOf(cfg, objects, Elements(todo[..i + 1]), now)
        == if IsHealthy(cfg, objects[todo[i]], now) then before + {todo[i]} else before;
  }

  function AfterCheck(cfg: Config, c: Conn, checked: bool, now: int): Conn {
    if checked then c.(healthy := IsHealthy(cfg, c, now)) else c
  }

  /** What a health check of the connections in `done` makes of the objects and the table. */
  ghost predicate Checked(cfg: Config, was: map<ConnId, Conn>, had: set<ConnId>,
                          objects: map<ConnId, Conn>, active: set<ConnId>, done: set<ConnId>, now: int) {
    && objects.Keys == was.Keys && had <= was.Keys
    && (forall c <- objects :: objects[c] == AfterCheck(cfg, was[c], c in done, now))
    && (forall c :: c in active <==> c in had && (c in done ==> IsHealthy(cfg, was[c], now) || was[c].inUse))
  }

  lemma CheckedNext(cfg: Config, was: map<ConnId, Conn>, had: set<ConnId>, mid: map<ConnId, Conn>, left: set<ConnId>,
                    objects: map<ConnId, Conn>, active: set<ConnId>, todo: seq<ConnId>, i: nat, now: int)
    requires i < |todo| && todo[i] in mid && todo[i] !in todo[..i]
    requires Checked(cfg, was, had, mid, left, Elements(todo[..i]), now)
    requires objects == mid[todo[i] := mid[todo[i]].(healthy := IsHealthy(cfg, mid[todo[i]], now))]
    requires active == if IsHealthy(cfg, mid[todo[i]], now) || mid[todo[i]].inUse then left else left - {todo[i]}
    ensures Checked(cfg, was, had, objects, active, Elements(todo[..i + 1]), now)
  {
    assert todo[..i + 1] == todo[..i] + [todo[i]];
    assert Elements(todo[..i + 1]) == Elements(todo[..i]) + {todo[i]};
    assert mid[todo[i]] == was[todo[i]];
  }

  class PoolObject {
    const cfg: Config
    var objects: map<ConnId, Conn>
    var connections: seq<ConnId>
    var active: set<ConnId>
    var stats: Stats
    ghost const start: int
    ghost var model: Pool
    ghost var steps: seq<Step>      // the run so far

    /** The fields are the model's. */
    ghost predicate Aligned()
      reads this
    {
      && model.store == objects && model.channel == connections
      && model.active == active && model.stats == stats
      && objects.Keys == model.stage.Keys && active <= objects.Keys
      && (forall i | 0 <= i < |connections| :: At(model, connections[i], Queued))
    }

    /** The model state is the outcome of the recorded run, which has no racing decision. */
    ghost predicate Traced()
      reads this
    {
      RaceFree(cfg, Empty(start), steps) && Run(cfg, Empty(start), steps) == Some(model)
    }

    /** Neither pass is under way. */
    ghost predicate Resting()
      reads this
    {
      model.health.todo == [] && model.reaper.scan == {} && model.reaper.victims == {}
    }

    ghost predicate Valid()
      reads this
    {
      Aligned() && Traced() && Resting() && Quiet(model)
    }

    constructor (cfg: Config, now: int)
      ensures Valid() && model == Empty(now) && this.cfg == cfg && start == now
    {
      this.cfg := cfg;
      objects, connections, active, stats := map[], [], {}, Stats(0, 0, 0, 0, 0);
      model, steps, start := Empty(now), [], now;
    }

    /** Whatever non-overlapping operations were performed, use was exclusive. */
    lemma Safe()
      requires Valid()
      ensures ExclusiveUse(model.log)
    {
      PoolIsSafe(cfg, start, steps);
    }

    ghost method Record(step: Step)
      requires Traced() && Enabled(cfg, model, step) && !Racing(cfg, model, step)
      modifies this`model, this`steps
      ensures Traced() && model == Next(cfg, old(model), step) && steps == old(steps) + [step]
    {
      var one := [step];
      assert one[1..] == [];
      assert RaceFree(cfg, Next(cfg, model, step), []);
      RunsCompose(cfg, Empty(start), steps, one);
      model, steps := Next(cfg, model, step), steps + [step];
    }

    /** The clock reading at the start of an operation. */
    ghost method Advance(now: int)
      requires Valid() && model.now <= now
      modifies this`model, this`steps
      ensures Valid() && old(steps) <= steps && model == old(model).(now := now)
    {
      Record(Tick(now - model.now));
    }

    lemma ChannelIsDistinct()
      requires Traced()
      ensures Distinct(model.channel)
    {
      RunKeepsBasic(cfg, Empty(start), steps);
    }

    /** Receives from the channel and tests. */
    method Pop(now: int) returns (conn: ConnId, accepted: bool)
      requires Valid() && model.now == now && |connections| > 0
      modifies this`connections, this`model, this`steps
      ensures Aligned() && Traced() && Resting() && steps == old(steps) + [Receive]
      ensures connections == old(connections)[1..] && conn == old(connections)[0] && conn in objects
      ensures accepted == Usable(cfg, objects[conn], now)
      ensures model == old(model).(channel := connections, stage := old(model).stage[conn := if accepted then Accepted else Dropped])
    {
      conn := connections[0];
      ChannelIsDistinct();
      Record(Receive);
      connections := connections[1..];
      accepted := objects[conn].healthy && now - objects[conn].lastUsed < cfg.maxIdleTime;
    }

    /** The two writes that make a connection the client's. */
    method Take(now: int, conn: ConnId)
      requires Aligned() && Traced() && Resting() && model.now == now && At(model, conn, Accepted)
      modifies this`objects, this`stats, this`model, this`steps
      ensures Aligned() && Traced() && Resting() && model.now == now && steps == old(steps) + [Claim(conn), Stamp(conn)]
      ensures objects == old(objects)[conn := old(objects)[conn].(
        inUse := true, lastUsed := now, usageCount := old(objects)[conn].usageCount + 1)]
      ensures model.stage == old(model).stage[conn := Held] && model.log == old(model).log + [HandedOut(conn)]
      ensures stats == old(stats).(hits := old(stats).hits + 1)
    {
      WriteInUse(conn);
      WriteLastUsed(now, conn);
      assert model.stage == old(model).stage[conn := Held];
    }

    method WriteLastUsed(now: int, conn: ConnId)
      requires Aligned() && Traced() && Resting() && model.now == now && At(model, conn, Claimed)
      modifies this`objects, this`stats, this`model, this`steps
      ensures Aligned() && Traced() && Resting() && model.now == now && steps == old(steps) + [Stamp(conn)]
      ensures objects == old(objects)[conn := old(objects)[conn].(lastUsed := now, usageCount := old(objects)[conn].usageCount + 1)]
      ensures model.stage == old(model).stage[conn := Held] && model.log == old(model).log + [HandedOut(conn)]
      ensures stats == old(stats).(hits := old(stats).hits + 1)
    {
      Record(Stamp(conn));
      var c := objects[conn];
      objects := objects[conn := c.(lastUsed := now, usageCount := c.usageCount + 1)];
      stats := stats.(hits := stats.hits + 1);
    }

    method WriteInUse(conn: ConnId)
      requires Aligned() && Traced() && Resting() && At(model, conn, Accepted)
      modifies this`objects, this`model, this`steps
      ensures Aligned() && Traced() && Resting() && steps == old(steps) + [Claim(conn)]
      ensures objects == old(objects)[conn := old(objects)[conn].(inUse := true)]
      ensures model == old(model).(store := objects, stage := old(model).stage[conn := Claimed])
    {
      Record(Claim(conn));
      objects := objects[conn := objects[conn].(inUse := true)];
    }

    method GetConnection(now: int, freshId: ConnId) returns (conn: ConnId)
      requires Valid() && model.now <= now && freshId !in objects
      modifies this
      ensures Valid() && old(steps) <= steps && model.now == now
      ensures At(model, conn, Held) && !At(old(model), conn, Held)
      ensures forall c: ConnId | c != conn :: At(model, c, Held) <==> At(old(model), c, Held)
      ensures objects[conn].inUse && objects[conn].lastUsed == now
      ensures |old(connections)| > 0 ==> connections == old(connections)[1..]
      ensures conn == if |old(connections)| > 0 && Usable(cfg, old(objects)[old(connections)[0]], now)
                      then old(connections)[0] else freshId
      ensures conn == freshId ==> objects[conn] == Conn(now, now, true, true, 1)
      ensures conn != freshId ==> objects[conn].usageCount == old(objects)[conn].usageCount + 1
      ensures stats.hits == old(stats.hits) + (if conn == freshId then 0 else 1)
      ensures stats.misses == old(stats.misses) + (if conn == freshId then 1 else 0)
      ensures |old(connections)| == 0 ==> connections == [] && active == old(active) + {conn}
      ensures |old(connections)| > 0 && conn != freshId ==> active == old(active) && stats.created == old(stats.created)
      ensures |old(connections)| > 0 && conn == freshId ==>
        active == old(active) - {old(connections)[0]} + {freshId} && stats.created == old(stats.created) + 1
    {
      Advance(now);
      if |connections| > 0 {
        var accepted;
        conn, accepted := Reuse(now);
        if accepted {
          return;
        }
      }
      conn := CreateConnection(now, freshId);
    }

    /** The first half of `getConnection`: accept the popped connection, or destroy it. */
    method Reuse(now: int) returns (conn: ConnId, accepted: bool)
      requires Valid() && model.now == now && |connections| > 0
      modifies this
      ensures Valid() && old(steps) <= steps && model.now == now
      ensures connections == old(connections)[1..] && conn == old(connections)[0] && conn in objects
      ensures accepted == Usable(cfg, old(objects)[conn], now)
      ensures model.stage == old(model).stage[conn := if accepted then Held else Gone]
      ensures accepted ==> objects[conn].inUse && objects[conn].lastUsed == now
      ensures objects.Keys == old(objects).Keys
      ensures active == if accepted then old(active) else old(active) - {conn}
      ensures stats.created == old(stats.created) && stats.misses == old(stats.misses)
      ensures stats.hits == old(stats.hits) + if accepted then 1 else 0
      ensures accepted ==> objects[conn].usageCount == old(objects)[conn].usageCount + 1
    {
      conn, accepted := Pop(now);
      if accepted {
        Take(now, conn);
      } else {
        DestroyDropped(conn);
      }
      assert model.stage == old(model).stage[conn := if accepted then Held else Gone];
    }

    /** Returning no connection does nothing. */
    method ReturnConnection(now: int, conn: Option<ConnId>)
      requires Valid() && model.now <= now && (conn.Some? ==> At(model, conn.value, Held))
      modifies this
      ensures Valid() && old(steps) <= steps
      ensures conn.None? ==> model == old(model)
      ensures conn.Some? ==> objects == old(objects)[conn.value := old(objects)[conn.value].(inUse := false, lastUsed := now)]
      ensures conn.Some? ==> forall c: ConnId :: At(model, c, Held) <==> At(old(model), c, Held) && c != conn.value
      ensures conn.Some? && |old(connections)| < cfg.maxConnections ==>
        connections == old(connections) + [conn.value] && active == old(active)
      ensures conn.Some? && |old(connections)| >= cfg.maxConnections ==>
        connections == old(connections) && active == old(active) - {conn.value}
      ensures stats.created == old(stats.created) && (conn.Some? ==> model.now == now)
    {
      if conn.Some? {
        Advance(now);
        var sent := PutBack(now, conn.value);
        if !sent {
          DestroyDropped(conn.value);
        }
      }
    }

    /** A connection given back to an empty pool is what the next caller gets, if it is marked healthy and
        has been idle for less than the limit; otherwise it is destroyed and the caller gets a new one. */
    method ReturnThenGet(returned: int, conn: ConnId, asked: int, freshId: ConnId) returns (again: ConnId)
      requires Valid() && At(model, conn, Held) && connections == [] && cfg.maxConnections > 0
      requires model.now <= returned <= asked && freshId !in objects
      modifies this
      ensures Valid() && At(model, again, Held) && connections == []
      ensures again == if old(objects)[conn].healthy && asked - returned < cfg.maxIdleTime then conn else freshId
      ensures again == conn ==> active == old(active) && stats.created == old(stats.created)
      ensures again != conn ==> active == old(active) - {conn} + {freshId} && stats.created == old(stats.created) + 1
    {
      ReturnConnection(returned, Some(conn));
      again := GetConnection(asked, freshId);
    }

    /** Cleanup takes a returned connection out of the active table exactly when it has been idle for longer
        than the limit. */
    method ReturnThenCleanup(returned: int, conn: ConnId, now: int)
      requires Valid() && At(model, conn, Held) && |connections| < cfg.maxConnections
      requires model.now <= returned <= now
      modifies this
      ensures Valid()
      ensures conn in active <==> conn in old(active) && now - returned <= cfg.maxIdleTime
    {
      ReturnConnection(returned, Some(conn));
      Cleanup(now);
    }

    /** Marks the connection idle and tries the non-blocking send. */
    method PutBack(now: int, conn: ConnId) returns (sent: bool)
      requires Valid() && model.now == now && At(model, conn, Held)
      modifies this`objects, this`connections, this`model, this`steps
      ensures Aligned() && Traced() && Resting() && model.now == now && old(steps) <= steps
      ensures objects == old(objects)[conn := old(objects)[conn].(inUse := false, lastUsed := now)]
      ensures sent == (|old(connections)| < cfg.maxConnections)
      ensures connections == if sent then old(connections) + [conn] else old(connections)
      ensures model.stage == old(model).stage[conn := if sent then Queued else Dropped]
    {
      LetGo(now, conn);
      Record(Send(conn));
      sent := |connections| < cfg.maxConnections;
      if sent {
        connections := connections + [conn];
      }
      assert model.stage == old(model).stage[conn := if sent then Queued else Dropped];
    }

    /** The two writes of a return. */
    method LetGo(now: int, conn: ConnId)
      requires Valid() && model.now == now && At(model, conn, Held)
      modifies this`objects, this`model, this`steps
      ensures Aligned() && Traced() && Resting() && model.now == now && old(steps) <= steps
      ensures objects == old(objects)[conn := old(objects)[conn].(inUse := false, lastUsed := now)]
      ensures model.stage == old(model).stage[conn := Restamped]
    {
      ClearInUse(conn);
      Record(Restamp(conn));
      objects := objects[conn := objects[conn].(lastUsed := now)];
      assert model.stage == old(model).stage[conn := Restamped];
    }

    method ClearInUse(conn: ConnId)
      requires Aligned() && Traced() && Resting() && At(model, conn, Held)
      modifies this`objects, this`model, this`steps
      ensures Aligned() && Traced() && Resting() && steps == old(steps) + [Unmark(conn)]
      ensures objects == old(objects)[conn := old(objects)[conn].(inUse := false)]
      ensures model == old(model).(store := objects, stage := old(model).stage[conn := Unmarked], log := model.log)
    {
      Record(Unmark(conn));
      objects := objects[conn := objects[conn].(inUse := false)];
    }

    method CreateConnection(now: int, connId: ConnId) returns (conn: ConnId)
      requires Valid() && model.now == now && connId !in objects
      modifies this
      ensures Valid() && steps == old(steps) + [Create(connId)] && conn == connId && model.now == now
      ensures objects == old(objects)[connId := Conn(now, now, true, true, 1)] && connections == old(connections)
      ensures active == old(active) + {connId} && model.stage == old(model).stage[connId := Held]
      ensures stats.created == old(stats.created) + 1 && stats.misses == old(stats.misses) + 1 && stats.hits == old(stats.hits)
    {
      Record(Create(connId));
      objects := objects[connId := Conn(now, now, true, true, 1)];
      active := active + {connId};
      stats := stats.(created := stats.created + 1, size := stats.size + 1, misses := stats.misses + 1);
      conn := connId;
    }

    /** `destroyConnection` itself; its callers record whose step it is. */
    method DestroyConnection(conn: ConnId)
      modifies this`active, this`stats
      ensures active == old(active) - {conn}
      ensures stats == old(stats).(destroyed := old(stats).destroyed + 1, size := old(stats).size - 1)
    {
      active := active - {conn};
      stats := stats.(destroyed := stats.destroyed + 1, size := stats.size - 1);
    }

    /** A client destroys what it rejected or could not put back. */
    method DestroyDropped(conn: ConnId)
      requires Aligned() && Traced() && Resting() && At(model, conn, Dropped)
      requires forall c <- model.stage | c != conn :: model.stage[c] == Queued || model.stage[c] == Held || model.stage[c] == Gone
      modifies this`active, this`stats, this`model, this`steps
      ensures Valid() && steps == old(steps) + [Drop(conn)] && active == old(active) - {conn}
      ensures model.stage == old(model).stage[conn := Gone] && model.now == old(model).now
      ensures stats.created == old(stats.created) && stats.misses == old(stats.misses) && stats.hits == old(stats.hits)
    {
      Record(Drop(conn));
      DestroyConnection(conn);
    }

    /** The snapshot under the read lock, in the order Go ranges over the map. */
    method Snapshot() returns (todo: seq<ConnId>)
      ensures Elements(todo) == active && Distinct(todo) && |todo| == |active|
    {
      todo := [];
      var keys := active;
      while keys != {}
        invariant |todo| == |active| - |keys|
        invariant keys <= active && (forall c :: c in todo <==> c in active && c !in keys) && Distinct(todo)
        decreases |keys|
      {
        var k :| k in keys;
        todo := todo + [k];
        keys := keys - {k};
      }
    }

    /** Clients see nothing of a pass. */
    ghost predicate SameClients(before: Pool) reads this {
      model.stage == before.stage && model.channel == before.channel && model.now == before.now
    }

    method HealthCheck(now: int) returns (healthyCount: nat, unhealthyCount: nat)
      requires Valid() && model.now <= now
      modifies this
      ensures Valid() && old(steps) <= steps && model.now == now
      ensures model.stage == old(model).stage && connections == old(connections)
      ensures healthyCount == |HealthyOf(cfg, old(objects), old(active), now)|
      ensures healthyCount + unhealthyCount == |old(active)|
      ensures objects.Keys == old(objects).Keys
      ensures forall c <- objects :: objects[c] == AfterCheck(cfg, old(objects)[c], c in old(active), now)
      ensures active == set c | c in old(active) && (IsHealthy(cfg, old(objects)[c], now) || old(objects)[c].inUse)
      ensures forall c <- old(active) :: c in objects && (objects[c].healthy <==>
        now - old(objects)[c].createdAt <= 30 * 60 * 1_000_000_000 && now - old(objects)[c].lastUsed <= cfg.maxIdleTime)
      ensures forall c <- old(active) :: c in active <==> objects[c].healthy || objects[c].inUse
    {
      Advance(now);
      var todo := Snapshot();
      Record(HealthStart(todo));
      assert forall c <- todo :: c in Elements(todo);
      healthyCount, unhealthyCount := CheckAll(now, todo);
      assert active == set c | c in old(active) && (IsHealthy(cfg, old(objects)[c], now) || old(objects)[c].inUse);
    }

    /** The loop of `healthCheck` over its snapshot. */
    method CheckAll(now: int, todo: seq<ConnId>) returns (healthyCount: nat, unhealthyCount: nat)
      requires Aligned() && Traced() && Quiet(model) && model.now == now
      requires model.health == Health(todo, Looking) && model.reaper.scan == {} && model.reaper.victims == {}
      requires Distinct(todo) && forall c <- todo :: c in objects
      modifies this
      ensures Valid() && old(steps) <= steps && SameClients(old(model)) && healthyCount + unhealthyCount == |todo|
      ensures healthyCount == |HealthyOf(cfg, old(objects), Elements(todo), now)|
      ensures objects.Keys == old(objects).Keys
      ensures Checked(cfg, old(objects), old(active), objects, active, Elements(todo), now)
    {
      healthyCount, unhealthyCount := 0, 0;
      for i := 0 to |todo|
        invariant Aligned() && Traced() && SameClients(old(model)) && model.health == Health(todo[i..], Looking)
        invariant model.reaper == old(model).reaper && old(steps) <= steps
        invariant objects.Keys == old(objects).Keys && healthyCount + unhealthyCount == i
        invariant healthyCount == |HealthyOf(cfg, old(objects), Elements(todo[..i]), now)|
        invariant Checked(cfg, old(objects), old(active), objects, active, Elements(todo[..i]), now)
      {
        var conn := todo[i];
        assert conn !in todo[..i] && todo[i..][1..] == todo[i + 1..];
        OneMoreChecked(cfg, old(objects), todo, i, now);
        ghost var was, had := objects, active;
        var more, less := VisitOne(now, conn);
        CheckedNext(cfg, old(objects), old(active), was, had, objects, active, todo, i, now);
        healthyCount, unhealthyCount := healthyCount + more, unhealthyCount + less;
      }
      assert todo[..|todo|] == todo;
    }

    /** One iteration of `healthCheck`. */
    method VisitOne(now: int, conn: ConnId) returns (healthy: nat, unhealthy: nat)
      requires Aligned() && Traced() && Quiet(model) && model.now == now && model.reaper.scan == {}
      requires model.health.todo != [] && model.health.todo[0] == conn && model.health.phase == Looking && conn in objects
      modifies this`objects, this`active, this`stats, this`model, this`steps
      ensures Aligned() && Traced() && old(steps) <= steps && SameClients(old(model))
      ensures model.health == Onward(old(model).health) && model.reaper == old(model).reaper
      ensures healthy + unhealthy == 1 && healthy == if IsHealthy(cfg, old(objects)[conn], now) then 1 else 0
      ensures objects == old(objects)[conn := old(objects)[conn].(healthy := IsHealthy(cfg, old(objects)[conn], now))]
      ensures active == if IsHealthy(cfg, old(objects)[conn], now) || old(objects)[conn].inUse
                        then old(active) else old(active) - {conn}
    {
      healthy, unhealthy := 0, 0;
      var ok := Mark(now, conn);
      if ok {
        healthy := 1;
      } else {
        unhealthy := 1;
        DestroyIfIdle(conn);
      }
    }

    /** Judge, and write the `Healthy` field. */
    method Mark(now: int, conn: ConnId) returns (ok: bool)
      requires Aligned() && Traced() && model.now == now
      requires model.health.todo != [] && model.health.todo[0] == conn && model.health.phase == Looking && conn in objects
      modifies this`objects, this`model, this`steps
      ensures Aligned() && Traced() && old(steps) <= steps && SameClients(old(model)) && model.reaper == old(model).reaper
      ensures ok == IsHealthy(cfg, old(objects)[conn], now)
      ensures objects == old(objects)[conn := old(objects)[conn].(healthy := ok)]
      ensures model.health == if ok then Onward(old(model).health) else Health(old(model).health.todo, Marked)
    {
      Record(HealthJudge);
      ok := IsConnectionHealthy(objects[conn], now);
      Record(HealthMark);
      objects := objects[conn := objects[conn].(healthy := ok)];
    }

    method DestroyIfIdle(conn: ConnId)
      requires Aligned() && Traced() && Quiet(model) && model.reaper.scan == {}
      requires model.health.todo != [] && model.health.todo[0] == conn && model.health.phase == Marked && conn in objects
      modifies this`active, this`stats, this`model, this`steps
      ensures Aligned() && Traced() && old(steps) <= steps && SameClients(old(model)) && model.reaper == old(model).reaper
      ensures model.health == Onward(old(model).health)
      ensures active == if objects[conn].inUse then old(active) else old(active) - {conn}
    {
      Record(HealthDecide);
      if !objects[conn].inUse {
        Record(HealthDestroy);
        DestroyConnection(conn);
      }
    }

    predicate IsConnectionHealthy(c: Conn, now: int)
      ensures IsConnectionHealthy(c, now) == IsHealthy(cfg, c, now)
      ensures IsConnectionHealthy(c, now) <==> now - c.createdAt <= 30 * 60 * 1_000_000_000 && now - c.lastUsed <= cfg.maxIdleTime
    {
      if now - c.createdAt > MAX_AGE then false
      else if now - c.lastUsed > cfg.maxIdleTime then false
      else true
    }

    method Cleanup(now: int)
      requires Valid() && model.now <= now
      modifies this`active, this`stats, this`model, this`steps
      ensures Valid() && old(steps) <= steps && model.now == now && model.stage == old(model).stage
      ensures active == set c | c in old(active) && !Idle(cfg, objects[c], now)
      ensures forall c :: c in active <==> c in old(active) && (objects[c].inUse || now - objects[c].lastUsed <= cfg.maxIdleTime)
    {
      Advance(now);
      Record(CleanupStart(0));
      var idle := CollectIdle(now);
      DestroyAll(idle);
      assert active == set c | c in old(active) && !Idle(cfg, objects[c], now);
    }

    /** The first loop of `cleanup`, in the order Go ranges over the map. */
    method CollectIdle(now: int) returns (idle: set<ConnId>)
      requires Aligned() && Traced() && Quiet(model) && model.health.todo == []
      requires model.reaper == Reaper(now, active, {})
      modifies this`model, this`steps
      ensures Aligned() && Traced() && old(steps) <= steps && SameClients(old(model)) && model.health == old(model).health
      ensures model.reaper == Reaper(now, {}, idle)
      ensures idle == set c | c in active && Idle(cfg, objects[c], now)
    {
      idle := {};
      var rest := active;
      while rest != {}
        invariant Aligned() && Traced() && old(steps) <= steps && SameClients(old(model)) && model.health == old(model).health
        invariant rest <= active && model.reaper == Reaper(now, rest, idle)
        invariant idle == set c | c in active && c !in rest && Idle(cfg, objects[c], now)
        decreases |rest|
      {
        var c :| c in rest;
        idle := LookAt(now, c, rest, idle);
        rest := rest - {c};
      }
    }

    method LookAt(now: int, c: ConnId, ghost rest: set<ConnId>, idle: set<ConnId>) returns (more: set<ConnId>)
      requires Aligned() && Traced() && Quiet(model) && c in rest && c in objects
      requires model.reaper == Reaper(now, rest, idle)
      modifies this`model, this`steps
      ensures Aligned() && Traced() && steps == old(steps) + [CleanupLook(c)]
      ensures model == old(model).(reaper := Reaper(now, rest - {c}, more))
      ensures more == if Idle(cfg, objects[c], now) then idle + {c} else idle
    {
      Record(CleanupLook(c));
      more := idle;
      if !objects[c].inUse && now - objects[c].lastUsed > cfg.maxIdleTime {
        more := idle + {c};
      }
    }

    method DestroyVictim(c: ConnId)
      requires Aligned() && Traced() && model.reaper.scan == {} && c in model.reaper.victims && c in objects
      modifies this`active, this`stats, this`model, this`steps
      ensures Aligned() && Traced() && steps == old(steps) + [CleanupDestroy(c)] && active == old(active) - {c}
      ensures SameClients(old(model)) && model.health == old(model).health
      ensures model.reaper == old(model).reaper.(victims := old(model).reaper.victims - {c})
    {
      Record(CleanupDestroy(c));
      DestroyConnection(c);
    }

    /** The second loop of `cleanup`. */
    method DestroyAll(victims: set<ConnId>)
      requires Aligned() && Traced() && Quiet(model) && model.health.todo == []
      requires model.reaper.scan == {} && model.reaper.victims == victims && victims <= active
      modifies this`active, this`stats, this`model, this`steps
      ensures Valid() && old(steps) <= steps && active == old(active) - victims && SameClients(old(model))
    {
      var rest := victims;
      while rest != {}
        invariant Aligned() && Traced() && SameClients(old(model)) && model.health.todo == []
        invariant model.reaper.scan == {} && model.reaper.victims == rest && old(steps) <= steps
        invariant rest <= victims && active == old(active) - (victims - rest)
        decreases |rest|
      {
        var c :| c in rest;
        DestroyVictim(c);
        rest := rest - {c};
      }
    }
  }
}
