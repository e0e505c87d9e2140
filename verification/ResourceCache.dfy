/** The TTL + LRU cache (internal/performance/resource_cache.go) against a plain map.

    `Get` drops its lock between finding an expired entry and deleting the key, so the two
    halves are separate steps and anything may happen in between. */
module ResourceCache {

  import opened Common

  type Key = string

  /** Cached payloads, known only up to equality. */
  type Value = int

  datatype Entry = Entry(value: Value, timestamp: int, ttl: int, accessCount: int, lastAccess: int)

  datatype Event =
    | Wrote(key: Key, value: Value, at: int, ttl: int)
    | Deleted(key: Key)
    | Invalidated(prefix: Key)
    | Cleared
    | Hit(key: Key, value: Value, at: int)
    | Missed(key: Key)

  datatype Stats = Stats(totalRequests: nat, hits: nat, misses: nat, evictions: nat)

  datatype Cache = Cache(
    entries: map<Key, Entry>,
    now: int,
    windows: multiset<Key>,     // Gets that saw an expired entry and have not deleted it yet
    stats: Stats,
    inserts: nat,               // writes that added a key
    removals: nat,              // entries removed by Delete, Invalidate or Clear
    lateDeletes: nat,           // window deletes that found the key already gone
    log: seq<Event>)

  function Empty(now: int): Cache {
    Cache(map[], now, multiset{}, Stats(0, 0, 0, 0), 0, 0, 0, [])
  }

  predicate Expired(e: Entry, now: int) {
    now - e.timestamp > e.ttl
  }

  predicate HasPrefix(key: Key, prefix: Key) {
    |key| >= |prefix| && key[..|prefix|] == prefix
  }

  /* ---------- Reference: a plain map with time stamps ---------- */

  datatype Stored = Stored(value: Value, at: int, ttl: int)

  function Reference(log: seq<Event>): map<Key, Stored> {
    if log == [] then map[] else After(Reference(log[..|log| - 1]), log[|log| - 1])
  }

  function After(m: map<Key, Stored>, e: Event): map<Key, Stored> {
    match e
    case Wrote(k, v, at, ttl) => m[k := Stored(v, at, ttl)]
    case Deleted(k) => m - {k}
    case Invalidated(p) => map k | k in m && !HasPrefix(k, p) :: m[k]
    case Cleared => map[]
    case Hit(_, _, _) => m
    case Missed(_) => m
  }

  /** A hit is right if it returns what the plain map holds, within its time to live. */
  ghost predicate HitIsRight(past: seq<Event>, e: Event) {
    e.Hit? ==>
      var m := Reference(past);
      e.key in m && m[e.key].value == e.value && e.at - m[e.key].at <= m[e.key].ttl
  }

  ghost predicate HitsAreRight(log: seq<Event>) {
    forall i | 0 <= i < |log| :: HitIsRight(log[..i], log[i])
  }

  /* ---------- LRU choice ---------- */

  /** `victims` are `count` entries (or all of them), none accessed after any survivor. */
  ghost predicate LeastRecent(entries: map<Key, Entry>, victims: set<Key>, count: int) {
    && victims <= entries.Keys
    && |victims| == Min(count, |entries|)
    && forall v <- victims, k <- entries | k !in victims :: entries[v].lastAccess <= entries[k].lastAccess
  }

  /* ---------- Steps ---------- */

  datatype Step =
    | Tick(elapsed: nat)
    | GetBegin(key: Key)            // up to the unlock, if the entry has expired
    | GetFinish(key: Key)           // relock, delete whatever is there, report a miss
    | Set(key: Key, value: Value, ttl: int, victims: set<Key>)
    | Delete(key: Key)
    | Clear
    | Invalidate(prefix: Key)
    | CleanupExpired

  ghost predicate Enabled(maxSize: int, s: Cache, step: Step) {
    match step
    case GetFinish(k) => k in s.windows
    case Set(_, _, _, victims) =>
      if |s.entries| >= maxSize && |s.entries| > 0 then LeastRecent(s.entries, victims, 1) else victims == {}
    case _ => true
  }

  function Next(s: Cache, step: Step): Cache {
    match step
    case Tick(elapsed) => s.(now := s.now + elapsed)
    case GetBegin(k) =>
      var st := s.stats.(totalRequests := s.stats.totalRequests + 1);
      if k !in s.entries then
        s.(stats := st.(misses := st.misses + 1), log := s.log + [Missed(k)])
      else if Expired(s.entries[k], s.now) then
        s.(stats := st, windows := s.windows + multiset{k})
      else
        var e := s.entries[k];
        s.(stats := st.(hits := st.hits + 1),
           entries := s.entries[k := e.(accessCount := e.accessCount + 1, lastAccess := s.now)],
           log := s.log + [Hit(k, e.value, s.now)])
    case GetFinish(k) =>
      s.(windows := s.windows - multiset{k},
         entries := s.entries - {k},
         stats := s.stats.(evictions := s.stats.evictions + 1, misses := s.stats.misses + 1),
         lateDeletes := s.lateDeletes + if k in s.entries then 0 else 1,
         log := s.log + [Missed(k)])
    case Set(k, v, ttl, victims) =>
      var rest := s.entries - victims;
      s.(entries := rest[k := Entry(v, s.now, ttl, 1, s.now)],
         stats := s.stats.(evictions := s.stats.evictions + |victims|),
         inserts := s.inserts + if k in rest then 0 else 1,
         log := s.log + [Wrote(k, v, s.now, ttl)])
    case Delete(k) =>
      s.(entries := s.entries - {k},
         removals := s.removals + if k in s.entries then 1 else 0,
         log := s.log + [Deleted(k)])
    case Clear =>
      s.(entries := map[], removals := s.removals + |s.entries|, log := s.log + [Cleared])
    case Invalidate(p) =>
      s.(entries := s.entries - Matching(s.entries, p),
         removals := s.removals + |Matching(s.entries, p)|,
         log := s.log + [Invalidated(p)])
    case CleanupExpired =>
      s.(entries := s.entries - ExpiredKeys(s.entries, s.now),
         stats := s.stats.(evictions := s.stats.evictions + |ExpiredKeys(s.entries, s.now)|))
  }

  function Matching(entries: map<Key, Entry>, prefix: Key): set<Key> {
    set k | k in entries && HasPrefix(k, prefix)
  }

  function ExpiredKeys(entries: map<Key, Entry>, now: int): set<Key> {
    set k | k in entries && Expired(entries[k], now)
  }

  ghost function Run(maxSize: int, s: Cache, steps: seq<Step>): (r: Option<Cache>)
    decreases |steps|
  {
    if steps == [] then Some(s)
    else if Enabled(maxSize, s, steps[0]) then Run(maxSize, Next(s, steps[0]), steps[1..])
    else None
  }

  lemma {:induction false} RunSnoc(maxSize: int, s: Cache, steps: seq<Step>, step: Step)
    requires Run(maxSize, s, steps).Some? && Enabled(maxSize, Run(maxSize, s, steps).value, step)
    ensures Run(maxSize, s, steps + [step]) == Some(Next(Run(maxSize, s, steps).value, step))
    decreases |steps|
  {
    if steps == [] {
      assert (steps + [step])[1..] == [];
    } else {
      assert (steps + [step])[0] == steps[0] && (steps + [step])[1..] == steps[1..] + [step];
      RunSnoc(maxSize, Next(s, steps[0]), steps[1..], step);
    }
  }

  /* ---------- Invariants ---------- */

  /** Every entry is what the plain map holds for its key. */
  predicate Agrees(entries: map<Key, Entry>, m: map<Key, Stored>) {
    forall k <- entries :: k in m && m[k] == Stored(entries[k].value, entries[k].timestamp, entries[k].ttl)
  }

  ghost predicate Refines(s: Cache) {
    HitsAreRight(s.log) && Agrees(s.entries, Reference(s.log))
  }

  ghost predicate Balanced(maxSize: int, s: Cache) {
    && s.stats.hits + s.stats.misses + |s.windows| == s.stats.totalRequests
    && s.inserts + s.lateDeletes == |s.entries| + s.stats.evictions + s.removals
    && |s.entries| <= if maxSize < 1 then 1 else maxSize
  }

  lemma LogOneMore(log: seq<Event>, e: Event)
    requires HitsAreRight(log) && HitIsRight(log, e)
    ensures HitsAreRight(log + [e])
  {
    var longer := log + [e];
    forall i | 0 <= i < |longer| ensures HitIsRight(longer[..i], longer[i]) {
      assert longer[..i] == log[..i];
      assert i == |log| ==> log[..i] == log;
    }
  }

  /** Logging one event moves the plain map by that event. */
  lemma RefinesOneMore(s: Cache, t: Cache, e: Event)
    requires Refines(s) && t.log == s.log + [e]
    requires HitIsRight(s.log, e) && Agrees(t.entries, After(Reference(s.log), e))
    ensures Refines(t) && Reference(t.log) == After(Reference(s.log), e)
  {
    LogOneMore(s.log, e);
    assert t.log[..|t.log| - 1] == s.log;
  }

  lemma StepRefines(maxSize: int, s: Cache, step: Step)
    requires Refines(s) && Enabled(maxSize, s, step)
    ensures Refines(Next(s, step))
  {
    match step
    case Tick(_) =>
    case GetBegin(k) => GetRefines(s, k);
    case GetFinish(k) => GetFinishRefines(s, k);
    case Set(k, v, ttl, victims) => SetRefines(s, k, v, ttl, victims);
    case Delete(k) => DeleteRefines(s, k);
    case Clear => RefinesOneMore(s, Next(s, step), Cleared);
    case Invalidate(p) => InvalidateRefines(s, p);
    case CleanupExpired =>
  }

  lemma GetFinishRefines(s: Cache, k: Key)
    requires Refines(s)
    ensures Refines(Next(s, GetFinish(k)))
  {
    RefinesOneMore(s, Next(s, GetFinish(k)), Missed(k));
  }

  lemma DeleteRefines(s: Cache, k: Key)
    requires Refines(s)
    ensures Refines(Next(s, Delete(k)))
  {
    RefinesOneMore(s, Next(s, Delete(k)), Deleted(k));
  }

  lemma GetRefines(s: Cache, k: Key)
    requires Refines(s)
    ensures Refines(Next(s, GetBegin(k)))
  {
    var t := Next(s, GetBegin(k));
    if k !in s.entries {
      RefinesOneMore(s, t, Missed(k));
    } else if !Expired(s.entries[k], s.now) {
      RefinesOneMore(s, t, Hit(k, s.entries[k].value, s.now));
    }
  }

  lemma SetRefines(s: Cache, k: Key, v: Value, ttl: int, victims: set<Key>)
    requires Refines(s)
    ensures Refines(Next(s, Set(k, v, ttl, victims)))
  {
    RefinesOneMore(s, Next(s, Set(k, v, ttl, victims)), Wrote(k, v, s.now, ttl));
  }

  lemma InvalidateRefines(s: Cache, p: Key)
    requires Refines(s)
    ensures Refines(Next(s, Invalidate(p)))
  {
    RefinesOneMore(s, Next(s, Invalidate(p)), Invalidated(p));
  }

  lemma RemovalSize(entries: map<Key, Entry>, gone: set<Key>)
    ensures |entries - gone| == |entries| - |gone * entries.Keys|
  {
    assert (entries - gone).Keys == entries.Keys - gone * entries.Keys;
  }

  lemma UpdateSize(entries: map<Key, Entry>, k: Key, e: Entry)
    ensures |entries[k := e]| == |entries| + if k in entries then 0 else 1
  {
    assert entries[k := e].Keys == entries.Keys + {k};
  }

  lemma StepBalances(maxSize: int, s: Cache, step: Step)
    requires Balanced(maxSize, s) && Enabled(maxSize, s, step)
    ensures Balanced(maxSize, Next(s, step))
  {
    match step
    case Tick(_) =>
    case GetBegin(k) => GetBalances(maxSize, s, k);
    case GetFinish(k) => FinishBalances(maxSize, s, k);
    case Set(k, v, ttl, victims) => SetBalances(maxSize, s, k, v, ttl, victims);
    case Delete(k) => DeleteBalances(maxSize, s, k);
    case Clear => ClearBalances(maxSize, s);
    case Invalidate(p) => InvalidateBalances(maxSize, s, p);
    case CleanupExpired => CleanupBalances(maxSize, s);
  }

  lemma GetBalances(maxSize: int, s: Cache, k: Key)
    requires Balanced(maxSize, s)
    ensures Balanced(maxSize, Next(s, GetBegin(k)))
  {
    if k in s.entries && !Expired(s.entries[k], s.now) {
      UpdateSize(s.entries, k, s.entries[k].(accessCount := s.entries[k].accessCount + 1, lastAccess := s.now));
    } else {
      assert |s.windows + multiset{k}| == |s.windows| + 1;
    }
  }

  lemma DeleteBalances(maxSize: int, s: Cache, k: Key)
    requires Balanced(maxSize, s)
    ensures Balanced(maxSize, Next(s, Delete(k)))
  {
    RemovalSize(s.entries, {k});
    assert {k} * s.entries.Keys == if k in s.entries then {k} else {};
  }

  lemma ClearBalances(maxSize: int, s: Cache)
    requires Balanced(maxSize, s)
    ensures Balanced(maxSize, Next(s, Clear))
  {
  }

  lemma InvalidateBalances(maxSize: int, s: Cache, p: Key)
    requires Balanced(maxSize, s)
    ensures Balanced(maxSize, Next(s, Invalidate(p)))
  {
    RemovalSize(s.entries, Matching(s.entries, p));
    assert Matching(s.entries, p) * s.entries.Keys == Matching(s.entries, p);
  }

  lemma CleanupBalances(maxSize: int, s: Cache)
    requires Balanced(maxSize, s)
    ensures Balanced(maxSize, Next(s, CleanupExpired))
  {
    RemovalSize(s.entries, ExpiredKeys(s.entries, s.now));
    assert ExpiredKeys(s.entries, s.now) * s.entries.Keys == ExpiredKeys(s.entries, s.now);
  }

  lemma FinishBalances(maxSize: int, s: Cache, k: Key)
    requires Balanced(maxSize, s) && k in s.windows
    ensures Balanced(maxSize, Next(s, GetFinish(k)))
  {
    RemovalSize(s.entries, {k});
    assert {k} * s.entries.Keys == if k in s.entries then {k} else {};
    assert |s.windows - multiset{k}| == |s.windows| - 1;
  }

  lemma SetBalances(maxSize: int, s: Cache, k: Key, v: Value, ttl: int, victims: set<Key>)
    requires Balanced(maxSize, s) && Enabled(maxSize, s, Set(k, v, ttl, victims))
    ensures Balanced(maxSize, Next(s, Set(k, v, ttl, victims)))
  {
    RemovalSize(s.entries, victims);
    assert victims * s.entries.Keys == victims;
    UpdateSize(s.entries - victims, k, Entry(v, s.now, ttl, 1, s.now));
  }

  lemma {:induction false} RunKeepsAll(maxSize: int, s: Cache, steps: seq<Step>)
    requires Refines(s) && Balanced(maxSize, s) && Run(maxSize, s, steps).Some?
    ensures Refines(Run(maxSize, s, steps).value) && Balanced(maxSize, Run(maxSize, s, steps).value)
    decreases |steps|
  {
    if steps != [] {
      StepRefines(maxSize, s, steps[0]);
      StepBalances(maxSize, s, steps[0]);
      RunKeepsAll(maxSize, Next(s, steps[0]), steps[1..]);
    }
  }

  /** Over every interleaving, open windows included: every hit returns the value most recently
      set, not since deleted, invalidated or cleared, and no older than its time to live. */
  lemma HitsAgreeWithPlainMap(maxSize: int, start: int, steps: seq<Step>)
    requires Run(maxSize, Empty(start), steps).Some?
    ensures HitsAreRight(Run(maxSize, Empty(start), steps).value.log)
  {
    RunKeepsAll(maxSize, Empty(start), steps);
  }

  /** Every request is a hit, a miss or inside a window; every insertion is still present, was
      evicted or was removed; and the cache never outgrows its bound. */
  lemma CountsBalance(maxSize: int, start: int, steps: seq<Step>)
    requires Run(maxSize, Empty(start), steps).Some?
    ensures var s := Run(maxSize, Empty(start), steps).value;
      && s.stats.hits + s.stats.misses + |s.windows| == s.stats.totalRequests
      && s.inserts + s.lateDeletes == |s.entries| + s.stats.evictions + s.removals
      && (maxSize >= 1 ==> |s.entries| <= maxSize)
  {
    RunKeepsAll(maxSize, Empty(start), steps);
  }

  /* ---------- Exactness ---------- */

  /** Keys whose latest value the cache has thrown away: evicted by a write to another key, or deleted by
      the late half of a `Get`. */
  function LostAfter(s: Cache, lost: set<Key>, step: Step): set<Key> {
    match step
    case Set(k, _, _, victims) => lost + victims - {k}
    case GetFinish(k) => if k in s.entries then lost + {k} else lost
    case _ => lost
  }

  ghost function Lost(maxSize: int, s: Cache, lost: set<Key>, steps: seq<Step>): set<Key>
    requires Run(maxSize, s, steps).Some?
    decreases |steps|
  {
    if steps == [] then lost else Lost(maxSize, Next(s, steps[0]), LostAfter(s, lost, steps[0]), steps[1..])
  }

  predicate Live(m: map<Key, Stored>, k: Key, now: int) {
    k in m && now - m[k].at <= m[k].ttl
  }

  /** Everything live in the plain map is in the cache or lost, and nothing lost is in the cache. */
  predicate Covers(entries: map<Key, Entry>, m: map<Key, Stored>, lost: set<Key>, now: int) {
    (forall k <- m :: Live(m, k, now) ==> k in entries || k in lost) && (forall k <- lost :: k !in entries)
  }

  ghost predicate Complete(s: Cache, lost: set<Key>) {
    Covers(s.entries, Reference(s.log), lost, s.now)
  }

  lemma CompleteOneMore(s: Cache, t: Cache, lost: set<Key>, e: Event)
    requires t.log == s.log + [e] && Covers(t.entries, After(Reference(s.log), e), lost, t.now)
    ensures Complete(t, lost)
  {
    assert t.log[..|t.log| - 1] == s.log;
  }

  lemma GetComplete(s: Cache, lost: set<Key>, k: Key)
    requires Complete(s, lost)
    ensures Complete(Next(s, GetBegin(k)), lost)
  {
    var t := Next(s, GetBegin(k));
    if k !in s.entries {
      CompleteOneMore(s, t, lost, Missed(k));
    } else if !Expired(s.entries[k], s.now) {
      CompleteOneMore(s, t, lost, Hit(k, s.entries[k].value, s.now));
    }
  }

  lemma GetFinishComplete(s: Cache, lost: set<Key>, k: Key)
    requires Complete(s, lost)
    ensures Complete(Next(s, GetFinish(k)), LostAfter(s, lost, GetFinish(k)))
  {
    CompleteOneMore(s, Next(s, GetFinish(k)), LostAfter(s, lost, GetFinish(k)), Missed(k));
  }

  lemma SetComplete(s: Cache, lost: set<Key>, step: Step)
    requires step.Set? && Complete(s, lost)
    ensures Complete(Next(s, step), LostAfter(s, lost, step))
  {
    CompleteOneMore(s, Next(s, step), LostAfter(s, lost, step), Wrote(step.key, step.value, s.now, step.ttl));
  }

  lemma RemoveComplete(s: Cache, lost: set<Key>, step: Step)
    requires step.Delete? || step.Clear? || step.Invalidate?
    requires Complete(s, lost)
    ensures Complete(Next(s, step), lost)
  {
    var t := Next(s, step);
    match step
    case Delete(k) => CompleteOneMore(s, t, lost, Deleted(k));
    case Clear => CompleteOneMore(s, t, lost, Cleared);
    case Invalidate(p) => CompleteOneMore(s, t, lost, Invalidated(p));
  }

  lemma StepComplete(s: Cache, lost: set<Key>, step: Step)
    requires Refines(s) && Complete(s, lost)
    ensures Complete(Next(s, step), LostAfter(s, lost, step))
  {
    match step
    case Tick(_) =>
    case GetBegin(k) => GetComplete(s, lost, k);
    case GetFinish(k) => GetFinishComplete(s, lost, k);
    case Set(_, _, _, _) => SetComplete(s, lost, step);
    case Delete(_) => RemoveComplete(s, lost, step);
    case Clear => RemoveComplete(s, lost, step);
    case Invalidate(_) => RemoveComplete(s, lost, step);
    case CleanupExpired =>
  }

  lemma {:induction false} RunComplete(maxSize: int, s: Cache, lost: set<Key>, steps: seq<Step>)
    requires Refines(s) && Complete(s, lost) && Run(maxSize, s, steps).Some?
    ensures Refines(Run(maxSize, s, steps).value)
    ensures Complete(Run(maxSize, s, steps).value, Lost(maxSize, s, lost, steps))
    decreases |steps|
  {
    if steps != [] {
      StepRefines(maxSize, s, steps[0]);
      StepComplete(s, lost, steps[0]);
      RunComplete(maxSize, Next(s, steps[0]), LostAfter(s, lost, steps[0]), steps[1..]);
    }
  }

  /** After every run, open windows and evictions included, `Get` hits if and only if the plain map holds
      the key within its time to live and its value has not been lost. */
  lemma GetIsExact(maxSize: int, start: int, steps: seq<Step>, key: Key)
    requires Run(maxSize, Empty(start), steps).Some?
    ensures var s := Run(maxSize, Empty(start), steps).value;
      (exists v :: Next(s, GetBegin(key)).log == s.log + [Hit(key, v, s.now)])
      <==> Live(Reference(s.log), key, s.now) && key !in Lost(maxSize, Empty(start), {}, steps)
  {
    RunComplete(maxSize, Empty(start), {}, steps);
    var s := Run(maxSize, Empty(start), steps).value;
    var t := Next(s, GetBegin(key));
    if key in s.entries && !Expired(s.entries[key], s.now) {
      assert t.log == s.log + [Hit(key, s.entries[key].value, s.now)];
    } else {
      forall v ensures t.log != s.log + [Hit(key, v, s.now)] {
        assert (s.log + [Hit(key, v, s.now)])[|s.log|] == Hit(key, v, s.now);
      }
    }
  }

  /** The late half of a `Get` that found an expired entry deletes whatever is there by then: a value just
      written, well within its time to live, is gone. */
  lemma LateDeleteLosesLiveValue(maxSize: int, start: int, key: Key, value: Value, ttl: nat) returns (steps: seq<Step>)
    ensures Run(maxSize, Empty(start), steps).Some?
    ensures var s := Run(maxSize, Empty(start), steps).value;
      Live(Reference(s.log), key, s.now) && Reference(s.log)[key].value == value && key !in s.entries
  {
    var s0 := Empty(start);
    var first := Set(key, value, 0, {});
    var s1 := Next(s0, first);
    RunSnoc(maxSize, s0, [], first);
    RunSnoc(maxSize, s0, [] + [first], Tick(1));
    RunSnoc(maxSize, s0, [] + [first] + [Tick(1)], GetBegin(key));
    steps := [] + [first] + [Tick(1)] + [GetBegin(key)];
    steps := OverwriteInWindow(maxSize, start, steps, key, value, ttl);
  }

  lemma OverwriteInWindow(maxSize: int, start: int, before: seq<Step>, key: Key, value: Value, ttl: nat)
      returns (steps: seq<Step>)
    requires Run(maxSize, Empty(start), before).Some?
    requires var s := Run(maxSize, Empty(start), before).value; key in s.windows && s.entries.Keys == {key}
    ensures Run(maxSize, Empty(start), steps).Some?
    ensures var s := Run(maxSize, Empty(start), steps).value;
      Live(Reference(s.log), key, s.now) && Reference(s.log)[key].value == value && key !in s.entries
  {
    var s := Run(maxSize, Empty(start), before).value;
    var write := Set(key, value, ttl, if 1 >= maxSize then {key} else {});
    OverwriteEnabled(maxSize, s, key, value, ttl);
    RunSnoc(maxSize, Empty(start), before, write);
    RunSnoc(maxSize, Empty(start), before + [write], GetFinish(key));
    steps := before + [write] + [GetFinish(key)];
    WrittenThenDeleted(s, write);
  }

  lemma OverwriteEnabled(maxSize: int, s: Cache, key: Key, value: Value, ttl: nat)
    requires s.entries.Keys == {key}
    ensures Enabled(maxSize, s, Set(key, value, ttl, if 1 >= maxSize then {key} else {}))
  {
    assert |s.entries| == |s.entries.Keys| == 1;
  }

  lemma WrittenThenDeleted(s: Cache, write: Step)
    requires write.Set? && write.ttl >= 0
    ensures var u := Next(Next(s, write), GetFinish(write.key));
      Live(Reference(u.log), write.key, u.now) && Reference(u.log)[write.key].value == write.value && write.key !in u.entries
  {
    var t := Next(s, write);
    var u := Next(t, GetFinish(write.key));
    assert u.log[..|u.log| - 1] == t.log && t.log[..|t.log| - 1] == s.log;
  }

  /* ---------- GetOrSet ---------- */

  /** All writes so far stored what `compute` gives for their key. */
  ghost predicate WritesComputed(log: seq<Event>, compute: Key -> Option<Value>) {
    forall e <- log | e.Wrote? :: compute(e.key) == Some(e.value)
  }

  lemma {:induction false} ReferenceComputed(log: seq<Event>, compute: Key -> Option<Value>)
    requires WritesComputed(log, compute)
    ensures forall k <- Reference(log) :: compute(k) == Some(Reference(log)[k].value)
    decreases |log|
  {
    if log != [] {
      var front := log[..|log| - 1];
      assert WritesComputed(front, compute);
      ReferenceComputed(front, compute);
      assert log[|log| - 1] in log;
    }
  }

  /** If every write goes through `GetOrSet` over a deterministic function, then under every
      interleaving each hit returns that function's value: caching is unobservable. */
  lemma GetOrSetIsTransparent(maxSize: int, start: int, steps: seq<Step>, compute: Key -> Option<Value>)
    requires Run(maxSize, Empty(start), steps).Some?
    requires WritesComputed(Run(maxSize, Empty(start), steps).value.log, compute)
    ensures forall e <- Run(maxSize, Empty(start), steps).value.log | e.Hit? :: compute(e.key) == Some(e.value)
  {
    var log := Run(maxSize, Empty(start), steps).value.log;
    HitsAgreeWithPlainMap(maxSize, start, steps);
    forall e <- log | e.Hit? ensures compute(e.key) == Some(e.value) {
      var i :| 0 <= i < |log| && log[i] == e;
      assert HitIsRight(log[..i], log[i]);
      assert WritesComputed(log[..i], compute);
      ReferenceComputed(log[..i], compute);
    }
  }
}
