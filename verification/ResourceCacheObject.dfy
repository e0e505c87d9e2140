/** The cache's operations as the Go code runs them, each between its callers' steps, shown to
    be runs of `ResourceCache`, with the eviction sort it uses. */
module ResourceCacheObject {
  import opened Common
  import opened ResourceCache

  /* ---------- selectEntriesForEviction ---------- */

  datatype EntryInfo = EntryInfo(key: Key, lastAccess: int)

  ghost predicate SortedByAccess(s: seq<EntryInfo>) {
    forall i, j | 0 <= i < j < |s| :: s[i].lastAccess <= s[j].lastAccess
  }

  /** A swap of two array slots, seen as a sequence. */
  function Swapped(s: seq<EntryInfo>, i: nat, j: nat): seq<EntryInfo>
    requires i < |s| && j < |s|
  {
    s[i := s[j]][j := s[i]]
  }

  lemma SwapPermutes(s: seq<EntryInfo>, i: nat, j: nat)
    requires i < j < |s|
    ensures multiset(Swapped(s, i, j)) == multiset(s)
  {
    assert s == s[..i] + [s[i]] + s[i + 1..j] + [s[j]] + s[j + 1..];
    assert Swapped(s, i, j) == s[..i] + [s[j]] + s[i + 1..j] + [s[i]] + s[j + 1..];
  }

  /** After `i` rounds the first `i` slots hold the `i` least recent entries in order. */
  ghost predicate Round(s: seq<EntryInfo>, i: nat) {
    i <= |s| && forall p, q | 0 <= p < i && p < q < |s| :: s[p].lastAccess <= s[q].lastAccess
  }

  /** The nested loops that exchange any out-of-order pair, oldest first. */
  method ExchangeSort(entries: array<EntryInfo>)
    modifies entries
    ensures SortedByAccess(entries[..])
    ensures multiset(entries[..]) == multiset(old(entries[..]))
  {
    var i := 0;
    while i < entries.Length - 1
      invariant 0 <= i <= entries.Length && Round(entries[..], i)
      invariant multiset(entries[..]) == multiset(old(entries[..]))
    {
      var j := i + 1;
      while j < entries.Length
        invariant i < j <= entries.Length && Round(entries[..], i)
        invariant forall q | i < q < j :: entries[i].lastAccess <= entries[q].lastAccess
        invariant multiset(entries[..]) == multiset(old(entries[..]))
      {
        ExchangeIfNewer(entries, i, j);
        j := j + 1;
      }
      i := i + 1;
    }
  }

  method ExchangeIfNewer(entries: array<EntryInfo>, i: nat, j: nat)
    requires i < j < entries.Length
    modifies entries
    ensures entries[..] == if old(entries[i]).lastAccess > old(entries[j]).lastAccess
                           then Swapped(old(entries[..]), i, j) else old(entries[..])
    ensures multiset(entries[..]) == multiset(old(entries[..]))
  {
    if entries[i].lastAccess > entries[j].lastAccess {
      SwapPermutes(entries[..], i, j);
      entries[i], entries[j] := entries[j], entries[i];
      assert entries[..] == Swapped(old(entries[..]), i, j);
    }
  }

  ghost predicate Lists(infos: seq<EntryInfo>, entries: map<Key, Entry>) {
    && |infos| == |entries|
    && (forall e <- infos :: e.key in entries && e.lastAccess == entries[e.key].lastAccess)
    && (forall i, j | 0 <= i < j < |infos| :: infos[i].key != infos[j].key)
    && (forall k <- entries :: EntryInfo(k, entries[k].lastAccess) in infos)
  }

  /** One record per entry, in the order Go ranges over the map. */
  method Collect(entries: map<Key, Entry>) returns (infos: array<EntryInfo>)
    ensures fresh(infos) && Lists(infos[..], entries)
  {
    var s: seq<EntryInfo> := [];
    var todo := entries.Keys;
    while todo != {}
      invariant todo <= entries.Keys && |s| == |entries| - |todo|
      invariant forall e <- s :: e.key in entries && e.key !in todo && e.lastAccess == entries[e.key].lastAccess
      invariant forall i, j | 0 <= i < j < |s| :: s[i].key != s[j].key
      invariant forall k <- entries | k !in todo :: EntryInfo(k, entries[k].lastAccess) in s
      decreases |todo|
    {
      var k :| k in todo;
      s := s + [EntryInfo(k, entries[k].lastAccess)];
      todo := todo - {k};
    }
    infos := new EntryInfo[|s|](i requires 0 <= i < |s| => s[i]);
    assert infos[..] == s;
  }

  /** A permutation of a listing is a listing. */
  lemma PermutedListing(a: seq<EntryInfo>, b: seq<EntryInfo>, entries: map<Key, Entry>)
    requires Lists(a, entries) && multiset(a) == multiset(b)
    ensures Lists(b, entries)
  {
    assert |a| == |multiset(a)| == |b|;
    forall e | e in b ensures e in a {
      assert e in multiset(b);
    }
    forall k <- entries ensures EntryInfo(k, entries[k].lastAccess) in b {
      assert EntryInfo(k, entries[k].lastAccess) in multiset(a);
    }
    forall i, j | 0 <= i < j < |b| ensures b[i].key != b[j].key {
      if b[i].key == b[j].key {
        assert b[i] in a && b[j] in a;
        assert b[i] == b[j];
        TwiceInSequence(b, i, j);
        OnceInSequence(a, b[i]);
      }
    }
  }

  lemma TwiceInSequence(s: seq<EntryInfo>, i: nat, j: nat)
    requires i < j < |s| && s[i] == s[j]
    ensures multiset(s)[s[i]] >= 2
  {
    assert s == s[..i] + [s[i]] + s[i + 1..j] + [s[j]] + s[j + 1..];
  }

  lemma {:induction false} OnceInSequence(s: seq<EntryInfo>, e: EntryInfo)
    requires forall i, j | 0 <= i < j < |s| :: s[i].key != s[j].key
    ensures multiset(s)[e] <= 1
  {
    if s != [] {
      assert s == [s[0]] + s[1..];
      OnceInSequence(s[1..], e);
      if s[0] == e {
        assert e !in s[1..];
      }
    }
  }

  /** The first slots of a sorted listing are least recently used. */
  lemma PrefixIsLeastRecent(infos: seq<EntryInfo>, entries: map<Key, Entry>, count: nat)
    requires Lists(infos, entries) && SortedByAccess(infos) && count <= |infos|
    ensures LeastRecent(entries, set i | 0 <= i < count :: infos[i].key, count)
  {
    var victims := set i | 0 <= i < count :: infos[i].key;
    PrefixCount(infos, count);
    forall v <- victims ensures v in entries {
      var i :| 0 <= i < count && infos[i].key == v;
      assert infos[i] in infos;
    }
    forall v <- victims, k <- entries | k !in victims
      ensures entries[v].lastAccess <= entries[k].lastAccess
    {
      var i :| 0 <= i < count && infos[i].key == v;
      SurvivorIsLater(infos, entries, count, i, k);
    }
  }

  lemma SurvivorIsLater(infos: seq<EntryInfo>, entries: map<Key, Entry>, count: nat, i: nat, k: Key)
    requires Lists(infos, entries) && SortedByAccess(infos) && i < count <= |infos|
    requires k in entries && forall j | 0 <= j < count :: infos[j].key != k
    ensures infos[i].key in entries && entries[infos[i].key].lastAccess <= entries[k].lastAccess
  {
    assert infos[i] in infos;
    var j :| 0 <= j < |infos| && infos[j] == EntryInfo(k, entries[k].lastAccess);
    assert j >= count;
  }

  lemma {:induction false} PrefixCount(infos: seq<EntryInfo>, count: nat)
    requires count <= |infos| && forall i, j | 0 <= i < j < |infos| :: infos[i].key != infos[j].key
    ensures |set i | 0 <= i < count :: infos[i].key| == count
  {
    if count > 0 {
      PrefixCount(infos, count - 1);
      var before := set i | 0 <= i < count - 1 :: infos[i].key;
      assert (set i | 0 <= i < count :: infos[i].key) == before + {infos[count - 1].key};
      assert infos[count - 1].key !in before;
    }
  }

  lemma KeysAreLeastRecent(infos: seq<EntryInfo>, entries: map<Key, Entry>, keys: seq<Key>, count: nat)
    requires Lists(infos, entries) && SortedByAccess(infos)
    requires |keys| == Min(count, |infos|) && forall i | 0 <= i < |keys| :: keys[i] == infos[i].key
    ensures forall i, j | 0 <= i < j < |keys| :: keys[i] != keys[j]
    ensures LeastRecent(entries, (set k | k in keys), count)
  {
    PrefixIsLeastRecent(infos, entries, |keys|);
    assert (set k | k in keys) == set i | 0 <= i < |keys| :: infos[i].key;
  }

  /** Distinct, present, and no more recently accessed than any entry that stays. */
  method SelectEntriesForEviction(entries: map<Key, Entry>, count: int) returns (keys: seq<Key>)
    ensures forall i, j | 0 <= i < j < |keys| :: keys[i] != keys[j]
    ensures LeastRecent(entries, (set k | k in keys), if count < 0 then 0 else count)
  {
    keys := [];
    if count <= 0 || |entries| == 0 {
      return;
    }
    var infos := Collect(entries);
    ghost var listed := infos[..];
    ExchangeSort(infos);
    PermutedListing(listed, infos[..], entries);
    ghost var sorted := infos[..];
    var evictCount := if count > infos.Length then infos.Length else count;
    for i := 0 to evictCount
      invariant infos[..] == sorted && |keys| == i
      invariant forall j | 0 <= j < i :: keys[j] == sorted[j].key
    {
      keys := keys + [infos[i].key];
    }
    KeysAreLeastRecent(sorted, entries, keys, count);
  }

  /* ---------- The object ---------- */

  /** Every entry holds the computed value of its key. */
  ghost predicate Computed(entries: map<Key, Entry>, compute: Key -> Option<Value>) {
    forall k <- entries :: compute(k) == Some(entries[k].value)
  }

  lemma KeysAfter(entries: map<Key, Entry>, gone: set<Key>, key: Key, e: Entry)
    ensures (entries - gone)[key := e].Keys == entries.Keys - gone + {key}
    ensures forall k <- (entries - gone)[key := e] | k != key :: k in entries && (entries - gone)[key := e][k] == entries[k]
  {
  }

  lemma ExpiredGo(entries: map<Key, Entry>, now: int)
    ensures entries - ExpiredKeys(entries, now) == map k | k in entries && now - entries[k].timestamp <= entries[k].ttl :: entries[k]
    ensures |entries - ExpiredKeys(entries, now)| == |entries| - |ExpiredKeys(entries, now)|
  {
    RemovalSize(entries, ExpiredKeys(entries, now));
    assert ExpiredKeys(entries, now) * entries.Keys == ExpiredKeys(entries, now);
  }

  lemma MatchingGo(entries: map<Key, Entry>, prefix: Key)
    ensures entries - Matching(entries, prefix) == map k | k in entries && !(prefix <= k) :: entries[k]
    ensures |entries - Matching(entries, prefix)| == |entries| - |Matching(entries, prefix)|
  {
    RemovalSize(entries, Matching(entries, prefix));
    assert Matching(entries, prefix) * entries.Keys == Matching(entries, prefix);
  }

  class CacheObject {
    const maxSize: int
    const defaultTTL: int
    var cache: map<Key, Entry>
    var totalRequests: nat
    var hits: nat
    var misses: nat
    var evictions: nat
    ghost const start: int
    ghost var model: Cache
    ghost var steps: seq<Step>

    ghost predicate Traced()
      reads this
    {
      Run(maxSize, Empty(start), steps) == Some(model)
    }

    /** The fields are the model's, and no `Get` is inside its window. */
    ghost predicate Valid()
      reads this
    {
      && model.entries == cache && model.stats == Stats(totalRequests, hits, misses, evictions)
      && model.windows == multiset{} && model.lateDeletes == 0
      && Traced()
    }

    constructor (maxSize: int, defaultTTL: int, now: int)
      ensures Valid() && model == Empty(now) && this.maxSize == maxSize && this.defaultTTL == defaultTTL
    {
      this.maxSize, this.defaultTTL := maxSize, defaultTTL;
      cache, totalRequests, hits, misses, evictions := map[], 0, 0, 0, 0;
      model, steps, start := Empty(now), [], now;
    }

    ghost method Record(step: Step)
      requires Traced() && Enabled(maxSize, model, step)
      modifies this`model, this`steps
      ensures Traced() && model == Next(old(model), step) && steps == old(steps) + [step]
    {
      RunSnoc(maxSize, Empty(start), steps, step);
      model, steps := Next(model, step), steps + [step];
    }

    ghost method Advance(now: int)
      requires Valid() && model.now <= now
      modifies this`model, this`steps
      ensures Valid() && old(steps) <= steps && model == old(model).(now := now)
    {
      Record(Tick(now - model.now));
    }

    method Get(now: int, key: Key) returns (found: Option<Value>)
      requires Valid() && model.now <= now
      modifies this
      ensures Valid() && old(steps) <= steps && model.now == now
      ensures found == if key in old(cache) && now - old(cache)[key].timestamp <= old(cache)[key].ttl
                       then Some(old(cache)[key].value) else None
      ensures found.None? ==> cache == old(cache) - {key}
      ensures found.Some? ==> cache == old(cache)[key := old(cache)[key].(
        accessCount := old(cache)[key].accessCount + 1, lastAccess := now)]
      ensures totalRequests == old(totalRequests) + 1 && hits == old(hits) + if found.Some? then 1 else 0
      ensures model.log == old(model).log + [if found.Some? then Hit(key, found.value, now) else Missed(key)]
    {
      Advance(now);
      totalRequests := totalRequests + 1;
      if key !in cache {
        Miss(key);
        return None;
      }
      if now - cache[key].timestamp > cache[key].ttl {
        Expire(key);
        return None;
      }
      var value := Touch(now, key);
      return Some(value);
    }

    /** The fields are the model's, up to the request just counted. */
    ghost predicate Counting()
      reads this
    {
      && model.entries == cache && totalRequests == model.stats.totalRequests + 1
      && model.stats == Stats(model.stats.totalRequests, hits, misses, evictions)
      && model.windows == multiset{} && model.lateDeletes == 0
      && Traced()
    }

    method Miss(key: Key)
      requires Counting() && key !in cache
      modifies this`misses, this`model, this`steps
      ensures Valid() && old(steps) <= steps && model.now == old(model).now
      ensures cache == old(cache) - {key} && model.log == old(model).log + [Missed(key)]
    {
      Record(GetBegin(key));
      misses := misses + 1;
    }

    /** Both halves of an expired `Get`, with nothing in between. */
    method Expire(key: Key)
      requires Counting() && key in cache && Expired(cache[key], model.now)
      modifies this`cache, this`evictions, this`misses, this`model, this`steps
      ensures Valid() && old(steps) <= steps && model.now == old(model).now
      ensures cache == old(cache) - {key} && model.log == old(model).log + [Missed(key)]
    {
      Record(GetBegin(key));
      Record(GetFinish(key));
      cache := cache - {key};
      evictions := evictions + 1;
      misses := misses + 1;
    }

    method Touch(now: int, key: Key) returns (value: Value)
      requires Counting() && key in cache && !Expired(cache[key], now) && now == model.now
      modifies this`cache, this`hits, this`model, this`steps
      ensures Valid() && old(steps) <= steps && model.now == now
      ensures value == old(cache)[key].value && hits == old(hits) + 1
      ensures cache == old(cache)[key := old(cache)[key].(
        accessCount := old(cache)[key].accessCount + 1, lastAccess := now)]
      ensures model.log == old(model).log + [Hit(key, value, now)]
    {
      Record(GetBegin(key));
      var entry := cache[key];
      cache := cache[key := entry.(accessCount := entry.accessCount + 1, lastAccess := now)];
      hits := hits + 1;
      value := entry.value;
    }

    method SetWithTTL(now: int, key: Key, value: Value, ttl: int)
      requires Valid() && model.now <= now
      modifies this
      ensures Valid() && old(steps) <= steps && model.now == now
      ensures key in cache && cache[key] == Entry(value, now, ttl, 1, now)
      ensures exists victims: set<Key> :: Evicted(old(cache), victims) && cache == (old(cache) - victims)[key := cache[key]]
      ensures forall k <- cache | k != key :: k in old(cache) && cache[k] == old(cache)[k]
      ensures |old(cache)| < maxSize ==> old(cache).Keys <= cache.Keys && evictions == old(evictions)
      ensures |old(cache)| >= maxSize && |old(cache)| > 0 ==> evictions == old(evictions) + 1
      ensures |old(cache)| >= maxSize && |old(cache)| > 0 ==> exists victim <- old(cache) ::
        && cache.Keys == old(cache).Keys - {victim} + {key}
        && forall k <- old(cache) :: old(cache)[victim].lastAccess <= old(cache)[k].lastAccess
      ensures model.log == old(model).log + [Wrote(key, value, now, ttl)]
    {
      Advance(now);
      ghost var before := cache;
      var gone := ChooseVictims();
      Insert(now, key, value, ttl, gone);
      KeysAfter(before, gone, key, cache[key]);
    }

    method Insert(now: int, key: Key, value: Value, ttl: int, gone: set<Key>)
      requires Valid() && model.now == now && Evicted(cache, gone)
      modifies this
      ensures Valid() && steps == old(steps) + [Set(key, value, ttl, gone)] && model.now == now
      ensures cache == (old(cache) - gone)[key := Entry(value, now, ttl, 1, now)] && evictions == old(evictions) + |gone|
      ensures model.log == old(model).log + [Wrote(key, value, now, ttl)]
    {
      Record(Set(key, value, ttl, gone));
      cache := (cache - gone)[key := Entry(value, now, ttl, 1, now)];
      evictions := evictions + |gone|;
    }

    /** What a write has to evict. */
    method ChooseVictims() returns (gone: set<Key>)
      ensures Evicted(cache, gone)
      ensures |cache| < maxSize || |cache| == 0 ==> gone == {}
      ensures |cache| >= maxSize && |cache| > 0 ==> exists victim <- cache ::
        gone == {victim} && forall k <- cache :: cache[victim].lastAccess <= cache[k].lastAccess
    {
      gone := {};
      if |cache| >= maxSize && |cache| > 0 {
        var evictedKeys := SelectEntriesForEviction(cache, 1);
        gone := set k | k in evictedKeys;
      }
      OneVictim(cache, gone);
    }

    /** Below capacity nothing goes; otherwise one entry that nothing else precedes. */
    lemma OneVictim(entries: map<Key, Entry>, victims: set<Key>)
      requires Evicted(entries, victims)
      ensures |entries| < maxSize || |entries| == 0 ==> victims == {}
      ensures |entries| >= maxSize && |entries| > 0 ==> |victims| == 1 && exists victim <- entries ::
        victims == {victim} && forall k <- entries :: entries[victim].lastAccess <= entries[k].lastAccess
    {
      if |entries| >= maxSize && |entries| > 0 {
        var victim :| victim in victims;
        assert |victims - {victim}| == 0;
        assert victims == {victim} && victim in entries;
      }
    }

    /** Nothing below capacity, one least recently used entry otherwise. */
    ghost predicate Evicted(entries: map<Key, Entry>, victims: set<Key>) {
      if |entries| >= maxSize && |entries| > 0 then LeastRecent(entries, victims, 1) else victims == {}
    }

    method Delete(now: int, key: Key)
      requires Valid() && model.now <= now
      modifies this`cache, this`model, this`steps
      ensures Valid() && old(steps) <= steps && cache == old(cache) - {key}
      ensures model.log == old(model).log + [Deleted(key)]
    {
      Advance(now);
      Record(Step.Delete(key));
      if key in cache {
        cache := cache - {key};
      } else {
        assert cache == cache - {key};
      }
    }

    method Clear(now: int)
      requires Valid() && model.now <= now
      modifies this`cache, this`model, this`steps
      ensures Valid() && old(steps) <= steps && cache == map[]
      ensures model.log == old(model).log + [Cleared]
    {
      Advance(now);
      Record(Step.Clear);
      cache := map[];
    }

    method KeysWithPrefix(prefix: Key) returns (keys: set<Key>)
      ensures keys == Matching(cache, prefix)
    {
      keys := set k | k in cache && |k| >= |prefix| && k[..|prefix|] == prefix;
    }

    method Invalidate(now: int, prefix: Key) returns (count: nat)
      requires Valid() && model.now <= now
      modifies this`cache, this`model, this`steps
      ensures Valid() && old(steps) <= steps && count == |old(cache)| - |cache|
      ensures cache == map k | k in old(cache) && !(prefix <= k) :: old(cache)[k]
      ensures model.log == old(model).log + [Invalidated(prefix)]
    {
      Advance(now);
      var keysToDelete := KeysWithPrefix(prefix);
      MatchingGo(cache, prefix);
      Record(Step.Invalidate(prefix));
      count := |keysToDelete|;
      cache := cache - keysToDelete;
    }

    method CleanupExpiredEntries(now: int)
      requires Valid() && model.now <= now
      modifies this`cache, this`evictions, this`model, this`steps
      ensures Valid() && old(steps) <= steps
      ensures cache == map k | k in old(cache) && now - old(cache)[k].timestamp <= old(cache)[k].ttl :: old(cache)[k]
      ensures evictions == old(evictions) + |old(cache)| - |cache|
      ensures model.log == old(model).log
    {
      Advance(now);
      Record(CleanupExpired);
      var expiredKeys := set k | k in cache && now - cache[k].timestamp > cache[k].ttl;
      ExpiredGo(cache, now);
      assert expiredKeys == ExpiredKeys(cache, now);
      cache := cache - expiredKeys;
      evictions := evictions + |expiredKeys|;
    }

    /** A live entry is returned without computing; otherwise the computed value is stored, to live for the
        default time, and returned, unless computing it fails.  With a deterministic `compute` behind every
        write, callers cannot tell the cache from calling it directly. */
    method GetOrSet(now: int, key: Key, compute: Key -> Option<Value>) returns (value: Option<Value>)
      requires Valid() && model.now <= now
      modifies this
      ensures Valid() && old(steps) <= steps && model.now == now
      ensures key in old(cache) && now - old(cache)[key].timestamp <= old(cache)[key].ttl ==>
        && value == Some(old(cache)[key].value)
        && key in cache && cache[key] == old(cache)[key].(accessCount := cache[key].accessCount, lastAccess := now)
      ensures !(key in old(cache) && now - old(cache)[key].timestamp <= old(cache)[key].ttl) ==>
        && value == compute(key)
        && if value.Some? then key in cache && cache[key] == Entry(value.value, now, defaultTTL, 1, now) else cache == old(cache) - {key}
      ensures forall k <- cache | k != key :: k in old(cache) && cache[k] == old(cache)[k]
      ensures Computed(old(cache), compute) ==> Computed(cache, compute) && value == compute(key)
    {
      value := Get(now, key);
      if value.None? {
        value := ComputeAndStore(now, key, compute);
      }
    }

    /** The rest of `GetOrSet` after a miss. */
    method ComputeAndStore(now: int, key: Key, compute: Key -> Option<Value>) returns (value: Option<Value>)
      requires Valid() && model.now == now
      modifies this
      ensures Valid() && old(steps) <= steps && model.now == now && value == compute(key)
      ensures value.None? ==> cache == old(cache)
      ensures value.Some? ==> key in cache && cache[key] == Entry(value.value, now, defaultTTL, 1, now)
      ensures forall k <- cache | k != key :: k in old(cache) && cache[k] == old(cache)[k]
    {
      value := compute(key);
      if value.Some? {
        SetWithTTL(now, key, value.value, defaultTTL);
      }
    }

    /** Within the default time to live, the next caller gets what the first one computed, whatever its own
        `compute` would give. */
    method GetOrSetTwice(now: int, key: Key, compute: Key -> Option<Value>, later: int, other: Key -> Option<Value>)
        returns (first: Option<Value>, second: Option<Value>)
      requires Valid() && model.now <= now <= later && key !in cache
      modifies this
      ensures Valid() && first == compute(key)
      ensures second == if first.Some? && later - now <= defaultTTL then first else other(key)
    {
      first := GetOrSet(now, key, compute);
      second := GetOrSet(later, key, other);
    }

    /** Between operations the statistics balance exactly. */
    lemma Statistics()
      requires Valid()
      ensures hits + misses == totalRequests
      ensures model.inserts == |cache| + evictions + model.removals
      ensures maxSize >= 1 ==> |cache| <= maxSize
    {
      CountsBalance(maxSize, start, steps);
    }
  }
}
