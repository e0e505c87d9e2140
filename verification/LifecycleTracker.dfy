/** The bounded event log of a roost, with its counters and queries (internal/api/lifecycle.go). */
module LifecycleTracker {

  import opened Common

  datatype Record = Record(kind: string, timestamp: int, message: string)

  const MAX_EVENTS := 50

  const CREATED := "Created"

  /** The last `n` elements, or all of them if there are fewer. */
  function Last<T>(h: seq<T>, n: nat): (r: seq<T>)
    ensures |r| == if |h| < n then |h| else n
  {
    if |h| <= n then h else h[|h| - n..]
  }

  function Occurrences(h: seq<Record>, kind: string): nat {
    if h == [] then 0
    else Occurrences(h[..|h| - 1], kind) + if h[|h| - 1].kind == kind then 1 else 0
  }

  lemma OccurrencesNext(h: seq<Record>, e: Record, kind: string)
    ensures Occurrences(h + [e], kind) == Occurrences(h, kind) + if e.kind == kind then 1 else 0
  {
    assert (h + [e])[..|h|] == h;
  }

  predicate IsCreation(e: Record) {
    e.kind == CREATED
  }

  /** The timestamp of the first creation event. */
  function FirstCreation(h: seq<Record>): Option<int> {
    if h == [] then None
    else if FirstCreation(h[..|h| - 1]).Some? then FirstCreation(h[..|h| - 1])
    else if IsCreation(h[|h| - 1]) then Some(h[|h| - 1].timestamp)
    else None
  }

  lemma FirstCreationNext(h: seq<Record>, e: Record)
    ensures FirstCreation(h + [e])
         == if FirstCreation(h).None? && IsCreation(e) then Some(e.timestamp) else FirstCreation(h)
  {
    assert (h + [e])[..|h|] == h;
  }

  /** The creation time is that of the first event called "Created". */
  lemma {:induction false} FirstCreationMeans(h: seq<Record>)
    ensures FirstCreation(h).None? ==> forall e <- h :: e.kind != "Created"
    ensures FirstCreation(h).Some? ==> exists i | 0 <= i < |h| ::
      h[i].kind == "Created" && h[i].timestamp == FirstCreation(h).value && forall j | 0 <= j < i :: h[j].kind != "Created"
  {
    if h != [] {
      var front, last := h[..|h| - 1], h[|h| - 1];
      assert h == front + [last];
      FirstCreationMeans(front);
      if FirstCreation(front).Some? {
        var i :| 0 <= i < |front| && front[i].kind == "Created" && front[i].timestamp == FirstCreation(front).value
          && forall j | 0 <= j < i :: front[j].kind != "Created";
        assert h[i] == front[i] && forall j | 0 <= j < i :: h[j] == front[j];
      }
    }
  }

  /** A kind's occurrences are its positions. */
  function Positions(h: seq<Record>, kind: string): set<int> {
    set i | 0 <= i < |h| && h[i].kind == kind
  }

  lemma {:induction false} OccurrencesAreSize(h: seq<Record>, kind: string)
    ensures Occurrences(h, kind) == |Positions(h, kind)|
  {
    if h != [] {
      var n := |h| - 1;
      OccurrencesAreSize(h[..n], kind);
      assert Positions(h, kind) == Positions(h[..n], kind) + if h[n].kind == kind then {n} else {};
    }
  }

  lemma LastOfLast<T>(h: seq<T>, m: nat, n: nat)
    ensures Last(Last(h, m), n) == Last(h, if m < n then m else n)
  {
  }

  /** Keeping the last `n` as elements arrive is keeping the last `n` of the whole. */
  lemma LastNext<T>(h: seq<T>, e: T, n: nat)
    ensures Last(h + [e], n) == Last(Last(h, n) + [e], n)
  {
  }

  predicate Recent(e: Record, kind: string, cutoff: int) {
    e.kind == kind && e.timestamp > cutoff
  }

  predicate Occurred(events: seq<Record>, kind: string, cutoff: int) {
    exists e <- events :: Recent(e, kind, cutoff)
  }

  predicate Ordered(h: seq<Record>) {
    forall i, j | 0 <= i < j < |h| :: h[i].timestamp <= h[j].timestamp
  }

  /** What the backward scan finds: a recent event with nothing older than the cutoff after it. */
  predicate Visible(events: seq<Record>, kind: string, cutoff: int) {
    exists i | 0 <= i < |events| ::
      Recent(events[i], kind, cutoff) && forall j | i < j < |events| :: events[j].timestamp >= cutoff
  }

  /** On an ordered log the early exit loses nothing: the scan is plain existence. */
  lemma ScanIsExistence(events: seq<Record>, kind: string, cutoff: int)
    requires Ordered(events)
    ensures Visible(events, kind, cutoff) <==> Occurred(events, kind, cutoff)
  {
    if Occurred(events, kind, cutoff) {
      var i :| 0 <= i < |events| && Recent(events[i], kind, cutoff);
      assert forall j | i < j < |events| :: events[i].timestamp <= events[j].timestamp;
    }
  }

  /** Without order the scan can miss: an older record logged later hides the recent one. */
  lemma ScanCanMiss()
    ensures exists events: seq<Record>, kind: string, cutoff: int ::
      !Visible(events, kind, cutoff) && Occurred(events, kind, cutoff)
  {
    var events := [Record("Ready", 10, ""), Record("Other", 1, "")];
    assert Recent(events[0], "Ready", 5) && events[0] in events;
    assert events[1].timestamp < 5;
    assert !Visible(events, "Ready", 5);
  }

  /** The last recent event of its kind. */
  ghost predicate LastRecent(events: seq<Record>, i: int, kind: string, cutoff: int) {
    && 0 <= i < |events| && Recent(events[i], kind, cutoff)
    && forall j | i < j < |events| :: !Recent(events[j], kind, cutoff)
  }

  lemma {:induction false} SomeLastRecent(events: seq<Record>, i: int, kind: string, cutoff: int) returns (last: int)
    requires 0 <= i < |events| && Recent(events[i], kind, cutoff)
    ensures LastRecent(events, last, kind, cutoff)
    decreases |events| - i
  {
    if j :| i < j < |events| && Recent(events[j], kind, cutoff) {
      last := SomeLastRecent(events, j, kind, cutoff);
    } else {
      last := i;
    }
  }

  /** An event that a later record with a timestamp more than one unit older can hide is made good by an
      event of the same kind, no older, after that record. */
  predicate Recovered(events: seq<Record>, i: int, j: int)
    requires 0 <= i < j < |events|
  {
    exists m | j < m < |events| :: events[m].kind == events[i].kind && events[m].timestamp >= events[i].timestamp
  }

  predicate AllRecovered(events: seq<Record>) {
    forall i, j | 0 <= i < j < |events| && events[j].timestamp + 1 < events[i].timestamp :: Recovered(events, i, j)
  }

  /** On any log: the early exit loses nothing, for any kind and any cutoff, if and only if every event
      that a later, older record could hide comes again after it. */
  lemma ScanAgreesIff(events: seq<Record>)
    ensures (forall k: string, c: int :: Visible(events, k, c) <==> Occurred(events, k, c)) <==> AllRecovered(events)
  {
    if AllRecovered(events) {
      forall k: string, c: int ensures Visible(events, k, c) <==> Occurred(events, k, c) {
        RecoveredIsVisible(events, k, c);
      }
    }
    if forall k: string, c: int :: Visible(events, k, c) <==> Occurred(events, k, c) {
      forall i, j | 0 <= i < j < |events| && events[j].timestamp + 1 < events[i].timestamp ensures Recovered(events, i, j) {
        var k, c := events[i].kind, events[i].timestamp - 1;
        assert events[i] in events && Recent(events[i], k, c);
        assert Occurred(events, k, c);
        assert Visible(events, k, c);
        var m :| 0 <= m < |events| && Recent(events[m], k, c) && forall n | m < n < |events| :: events[n].timestamp >= c;
        assert m > j;
      }
    }
  }

  lemma NothingStaleAfter(events: seq<Record>, last: int, j: int, kind: string, cutoff: int)
    requires AllRecovered(events) && LastRecent(events, last, kind, cutoff) && last < j < |events|
    ensures events[j].timestamp >= cutoff
  {
  }

  lemma RecoveredIsVisible(events: seq<Record>, kind: string, cutoff: int)
    requires AllRecovered(events)
    ensures Visible(events, kind, cutoff) <==> Occurred(events, kind, cutoff)
  {
    if Occurred(events, kind, cutoff) {
      var e :| e in events && Recent(e, kind, cutoff);
      var i :| 0 <= i < |events| && events[i] == e;
      var last := SomeLastRecent(events, i, kind, cutoff);
      forall j | last < j < |events| ensures events[j].timestamp >= cutoff {
        NothingStaleAfter(events, last, j, kind, cutoff);
      }
    }
  }

  /** On an ordered history, the retained log answers for the whole history unless fifty or more later
      events have pushed every recent occurrence out. */
  lemma RetainedAnswersForHistory(h: seq<Record>, kind: string, cutoff: int)
    requires Ordered(h)
    ensures Visible(Last(h, MAX_EVENTS), kind, cutoff) <==>
            exists i | 0 <= i < |h| && |h| - MAX_EVENTS <= i :: Recent(h[i], kind, cutoff)
  {
    var kept := Last(h, MAX_EVENTS);
    var skipped := |h| - |kept|;
    assert Ordered(kept);
    ScanIsExistence(kept, kind, cutoff);
    if Occurred(kept, kind, cutoff) {
      var k :| 0 <= k < |kept| && Recent(kept[k], kind, cutoff);
      assert Recent(h[skipped + k], kind, cutoff);
    }
    if exists i | 0 <= i < |h| && |h| - MAX_EVENTS <= i :: Recent(h[i], kind, cutoff) {
      var i :| 0 <= i < |h| && |h| - MAX_EVENTS <= i && Recent(h[i], kind, cutoff);
      assert kept[i - skipped] == h[i] && kept[i - skipped] in kept;
    }
  }

  /** The table holds the number of occurrences of exactly the kinds that occur, as an int32. */
  ghost predicate Counts(counts: map<string, int>, h: seq<Record>) {
    forall k: string :: CountFits(counts, h, k)
  }

  predicate CountFits(counts: map<string, int>, h: seq<Record>, k: string) {
    (k in counts <==> Occurrences(h, k) > 0) && (k in counts ==> counts[k] == Wrap32(Occurrences(h, k)))
  }

  lemma CountsNext(counts: map<string, int>, h: seq<Record>, e: Record)
    requires Counts(counts, h)
    ensures Counts(counts[e.kind := Wrap32(CountOf(counts, e.kind) + 1)], h + [e])
  {
    var next := counts[e.kind := Wrap32(CountOf(counts, e.kind) + 1)];
    forall k: string ensures CountFits(next, h + [e], k) {
      assert CountFits(counts, h, k);
      OccurrencesNext(h, e, k);
      if k == e.kind {
        CountIs(counts, h, k);
      }
    }
  }

  function CountOf(counts: map<string, int>, kind: string): int {
    if kind in counts then counts[kind] else 0
  }

  lemma CountIs(counts: map<string, int>, h: seq<Record>, k: string)
    requires CountFits(counts, h, k)
    ensures Wrap32(CountOf(counts, k) + 1) == Wrap32(Occurrences(h, k) + 1)
  {
    WrapAdd(Occurrences(h, k), 1);
  }

  /** Append, then drop the oldest records beyond the limit. */
  method Appended(events: seq<Record>, e: Record) returns (r: seq<Record>)
    ensures r == Last(events + [e], MAX_EVENTS)
  {
    r := events + [e];
    if |r| > MAX_EVENTS {
      r := r[|r| - MAX_EVENTS..];
    }
  }

  /** What one more event does to each of the three summaries. */
  lemma Observed(h: seq<Record>, events: seq<Record>, counts: map<string, int>, e: Record)
    requires events == Last(h, MAX_EVENTS) && Counts(counts, h)
    ensures Last(events + [e], MAX_EVENTS) == Last(h + [e], MAX_EVENTS)
    ensures Counts(counts[e.kind := Wrap32(CountOf(counts, e.kind) + 1)], h + [e])
    ensures FirstCreation(h + [e]) == if FirstCreation(h).None? && IsCreation(e) then Some(e.timestamp) else FirstCreation(h)
  {
    LastNext(h, e, MAX_EVENTS);
    CountsNext(counts, h, e);
    FirstCreationNext(h, e);
  }

  class LifecycleStatus {
    var createdAt: Option<int>
    var lastActivity: Option<int>
    var events: seq<Record>
    var eventCounts: map<string, int>

    /** Every event ever tracked, in order. */
    ghost var history: seq<Record>

    ghost predicate Valid()
      reads this
    {
      && events == Last(history, MAX_EVENTS)
      && Counts(eventCounts, history)
      && createdAt == FirstCreation(history)
      && lastActivity == if history == [] then None else Some(history[|history| - 1].timestamp)
    }

    constructor ()
      ensures Valid() && history == []
    {
      createdAt, lastActivity, events, eventCounts, history := None, None, [], map[], [];
    }

    method UpdateLifecycleStatus(kind: string, message: string, now: int)
      requires Valid()
      modifies this
      ensures Valid() && history == old(history) + [Record(kind, now, message)]
      ensures createdAt == if old(createdAt).None? && kind == "Created" then Some(now) else old(createdAt)
      ensures lastActivity == Some(now)
    {
      var lifecycleEvent := Record(kind, now, message);
      Observed(history, events, eventCounts, lifecycleEvent);
      if createdAt.None? && IsCreation(lifecycleEvent) {
        createdAt := Some(now);
      }
      lastActivity := Some(now);
      events := Appended(events, lifecycleEvent);
      eventCounts := eventCounts[kind := Wrap32(CountOf(eventCounts, kind) + 1)];
      history := history + [lifecycleEvent];
    }
  }

  class ManagedRoost {
    var lifecycle: LifecycleStatus?

    constructor ()
      ensures lifecycle == null
    {
      lifecycle := null;
    }

    /** All events tracked so far. */
    ghost function History(): seq<Record>
      reads this, lifecycle
    {
      if lifecycle == null then [] else lifecycle.history
    }

    ghost predicate Valid()
      reads this, lifecycle
    {
      lifecycle != null ==> lifecycle.Valid()
    }

    method TrackEvent(kind: string, message: string, now: int)
      requires Valid()
      modifies this, lifecycle
      ensures Valid() && History() == old(History()) + [Record(kind, now, message)]
      ensures lifecycle != null && (old(lifecycle) == null ==> fresh(lifecycle))
      ensures old(lifecycle) != null ==> lifecycle == old(lifecycle)
      ensures lifecycle.events == if |History()| <= 50 then History() else History()[|History()| - 50..]
    {
      if lifecycle == null {
        lifecycle := new LifecycleStatus();
      }
      lifecycle.UpdateLifecycleStatus(kind, message, now);
    }

    /** The number of tracked events of a kind, as an int32. */
    method GetEventCount(kind: string) returns (count: int)
      requires Valid()
      ensures count == Wrap32(Occurrences(History(), kind)) == Wrap32(|Positions(History(), kind)|)
    {
      OccurrencesAreSize(History(), kind);
      if lifecycle == null {
        return 0;
      }
      assert CountFits(lifecycle.eventCounts, lifecycle.history, kind);
      if kind !in lifecycle.eventCounts {
        return 0;
      }
      return lifecycle.eventCounts[kind];
    }

    /** The last events; `None` is the panic of slicing a non-empty log with a negative limit. */
    method GetRecentEvents(limit: int) returns (recent: Option<seq<Record>>)
      requires Valid()
      ensures recent.None? <==> limit < 0 && History() != []
      ensures recent.Some? ==> recent.value == Last(History(), if limit < 0 then 0 else Min(limit, MAX_EVENTS))
      ensures recent.Some? ==> |recent.value| <= |History()| && recent.value == History()[|History()| - |recent.value|..]
      ensures recent.Some? && limit >= 0 ==> |recent.value| == Min(limit, Min(50, |History()|))
    {
      if lifecycle == null || |lifecycle.events| == 0 {
        return Some([]);
      }
      var events := lifecycle.events;
      var start := |events| - limit;
      if start < 0 {
        start := 0;
      }
      if start > |events| {
        return None;
      }
      LastOfLast(lifecycle.history, MAX_EVENTS, limit);
      return Some(events[start..]);
    }

    method IsEventRecent(kind: string, within: int, now: int) returns (found: bool)
      requires Valid()
      ensures found <==> Visible(Last(History(), MAX_EVENTS), kind, now - within)
      ensures var h, cutoff := History(), now - within; found <==> exists i | |h| - 50 <= i < |h| :: Uncovered(h, i, kind, cutoff)
    {
      VisibleInHistory(History(), kind, now - within);
      if lifecycle == null || |lifecycle.events| == 0 {
        NothingVisible(kind, now - within);
        return false;
      }
      ghost var h := lifecycle.history;
      assert lifecycle.events == Last(h, MAX_EVENTS);
      found := Scan(lifecycle.events, kind, now - within);
    }
  }

  /** An event of the kind after the cutoff, with nothing before the cutoff behind it. */
  predicate Uncovered(h: seq<Record>, i: int, kind: string, cutoff: int) {
    && 0 <= i < |h| && h[i].kind == kind && h[i].timestamp > cutoff
    && forall j | i < j < |h| :: h[j].timestamp >= cutoff
  }

  lemma UncoveredInSuffix(h: seq<Record>, skipped: nat, k: nat, kind: string, cutoff: int)
    requires skipped + k < |h|
    ensures Uncovered(h[skipped..], k, kind, cutoff) <==> Uncovered(h, skipped + k, kind, cutoff)
  {
    var kept := h[skipped..];
    if Uncovered(kept, k, kind, cutoff) {
      forall j | skipped + k < j < |h| ensures h[j].timestamp >= cutoff {
        assert h[j] == kept[j - skipped];
      }
    }
  }

  lemma VisibleInHistory(h: seq<Record>, kind: string, cutoff: int)
    ensures Visible(Last(h, MAX_EVENTS), kind, cutoff) <==> exists i | |h| - 50 <= i < |h| :: Uncovered(h, i, kind, cutoff)
  {
    var kept := Last(h, MAX_EVENTS);
    var skipped := |h| - |kept|;
    assert kept == h[skipped..];
    if Visible(kept, kind, cutoff) {
      var k :| 0 <= k < |kept| && Recent(kept[k], kind, cutoff) && forall j | k < j < |kept| :: kept[j].timestamp >= cutoff;
      assert Uncovered(kept, k, kind, cutoff);
      UncoveredInSuffix(h, skipped, k, kind, cutoff);
    }
    if i :| |h| - 50 <= i < |h| && Uncovered(h, i, kind, cutoff) {
      UncoveredInSuffix(h, skipped, i - skipped, kind, cutoff);
      assert Recent(kept[i - skipped], kind, cutoff);
    }
  }

  lemma NothingVisible(kind: string, cutoff: int)
    ensures !Visible([], kind, cutoff)
  {
  }

  /** The backward scan, which stops at the first record older than the cutoff. */
  method Scan(events: seq<Record>, kind: string, cutoff: int) returns (found: bool)
    ensures found <==> Visible(events, kind, cutoff)
  {
    var i := |events| - 1;
    while i >= 0
      invariant -1 <= i < |events|
      invariant forall j | i < j < |events| :: events[j].timestamp >= cutoff && !Recent(events[j], kind, cutoff)
    {
      var event := events[i];
      if event.kind == kind && event.timestamp > cutoff {
        assert Recent(events[i], kind, cutoff);
        return true;
      }
      if event.timestamp < cutoff {
        break;
      }
      i := i - 1;
    }
    return false;
  }
}
