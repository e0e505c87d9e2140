/** Per-client rate limiting with idle clients forgotten (internal/api/middleware/ratelimit.go)
    over an exact token bucket, compared with a limiter that never forgets.

    Time is in nanoseconds.  Tokens are counted in billionths, so that a bucket refilled at
    `rate` tokens per second gains exactly `rate` units per nanosecond. */
module RateLimiter {

  import opened Common

  type Client = string

  /** One token. */
  const TOKEN: nat := 1_000_000_000

  datatype Config = Config(rate: nat, burst: nat, cleanup: nat) {
    function Capacity(): nat { burst * TOKEN }
  }

  /* ---------- Token bucket ---------- */

  datatype Bucket = Bucket(tokens: nat, last: int)

  /** Units in the bucket at `now`. */
  function Level(cfg: Config, b: Bucket, now: int): int
  {
    Min(cfg.Capacity(), b.tokens + Refill(cfg, now - b.last))
  }

  function Refill(cfg: Config, elapsed: int): int {
    elapsed * cfg.rate
  }

  predicate Grants(cfg: Config, b: Bucket, now: int, n: int) {
    n * TOKEN <= Level(cfg, b, now)
  }

  /** A granted request takes its tokens, a negative number of them if it gives some back; a refused one
      leaves the bucket as it is.  What exceeds the capacity is lost at the next request. */
  function Take(cfg: Config, b: Bucket, now: int, n: int): Bucket {
    if Grants(cfg, b, now, n) then Bucket(Level(cfg, b, now) - n * TOKEN, now) else b
  }

  function NewBucket(cfg: Config, now: int): Bucket {
    Bucket(cfg.Capacity(), now)
  }

  /* ---------- The limiter ---------- */

  datatype ClientLimiter = ClientLimiter(bucket: Bucket, lastSeen: int)

  type Limiters = map<Client, ClientLimiter>

  datatype Request =
    | Ask(client: Client, n: int, at: int)     // AllowN; Allow is n == 1, and a negative n gives back
    | Forget(at: int)                          // a cleanup tick

  /** The bucket a request meets: the client's own, or a new full one. */
  function BucketOf(cfg: Config, ls: Limiters, c: Client, now: int): Bucket {
    if c in ls then ls[c].bucket else NewBucket(cfg, now)
  }

  predicate Answer(cfg: Config, ls: Limiters, r: Request) {
    r.Ask? && Grants(cfg, BucketOf(cfg, ls, r.client, r.at), r.at, r.n)
  }

  function Stale(cfg: Config, ls: Limiters, now: int): set<Client> {
    set c | c in ls && now - ls[c].lastSeen > cfg.cleanup
  }

  function Next(cfg: Config, ls: Limiters, r: Request): Limiters {
    match r
    case Ask(c, n, at) => ls[c := ClientLimiter(Take(cfg, BucketOf(cfg, ls, c, at), at, n), at)]
    case Forget(at) => ls - Stale(cfg, ls, at)
  }

  /** The limiter without its cleanup. */
  function NextKeeping(cfg: Config, ls: Limiters, r: Request): Limiters {
    if r.Ask? then Next(cfg, ls, r) else ls
  }

  function Answers(cfg: Config, ls: Limiters, rs: seq<Request>): (r: seq<bool>)
    ensures |r| == |rs|
    decreases |rs|
  {
    if rs == [] then [] else [Answer(cfg, ls, rs[0])] + Answers(cfg, Next(cfg, ls, rs[0]), rs[1..])
  }

  function AnswersKeeping(cfg: Config, ls: Limiters, rs: seq<Request>): (r: seq<bool>)
    ensures |r| == |rs|
    decreases |rs|
  {
    if rs == [] then [] else [Answer(cfg, ls, rs[0])] + AnswersKeeping(cfg, NextKeeping(cfg, ls, rs[0]), rs[1..])
  }

  /** Requests in order of time, none before `from`. */
  predicate Ordered(rs: seq<Request>, from: int)
    decreases |rs|
  {
    rs != [] ==> from <= rs[0].at && Ordered(rs[1..], rs[0].at)
  }

  /* ---------- The object ---------- */

  class RateLimiter {
    const cfg: Config
    var limiters: Limiters

    constructor (cfg: Config)
      ensures limiters == map[] && this.cfg == cfg
    {
      this.cfg := cfg;
      limiters := map[];
    }

    method Allow(clientID: Client, now: int) returns (ok: bool)
      modifies this
      ensures ok == Answer(cfg, old(limiters), Ask(clientID, 1, now))
      ensures limiters == Next(cfg, old(limiters), Ask(clientID, 1, now))
      ensures clientID !in old(limiters) ==> ok == (cfg.burst >= 1)
    {
      ok := AllowN(clientID, 1, now);
    }

    method AllowN(clientID: Client, n: int, now: int) returns (ok: bool)
      modifies this
      ensures ok == Answer(cfg, old(limiters), Ask(clientID, n, now))
      ensures limiters == Next(cfg, old(limiters), Ask(clientID, n, now))
      ensures clientID !in old(limiters) ==> ok == (n <= cfg.burst)
      ensures clientID in limiters && limiters[clientID].lastSeen == now
      ensures forall c <- old(limiters) | c != clientID :: c in limiters && limiters[c] == old(limiters)[c]
    {
      NewBucketIsFull(cfg, now, n);
      var limiter: ClientLimiter;
      if clientID !in limiters {
        limiter := ClientLimiter(NewBucket(cfg, now), now);
      } else {
        limiter := limiters[clientID].(lastSeen := now);
      }
      var bucket := limiter.bucket;
      ok := n * TOKEN <= Level(cfg, bucket, now);
      if ok {
        bucket := Bucket(Level(cfg, bucket, now) - n * TOKEN, now);
      }
      limiters := limiters[clientID := limiter.(bucket := bucket)];
    }

    /** Deletes while ranging over the map, in any order. */
    method CleanupOldLimiters(now: int)
      modifies this
      ensures limiters == Next(cfg, old(limiters), Forget(now))
      ensures limiters == map c | c in old(limiters) && now - old(limiters)[c].lastSeen <= cfg.cleanup :: old(limiters)[c]
    {
      var todo := limiters.Keys;
      while todo != {}
        invariant todo <= old(limiters).Keys
        invariant limiters == old(limiters) - (Stale(cfg, old(limiters), now) - todo)
        decreases |todo|
      {
        var clientID :| clientID in todo;
        if now - limiters[clientID].lastSeen > cfg.cleanup {
          limiters := limiters - {clientID};
        }
        todo := todo - {clientID};
      }
      assert Stale(cfg, old(limiters), now) - {} == Stale(cfg, old(limiters), now);
      FreshRemain(cfg, old(limiters), now);
    }
  }

  lemma FreshRemain(cfg: Config, ls: Limiters, now: int)
    ensures ls - Stale(cfg, ls, now) == map c | c in ls && now - ls[c].lastSeen <= cfg.cleanup :: ls[c]
  {
  }

  lemma NewBucketIsFull(cfg: Config, now: int, n: int)
    ensures Grants(cfg, NewBucket(cfg, now), now, n) <==> n <= cfg.burst
  {
    assert n * TOKEN <= cfg.burst * TOKEN <==> n <= cfg.burst;
  }

  /* ---------- Forgetting is unobservable ---------- */

  lemma RefillGrows(cfg: Config, a: int, b: int)
    requires a <= b
    ensures Refill(cfg, a) <= Refill(cfg, b)
    ensures Refill(cfg, b) == Refill(cfg, a) + Refill(cfg, b - a)
  {
    assert b * cfg.rate == a * cfg.rate + (b - a) * cfg.rate;
    assert (b - a) * cfg.rate >= 0;
  }

  predicate Full(cfg: Config, b: Bucket, now: int) {
    Level(cfg, b, now) == cfg.Capacity()
  }

  /** Buckets no later request can tell apart. */
  predicate Alike(cfg: Config, a: Bucket, b: Bucket, now: int) {
    a == b || (Full(cfg, a, now) && Full(cfg, b, now))
  }

  predicate Sane(cfg: Config, ls: Limiters, now: int) {
    forall c <- ls ::
      ls[c].bucket.last <= ls[c].lastSeen <= now
  }

  /** What the forgetful limiter remembers is right; what it forgot would be full anyway. */
  predicate Simulates(cfg: Config, forgetful: Limiters, keeping: Limiters, now: int) {
    && Sane(cfg, keeping, now) && Sane(cfg, forgetful, now)
    && (forall c <- forgetful :: c in keeping
          && forgetful[c].lastSeen == keeping[c].lastSeen && Alike(cfg, forgetful[c].bucket, keeping[c].bucket, now))
    && (forall c <- keeping | c !in forgetful :: Full(cfg, keeping[c].bucket, now))
  }

  lemma StaysFull(cfg: Config, b: Bucket, now: int, later: int)
    requires now <= later && Full(cfg, b, now)
    ensures Full(cfg, b, later)
  {
    RefillGrows(cfg, now - b.last, later - b.last);
  }

  lemma TimePasses(cfg: Config, forgetful: Limiters, keeping: Limiters, now: int, later: int)
    requires now <= later && Simulates(cfg, forgetful, keeping, now)
    ensures Simulates(cfg, forgetful, keeping, later)
  {
    forall c <- keeping | Full(cfg, keeping[c].bucket, now) {
      StaysFull(cfg, keeping[c].bucket, now, later);
    }
    forall c <- forgetful | Full(cfg, forgetful[c].bucket, now) {
      StaysFull(cfg, forgetful[c].bucket, now, later);
    }
  }

  /** Whatever was taken, a bucket not asked for longer than the cleanup period is full. */
  lemma IdleIsFull(cfg: Config, l: ClientLimiter, now: int)
    requires Refill(cfg, cfg.cleanup + 1) >= cfg.Capacity()
    requires l.bucket.last <= l.lastSeen && now - l.lastSeen > cfg.cleanup
    ensures Full(cfg, l.bucket, now)
  {
    RefillGrows(cfg, cfg.cleanup + 1, now - l.bucket.last);
  }

  lemma AskIsSimulated(cfg: Config, forgetful: Limiters, keeping: Limiters, c: Client, n: int, at: int)
    requires Simulates(cfg, forgetful, keeping, at)
    ensures Answer(cfg, forgetful, Ask(c, n, at)) == Answer(cfg, keeping, Ask(c, n, at))
    ensures Simulates(cfg, Next(cfg, forgetful, Ask(c, n, at)), Next(cfg, keeping, Ask(c, n, at)), at)
  {
    var x, y := BucketOf(cfg, forgetful, c, at), BucketOf(cfg, keeping, c, at);
    assert Full(cfg, NewBucket(cfg, at), at);
    assert Alike(cfg, x, y, at);
    assert Alike(cfg, Take(cfg, x, at, n), Take(cfg, y, at, n), at);
  }

  lemma ForgetIsSimulated(cfg: Config, forgetful: Limiters, keeping: Limiters, at: int)
    requires Simulates(cfg, forgetful, keeping, at)
    requires Refill(cfg, cfg.cleanup + 1) >= cfg.Capacity()
    ensures Simulates(cfg, Next(cfg, forgetful, Forget(at)), keeping, at)
  {
    forall c <- Stale(cfg, forgetful, at) ensures Full(cfg, keeping[c].bucket, at) {
      IdleIsFull(cfg, keeping[c], at);
    }
  }

  lemma {:induction false} SimulatedAnswers(cfg: Config, forgetful: Limiters, keeping: Limiters, now: int, rs: seq<Request>)
    requires Simulates(cfg, forgetful, keeping, now) && Ordered(rs, now)
    requires Refill(cfg, cfg.cleanup + 1) >= cfg.Capacity()
    ensures Answers(cfg, forgetful, rs) == AnswersKeeping(cfg, keeping, rs)
    decreases |rs|
  {
    if rs != [] {
      var r := rs[0];
      TimePasses(cfg, forgetful, keeping, now, r.at);
      if r.Ask? {
        AskIsSimulated(cfg, forgetful, keeping, r.client, r.n, r.at);
      } else {
        ForgetIsSimulated(cfg, forgetful, keeping, r.at);
      }
      SimulatedAnswers(cfg, Next(cfg, forgetful, r), NextKeeping(cfg, keeping, r), r.at, rs[1..]);
    }
  }

  /** A client drains its bucket, is forgotten, and asks again at once. */
  lemma DrainAndReturn(cfg: Config)
    requires Refill(cfg, cfg.cleanup + 1) < cfg.Capacity()
    ensures exists rs: seq<Request> ::
      Ordered(rs, 0) && Answers(cfg, map[], rs) != AnswersKeeping(cfg, map[], rs)
  {
    var t := cfg.cleanup + 1;
    var drain, tick, again := Ask("c", cfg.burst, 0), Forget(t), Ask("c", cfg.burst, t);
    var rs := [drain, tick, again];
    var drained: Limiters := map["c" := ClientLimiter(Bucket(0, 0), 0)];
    assert Next(cfg, map[], drain) == drained;
    assert Stale(cfg, drained, t) == {"c"};
    assert Next(cfg, drained, tick) == map[];
    assert Answer(cfg, map[], again) && !Answer(cfg, drained, again);
    assert rs[1..] == [tick, again] && rs[1..][1..] == [again];
    assert Ordered([again], t);
    assert Ordered(rs[1..], 0);
    assert Ordered(rs, 0);
    assert Answers(cfg, map[], [again])[0] != AnswersKeeping(cfg, drained, [again])[0];
    assert Answers(cfg, drained, [tick, again])[1] == Answers(cfg, map[], [again])[0];
    assert AnswersKeeping(cfg, drained, [tick, again])[1] == AnswersKeeping(cfg, drained, [again])[0];
    assert Answers(cfg, map[], rs)[2] == Answers(cfg, drained, [tick, again])[1];
    assert AnswersKeeping(cfg, map[], rs)[2] == AnswersKeeping(cfg, drained, [tick, again])[1];
  }

  /** Dropping idle clients changes no answer of any run exactly when an idle bucket has time
      to refill before it can be dropped. */
  lemma ForgettingUnobservableIff(cfg: Config)
    ensures (forall rs: seq<Request> | Ordered(rs, 0) ::
               Answers(cfg, map[], rs) == AnswersKeeping(cfg, map[], rs))
            <==> (cfg.cleanup + 1) * cfg.rate >= cfg.burst * TOKEN
  {
    if Refill(cfg, cfg.cleanup + 1) >= cfg.Capacity() {
      forall rs: seq<Request> | Ordered(rs, 0)
        ensures Answers(cfg, map[], rs) == AnswersKeeping(cfg, map[], rs)
      {
        SimulatedAnswers(cfg, map[], map[], 0, rs);
      }
    } else {
      DrainAndReturn(cfg);
    }
  }

  /* ---------- How much a client can get ---------- */

  /** Tokens granted to `c` by these answers, less those it gave back. */
  function Granted(rs: seq<Request>, answers: seq<bool>, c: Client): int
    requires |answers| == |rs|
    decreases |rs|
  {
    if rs == [] then 0
    else (if answers[0] && rs[0].Ask? && rs[0].client == c then rs[0].n else 0) + Granted(rs[1..], answers[1..], c)
  }

  predicate Within(rs: seq<Request>, from: int, to: int) {
    Ordered(rs, from) && from <= to && forall r <- rs :: r.at <= to
  }

  function LevelOf(cfg: Config, ls: Limiters, c: Client, now: int): int {
    Level(cfg, BucketOf(cfg, ls, c, now), now)
  }

  /** Asking `c` or anyone else: what the level of `c` becomes. */
  lemma LevelAfterAsk(cfg: Config, ls: Limiters, r: Request, c: Client)
    requires Sane(cfg, ls, r.at) && r.Ask?
    ensures Sane(cfg, Next(cfg, ls, r), r.at)
    ensures LevelOf(cfg, Next(cfg, ls, r), c, r.at) ==
      Min(cfg.Capacity(), LevelOf(cfg, ls, c, r.at) - if r.client == c && Answer(cfg, ls, r) then r.n * TOKEN else 0)
  {
    assert Refill(cfg, 0) == 0;
  }

  lemma LevelGrows(cfg: Config, ls: Limiters, c: Client, now: int, later: int)
    requires now <= later && Sane(cfg, ls, now)
    ensures Sane(cfg, ls, later)
    ensures LevelOf(cfg, ls, c, later) <= LevelOf(cfg, ls, c, now) + Refill(cfg, later - now)
    ensures 0 <= LevelOf(cfg, ls, c, now) <= cfg.Capacity()
  {
    RefillGrows(cfg, 0, later - now);
    if c in ls {
      RefillGrows(cfg, now - ls[c].bucket.last, later - ls[c].bucket.last);
      RefillGrows(cfg, 0, now - ls[c].bucket.last);
    }
  }

  /** Grants come out of the level at the start plus the refill over the window. */
  lemma {:induction false} GrantsComeFromLevel(cfg: Config, ls: Limiters, rs: seq<Request>, c: Client, from: int, to: int)
    requires Sane(cfg, ls, from) && Within(rs, from, to)
    ensures Granted(rs, AnswersKeeping(cfg, ls, rs), c) * TOKEN <= LevelOf(cfg, ls, c, from) + (to - from) * cfg.rate
    decreases |rs|
  {
    RefillGrows(cfg, 0, to - from);
    LevelGrows(cfg, ls, c, from, to);
    if rs != [] {
      var r := rs[0];
      assert r in rs;
      LevelGrows(cfg, ls, c, from, r.at);
      RefillGrows(cfg, r.at - from, to - from);
      if r.Ask? {
        LevelAfterAsk(cfg, ls, r, c);
      }
      GrantsComeFromLevel(cfg, NextKeeping(cfg, ls, r), rs[1..], c, r.at, to);
      GrantedUnfolds(cfg, ls, rs, c);
    }
  }

  lemma GrantedUnfolds(cfg: Config, ls: Limiters, rs: seq<Request>, c: Client)
    requires rs != []
    ensures Granted(rs, AnswersKeeping(cfg, ls, rs), c) * TOKEN ==
      (if rs[0].Ask? && rs[0].client == c && Answer(cfg, ls, rs[0]) then rs[0].n * TOKEN else 0)
      + Granted(rs[1..], AnswersKeeping(cfg, NextKeeping(cfg, ls, rs[0]), rs[1..]), c) * TOKEN
  {
    assert AnswersKeeping(cfg, ls, rs)[1..] == AnswersKeeping(cfg, NextKeeping(cfg, ls, rs[0]), rs[1..]);
  }

  lemma {:induction false} KeepingSplits(cfg: Config, ls: Limiters, before: seq<Request>, window: seq<Request>, start: int, from: int)
      returns (mid: Limiters)
    requires Sane(cfg, ls, start) && Ordered(before + window, start) && Ordered(window, from)
    requires start <= from && forall r <- before :: r.at <= from
    ensures Sane(cfg, mid, from)
    ensures AnswersKeeping(cfg, ls, before + window)[|before|..] == AnswersKeeping(cfg, mid, window)
    decreases |before|
  {
    if before == [] {
      mid := ls;
      assert before + window == window;
    } else {
      var r := before[0];
      assert r in before && (before + window)[1..] == before[1..] + window;
      if r.Ask? {
        LevelAfterAsk(cfg, ls, r, r.client);
      }
      mid := KeepingSplits(cfg, NextKeeping(cfg, ls, r), before[1..], window, r.at, from);
    }
  }

  /** Under that condition, in any window of any run a client is granted at most its burst plus
      what the rate refills over the window, cleanups included. */
  lemma AdmissionsAreBounded(cfg: Config, before: seq<Request>, window: seq<Request>, c: Client, from: int, to: int)
    requires (cfg.cleanup + 1) * cfg.rate >= cfg.burst * TOKEN
    requires Ordered(before + window, 0) && 0 <= from && Within(window, from, to) && forall r <- before :: r.at <= from
    ensures Granted(window, Answers(cfg, map[], before + window)[|before|..], c) * TOKEN
            <= cfg.burst * TOKEN + (to - from) * cfg.rate
  {
    SimulatedAnswers(cfg, map[], map[], 0, before + window);
    var mid := KeepingSplits(cfg, map[], before, window, 0, from);
    GrantsComeFromLevel(cfg, mid, window, c, from, to);
    LevelGrows(cfg, mid, c, from, from);
  }

  /* ---------- What a client can count on ---------- */

  /** The limiters after these requests. */
  function After(cfg: Config, ls: Limiters, rs: seq<Request>): Limiters
    decreases |rs|
  {
    if rs == [] then ls else After(cfg, Next(cfg, ls, rs[0]), rs[1..])
  }

  /** Requests that are not the client's, cleanups included. */
  predicate Silent(rs: seq<Request>, c: Client) {
    forall r <- rs :: r.Ask? ==> r.client != c
  }

  /** While it does not ask, a client's limiter stays as it is, unless it is dropped. */
  lemma {:induction false} SilentStays(cfg: Config, ls: Limiters, rs: seq<Request>, c: Client, from: int)
    requires c in ls && Silent(rs, c) && Ordered(rs, from)
    ensures c in After(cfg, ls, rs) ==> After(cfg, ls, rs)[c] == ls[c]
    ensures (forall r <- rs :: r.at - ls[c].lastSeen <= cfg.cleanup) ==> c in After(cfg, ls, rs)
    decreases |rs|
  {
    if rs != [] {
      var next := Next(cfg, ls, rs[0]);
      assert rs[0] in rs;
      if c in next {
        SilentStays(cfg, next, rs[1..], c, rs[0].at);
      } else {
        StaysAway(cfg, next, rs[1..], c);
      }
    }
  }

  lemma {:induction false} StaysAway(cfg: Config, ls: Limiters, rs: seq<Request>, c: Client)
    requires c !in ls && Silent(rs, c)
    ensures c !in After(cfg, ls, rs)
    decreases |rs|
  {
    if rs != [] {
      assert rs[0] in rs;
      StaysAway(cfg, Next(cfg, ls, rs[0]), rs[1..], c);
    }
  }

  /** A client that drained its bucket at `t` and has not asked since is granted `n`
      tokens at `u` exactly if the rate has refilled that many, up to the burst; or, if it was dropped for
      being idle, exactly if the burst covers them. */
  lemma RefillsAtTheRate(cfg: Config, ls: Limiters, c: Client, t: int, rs: seq<Request>, u: int, n: int)
    requires Answer(cfg, ls, Ask(c, cfg.burst, t)) && Silent(rs, c) && Ordered(rs, t) && t <= u && forall r <- rs :: r.at <= u
    ensures var after := After(cfg, Next(cfg, ls, Ask(c, cfg.burst, t)), rs);
      Answer(cfg, after, Ask(c, n, u)) <==>
        n * 1_000_000_000 <=
          if c in after then Min(cfg.burst * 1_000_000_000, (u - t) * cfg.rate) else cfg.burst * 1_000_000_000
    ensures u - t <= cfg.cleanup ==> c in After(cfg, Next(cfg, ls, Ask(c, cfg.burst, t)), rs)
  {
    var drained := Next(cfg, ls, Ask(c, cfg.burst, t));
    SilentStays(cfg, drained, rs, c, t);
  }

  /** Every request of the client in `rs` is refused. */
  predicate Refused(cfg: Config, ls: Limiters, rs: seq<Request>, c: Client)
    decreases |rs|
  {
    rs != [] ==>
      && (rs[0].Ask? && rs[0].client == c ==> !Answer(cfg, ls, rs[0]))
      && Refused(cfg, Next(cfg, ls, rs[0]), rs[1..], c)
  }

  lemma {:induction false} RefusedStays(cfg: Config, ls: Limiters, rs: seq<Request>, c: Client, from: int, to: int)
    requires c in ls && Refused(cfg, ls, rs, c) && Within(rs, from, to) && to - ls[c].lastSeen <= cfg.cleanup
    requires ls[c].lastSeen <= from
    ensures c in After(cfg, ls, rs) && After(cfg, ls, rs)[c].bucket == ls[c].bucket
    decreases |rs|
  {
    if rs != [] {
      assert rs[0] in rs;
      RefusedStays(cfg, Next(cfg, ls, rs[0]), rs[1..], c, rs[0].at, to);
    }
  }

  /** A new client that takes `k` tokens has the rest of the burst left, and refused requests cost it
      nothing: within the cleanup period it is granted `n` more exactly if what is left and what the rate
      has refilled, up to the burst, cover them. */
  lemma RefusalsCostNothing(cfg: Config, ls: Limiters, c: Client, k: int, t: int, rs: seq<Request>, u: int, n: int)
    requires c !in ls && k <= cfg.burst && Within(rs, t, u) && u - t <= cfg.cleanup
    requires Refused(cfg, Next(cfg, ls, Ask(c, k, t)), rs, c)
    ensures Answer(cfg, ls, Ask(c, k, t))
    ensures Answer(cfg, After(cfg, Next(cfg, ls, Ask(c, k, t)), rs), Ask(c, n, u)) <==>
      n * 1_000_000_000 <= Min(cfg.burst * 1_000_000_000, (cfg.burst - k) * 1_000_000_000 + (u - t) * cfg.rate)
  {
    NewBucketIsFull(cfg, t, k);
    RefusedStays(cfg, Next(cfg, ls, Ask(c, k, t)), rs, c, t, u);
    assert (cfg.burst - k) * TOKEN == cfg.Capacity() - k * TOKEN;
  }
}
