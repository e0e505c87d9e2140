/** The worker pool up to `Stop` (internal/performance/worker_pool.go): two bounded queues,
    a dispatcher that carries priority jobs into the ordinary queue, and workers that take
    from either queue. */
module WorkerPool {

  import opened Common

  /** The job types with a handler, or any other text. */
  datatype JobType = Reconcile | HealthCheck | Cleanup | CacheOperation | Unknown(name: string)

  datatype Job = Job(id: string, kind: JobType, payloadFits: bool, priority: int, hasCallback: bool)

  /** `processJob`: known types with a payload of the right Go type succeed. */
  predicate Succeeds(job: Job) {
    !job.kind.Unknown? && job.payloadFits
  }

  datatype Pool = Pool(
    workerCount: nat,
    started: bool,
    jobQueue: seq<Job>,
    priorityQueue: seq<Job>,
    hand: Option<Job>,              // taken by the dispatcher, not yet sent on
    running: multiset<Job>,         // in a worker, result not yet counted
    settled: multiset<Job>,         // in a worker, counted, callback not yet made
    completed: multiset<Job>,
    failed: multiset<Job>,
    callbacks: multiset<Job>,
    accepted: multiset<Job>)        // every successful submission

  function JobCapacity(p: Pool): nat { p.workerCount * 10 }

  function PriorityCapacity(p: Pool): nat { p.workerCount * 10 / 4 }

  function New(workerCount: nat): Pool {
    Pool(workerCount, false, [], [], None, multiset{}, multiset{}, multiset{}, multiset{}, multiset{}, multiset{})
  }

  /** A worker is between jobs. */
  predicate SomeWorkerIdle(p: Pool) {
    |p.running| + |p.settled| < p.workerCount
  }

  /** Whether `Submit` finds room; `SubmitWithTimeout` may wait for it. */
  predicate Accepts(p: Pool, job: Job) {
    && p.started
    && if job.priority > 5 then |p.priorityQueue| < PriorityCapacity(p) else |p.jobQueue| < JobCapacity(p)
  }

  datatype Step =
    | Start
    | Submit(job: Job)              // an accepted submission
    | DispatcherTakes
    | DispatcherSends
    | WorkerTakesJob
    | WorkerTakesPriority
    | Settle(job: Job)              // count the result
    | Finish(job: Job)              // make the callback and go back for more

  predicate Enabled(p: Pool, step: Step) {
    match step
    case Start => !p.started
    case Submit(job) => Accepts(p, job)
    case DispatcherTakes => p.started && p.priorityQueue != [] && p.hand.None?
    case DispatcherSends => p.hand.Some? && |p.jobQueue| < JobCapacity(p)
    case WorkerTakesJob => p.started && p.jobQueue != [] && SomeWorkerIdle(p)
    case WorkerTakesPriority => p.started && p.priorityQueue != [] && SomeWorkerIdle(p)
    case Settle(job) => job in p.running
    case Finish(job) => job in p.settled
  }

  function Next(p: Pool, step: Step): Pool
    requires Enabled(p, step)
  {
    match step
    case Start => p.(started := true)
    case Submit(job) =>
      if job.priority > 5 then p.(priorityQueue := p.priorityQueue + [job], accepted := p.accepted + multiset{job})
      else p.(jobQueue := p.jobQueue + [job], accepted := p.accepted + multiset{job})
    case DispatcherTakes => p.(priorityQueue := p.priorityQueue[1..], hand := Some(p.priorityQueue[0]))
    case DispatcherSends => p.(jobQueue := p.jobQueue + [p.hand.value], hand := None)
    case WorkerTakesJob => p.(jobQueue := p.jobQueue[1..], running := p.running + multiset{p.jobQueue[0]})
    case WorkerTakesPriority =>
      p.(priorityQueue := p.priorityQueue[1..], running := p.running + multiset{p.priorityQueue[0]})
    case Settle(job) =>
      var q := p.(running := p.running - multiset{job}, settled := p.settled + multiset{job});
      if Succeeds(job) then q.(completed := p.completed + multiset{job}) else q.(failed := p.failed + multiset{job})
    case Finish(job) =>
      var q := p.(settled := p.settled - multiset{job});
      if job.hasCallback then q.(callbacks := p.callbacks + multiset{job}) else q
  }

  function Run(p: Pool, steps: seq<Step>): (r: Option<Pool>)
    decreases |steps|
  {
    if steps == [] then Some(p)
    else if Enabled(p, steps[0]) then Run(Next(p, steps[0]), steps[1..])
    else None
  }

  /* ---------- Conservation ---------- */

  function InHand(p: Pool): multiset<Job> {
    if p.hand.Some? then multiset{p.hand.value} else multiset{}
  }

  /** Accepted and not yet counted as completed or failed. */
  function Unfinished(p: Pool): multiset<Job> {
    multiset(p.jobQueue) + multiset(p.priorityQueue) + InHand(p) + p.running
  }

  ghost predicate Conserved(p: Pool) {
    p.accepted == Total(multiset(p.jobQueue), multiset(p.priorityQueue), InHand(p), p.running, p.completed, p.failed)
  }

  ghost predicate Bounded(p: Pool) {
    && |p.jobQueue| <= JobCapacity(p) && |p.priorityQueue| <= PriorityCapacity(p)
    && |p.running| + |p.settled| <= p.workerCount
    && (p.jobQueue != [] || p.priorityQueue != [] || p.hand.Some? ==> p.started)
  }

  /** Finished jobs are counted by their own outcome, and each was called back, or is about to
      be, once per time it was processed. */
  ghost predicate Settled(p: Pool) {
    && (forall j <- p.completed :: Succeeds(j))
    && (forall j <- p.failed :: !Succeeds(j))
    && (forall j: Job :: j.hasCallback ==> p.callbacks[j] + p.settled[j] == p.completed[j] + p.failed[j])
    && (forall j: Job :: !j.hasCallback ==> p.callbacks[j] == 0)
  }

  ghost predicate Inv(p: Pool) {
    Conserved(p) && Bounded(p) && Settled(p)
  }

  lemma HeadAndTail(s: seq<Job>)
    requires s != []
    ensures multiset(s) == multiset(s[1..]) + multiset{s[0]}
  {
    assert s == [s[0]] + s[1..];
  }

  lemma Appended(s: seq<Job>, job: Job)
    ensures multiset(s + [job]) == multiset(s) + multiset{job}
  {
  }

  /** The same job counted in any one of the places comes to the same total. */
  function Total(a: multiset<Job>, b: multiset<Job>, c: multiset<Job>, d: multiset<Job>,
                 e: multiset<Job>, f: multiset<Job>): multiset<Job> {
    a + b + c + d + e + f
  }

  lemma InAnyQueue(a: multiset<Job>, b: multiset<Job>, c: multiset<Job>, d: multiset<Job>,
                   e: multiset<Job>, f: multiset<Job>, job: Job)
    ensures Total(a + multiset{job}, b, c, d, e, f) == Total(a, b, c, d, e, f) + multiset{job}
    ensures Total(a, b + multiset{job}, c, d, e, f) == Total(a, b, c, d, e, f) + multiset{job}
    ensures Total(a, b, c + multiset{job}, d, e, f) == Total(a, b, c, d, e, f) + multiset{job}
  {
  }

  lemma InAnyWorker(a: multiset<Job>, b: multiset<Job>, c: multiset<Job>, d: multiset<Job>,
                    e: multiset<Job>, f: multiset<Job>, job: Job)
    ensures Total(a, b, c, d + multiset{job}, e, f) == Total(a, b, c, d, e, f) + multiset{job}
    ensures Total(a, b, c, d, e + multiset{job}, f) == Total(a, b, c, d, e, f) + multiset{job}
    ensures Total(a, b, c, d, e, f + multiset{job}) == Total(a, b, c, d, e, f) + multiset{job}
  {
  }

  lemma OneJob(job: Job)
    ensures multiset{} + multiset{job} == multiset{job}
  {
  }

  lemma SubmitConserves(p: Pool, job: Job)
    requires Conserved(p) && Accepts(p, job)
    ensures Conserved(Next(p, Submit(job)))
  {
    Appended(p.jobQueue, job);
    Appended(p.priorityQueue, job);
    InAnyQueue(multiset(p.jobQueue), multiset(p.priorityQueue), InHand(p), p.running, p.completed, p.failed, job);
  }

  lemma TakenByDispatcherConserves(p: Pool)
    requires Conserved(p) && Enabled(p, DispatcherTakes)
    ensures Conserved(Next(p, DispatcherTakes))
  {
    var job, rest := p.priorityQueue[0], multiset(p.priorityQueue[1..]);
    HeadAndTail(p.priorityQueue);
    OneJob(job);
    InAnyQueue(multiset(p.jobQueue), rest, multiset{}, p.running, p.completed, p.failed, job);
  }

  lemma SentByDispatcherConserves(p: Pool)
    requires Conserved(p) && Enabled(p, DispatcherSends)
    ensures Conserved(Next(p, DispatcherSends))
  {
    var job := p.hand.value;
    Appended(p.jobQueue, job);
    OneJob(job);
    InAnyQueue(multiset(p.jobQueue), multiset(p.priorityQueue), multiset{}, p.running, p.completed, p.failed, job);
  }

  lemma TakeJobConserves(p: Pool)
    requires Conserved(p) && Enabled(p, WorkerTakesJob)
    ensures Conserved(Next(p, WorkerTakesJob))
  {
    var job, rest := p.jobQueue[0], multiset(p.jobQueue[1..]);
    HeadAndTail(p.jobQueue);
    InAnyQueue(rest, multiset(p.priorityQueue), InHand(p), p.running, p.completed, p.failed, job);
    InAnyWorker(rest, multiset(p.priorityQueue), InHand(p), p.running, p.completed, p.failed, job);
  }

  lemma TakePriorityConserves(p: Pool)
    requires Conserved(p) && Enabled(p, WorkerTakesPriority)
    ensures Conserved(Next(p, WorkerTakesPriority))
  {
    var job, rest := p.priorityQueue[0], multiset(p.priorityQueue[1..]);
    HeadAndTail(p.priorityQueue);
    InAnyQueue(multiset(p.jobQueue), rest, InHand(p), p.running, p.completed, p.failed, job);
    InAnyWorker(multiset(p.jobQueue), rest, InHand(p), p.running, p.completed, p.failed, job);
  }

  lemma SettleConserves(p: Pool, job: Job)
    requires Conserved(p) && job in p.running
    ensures Conserved(Next(p, Settle(job)))
  {
    var t := Next(p, Settle(job));
    PutBackOne(p.running, job);
    InAnyWorker(multiset(p.jobQueue), multiset(p.priorityQueue), InHand(p), t.running, p.completed, p.failed, job);
  }

  lemma PutBackOne(m: multiset<Job>, job: Job)
    requires job in m
    ensures m == m - multiset{job} + multiset{job}
  {
  }

  lemma StepConserves(p: Pool, step: Step)
    requires Conserved(p) && Enabled(p, step)
    ensures Conserved(Next(p, step))
  {
    match step
    case Start => SamePlaces(p, step);
    case Submit(job) => SubmitConserves(p, job);
    case DispatcherTakes => TakenByDispatcherConserves(p);
    case DispatcherSends => SentByDispatcherConserves(p);
    case WorkerTakesJob => TakeJobConserves(p);
    case WorkerTakesPriority => TakePriorityConserves(p);
    case Settle(job) => SettleConserves(p, job);
    case Finish(job) => SamePlaces(p, step);
  }

  lemma SamePlaces(p: Pool, step: Step)
    requires Conserved(p) && Enabled(p, step) && (step.Start? || step.Finish?)
    ensures Conserved(Next(p, step))
  {
    var t := Next(p, step);
    assert t.jobQueue == p.jobQueue && t.priorityQueue == p.priorityQueue && t.hand == p.hand && t.running == p.running;
    assert t.completed == p.completed && t.failed == p.failed && t.accepted == p.accepted;
  }

  lemma StepStaysBounded(p: Pool, step: Step)
    requires Bounded(p) && Enabled(p, step)
    ensures Bounded(Next(p, step))
  {
    match step
    case Settle(job) => OneFewer(p.running, job);
    case Finish(job) => OneFewer(p.settled, job);
    case _ =>
  }

  lemma OneFewer(m: multiset<Job>, job: Job)
    requires job in m
    ensures |m - multiset{job}| == |m| - 1
  {
  }

  lemma StepSettles(p: Pool, step: Step)
    requires Settled(p) && Enabled(p, step)
    ensures Settled(Next(p, step))
  {
    match step
    case Settle(job) => SettleSettles(p, job);
    case Finish(job) => FinishSettles(p, job);
    case _ =>
      var t := Next(p, step);
      assert t.completed == p.completed && t.failed == p.failed && t.settled == p.settled && t.callbacks == p.callbacks;
  }

  lemma SettleSettles(p: Pool, job: Job)
    requires Settled(p) && job in p.running
    ensures Settled(Next(p, Settle(job)))
  {
  }

  lemma FinishSettles(p: Pool, job: Job)
    requires Settled(p) && job in p.settled
    ensures Settled(Next(p, Finish(job)))
  {
  }

  lemma {:induction false} RunKeepsInv(p: Pool, steps: seq<Step>)
    requires Inv(p) && Run(p, steps).Some?
    ensures Inv(Run(p, steps).value) && Run(p, steps).value.workerCount == p.workerCount
    decreases |steps|
  {
    if steps != [] {
      StepConserves(p, steps[0]);
      StepStaysBounded(p, steps[0]);
      StepSettles(p, steps[0]);
      RunKeepsInv(Next(p, steps[0]), steps[1..]);
    }
  }

  /** In every interleaving, each accepted job is in exactly one place, is processed and called
      back at most once, and is counted by its own outcome. */
  lemma NoJobLostOrRepeated(workerCount: nat, steps: seq<Step>)
    requires Run(New(workerCount), steps).Some?
    ensures var p := Run(New(workerCount), steps).value;
      && p.accepted == multiset(p.jobQueue) + multiset(p.priorityQueue) + InHand(p) + p.running + p.completed + p.failed
      && (forall j: Job :: p.callbacks[j] <= p.completed[j] + p.failed[j] <= p.accepted[j])
      && (forall j <- p.completed :: Succeeds(j)) && (forall j <- p.failed :: !Succeeds(j))
  {
    RunKeepsInv(New(workerCount), steps);
  }

  /** Accepted jobs not yet finished never exceed both queues, the dispatcher's hand and one
      per worker. */
  lemma BacklogIsBounded(workerCount: nat, steps: seq<Step>)
    requires Run(New(workerCount), steps).Some?
    ensures var p := Run(New(workerCount), steps).value;
      |p.accepted| - |p.completed| - |p.failed| <= 10 * workerCount + 10 * workerCount / 4 + 1 + workerCount
  {
    RunKeepsInv(New(workerCount), steps);
    var p := Run(New(workerCount), steps).value;
    assert |p.accepted| == |Unfinished(p)| + |p.completed| + |p.failed|;
    assert |multiset(p.jobQueue)| == |p.jobQueue| && |multiset(p.priorityQueue)| == |p.priorityQueue|;
    assert |Unfinished(p)| == |p.jobQueue| + |p.priorityQueue| + |InHand(p)| + |p.running|;
  }

  /* ---------- Draining ---------- */

  /** Steps of the pool itself, as opposed to its callers. */
  predicate Internal(step: Step) {
    !step.Start? && !step.Submit?
  }

  /** How many internal steps the pending work can still take. */
  function Work(p: Pool): nat {
    5 * |p.priorityQueue| + 4 * (if p.hand.Some? then 1 else 0) + 3 * |p.jobQueue| + 2 * |p.running| + |p.settled|
  }

  lemma InternalStepWorks(p: Pool, step: Step)
    requires Enabled(p, step) && Internal(step)
    ensures Work(Next(p, step)) < Work(p)
  {
    var t := Next(p, step);
    match step
    case Settle(job) => assert |t.running| == |p.running| - 1 && |t.settled| == |p.settled| + 1;
    case Finish(job) => assert |t.settled| == |p.settled| - 1;
    case DispatcherTakes => assert |t.priorityQueue| == |p.priorityQueue| - 1;
    case DispatcherSends => assert |t.jobQueue| == |p.jobQueue| + 1;
    case WorkerTakesJob => assert |t.jobQueue| == |p.jobQueue| - 1 && |t.running| == |p.running| + 1;
    case WorkerTakesPriority => assert |t.priorityQueue| == |p.priorityQueue| - 1 && |t.running| == |p.running| + 1;
  }

  /** Nothing is ever stuck: while work is pending, some internal step is possible. */
  lemma WorkIsPossible(p: Pool)
    requires Bounded(p) && p.workerCount >= 1 && Work(p) > 0
    ensures exists step :: Internal(step) && Enabled(p, step)
  {
    if |p.settled| > 0 {
      var job :| job in p.settled;
      assert Enabled(p, Finish(job));
    } else if |p.running| > 0 {
      var job :| job in p.running;
      assert Enabled(p, Settle(job));
    } else if p.jobQueue != [] {
      assert Enabled(p, WorkerTakesJob);
    } else if p.hand.Some? {
      assert Enabled(p, DispatcherSends);
    } else {
      assert Enabled(p, DispatcherTakes);
    }
  }

  lemma NoWorkLeft(p: Pool)
    requires Inv(p) && Work(p) == 0
    ensures p.completed + p.failed == p.accepted
    ensures forall j: Job :: p.callbacks[j] == if j.hasCallback then p.accepted[j] else 0
  {
    assert |p.running| == 0 && |p.settled| == 0 && p.jobQueue == [] && p.priorityQueue == [] && p.hand.None?;
    assert Unfinished(p) == multiset{};
  }

  lemma {:induction false} InternalRunIsShort(p: Pool, steps: seq<Step>)
    requires Run(p, steps).Some? && forall s <- steps :: Internal(s)
    ensures |steps| + Work(Run(p, steps).value) <= Work(p)
    ensures Run(p, steps).value.accepted == p.accepted
    decreases |steps|
  {
    if steps != [] {
      assert steps[0] in steps;
      InternalStepWorks(p, steps[0]);
      InternalRunIsShort(Next(p, steps[0]), steps[1..]);
    }
  }

  /** Once submissions stop, every run of the pool is finite, and one that cannot continue has
      finished every accepted job and made every callback. */
  lemma PoolDrains(workerCount: nat, before: seq<Step>, steps: seq<Step>)
    requires workerCount >= 1 && Run(New(workerCount), before).Some?
    requires Run(Run(New(workerCount), before).value, steps).Some? && forall s <- steps :: Internal(s)
    ensures |steps| <= Work(Run(New(workerCount), before).value)
    ensures var p := Run(Run(New(workerCount), before).value, steps).value;
      (forall step | Internal(step) :: !Enabled(p, step)) ==>
        && p.completed + p.failed == p.accepted
        && (forall j: Job :: p.callbacks[j] == if j.hasCallback then p.accepted[j] else 0)
  {
    var mid := Run(New(workerCount), before).value;
    var p := Run(mid, steps).value;
    RunKeepsInv(New(workerCount), before);
    RunKeepsInv(mid, steps);
    InternalRunIsShort(mid, steps);
    if Work(p) > 0 {
      WorkIsPossible(p);
    } else {
      NoWorkLeft(p);
    }
  }
}
