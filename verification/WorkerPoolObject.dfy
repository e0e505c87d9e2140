/** The worker pool's methods on its channels and counters, each shown to make the steps of
    `WorkerPool`. */
module WorkerPoolObject {
  import opened Common
  import opened WorkerPool

  lemma {:induction false} RunSnoc(p: Pool, steps: seq<Step>, step: Step)
    requires Run(p, steps).Some? && Enabled(Run(p, steps).value, step)
    ensures Run(p, steps + [step]) == Some(Next(Run(p, steps).value, step))
    decreases |steps|
  {
    if steps == [] {
      assert (steps + [step])[1..] == [];
    } else {
      assert (steps + [step])[0] == steps[0] && (steps + [step])[1..] == steps[1..] + [step];
      RunSnoc(Next(p, steps[0]), steps[1..], step);
    }
  }

  lemma SettleCounts(p: Pool, job: Job)
    requires job in p.running
    ensures var t := Next(p, Settle(job));
      && |t.completed| == |p.completed| + (if Succeeds(job) then 1 else 0)
      && |t.failed| == |p.failed| + (if Succeeds(job) then 0 else 1)
      && t.started == p.started && t.jobQueue == p.jobQueue && t.priorityQueue == p.priorityQueue
      && job in t.settled && t.accepted == p.accepted && t.workerCount == p.workerCount
  {
  }

  class PoolObject {
    const workerCount: nat
    const maxQueueSize: nat
    var started: bool
    var jobQueue: seq<Job>
    var priorityQueue: seq<Job>
    var totalJobs: nat
    var completedJobs: nat
    var failedJobs: nat
    ghost var model: Pool
    ghost var steps: seq<Step>

    ghost predicate Traced()
      reads this
    {
      Run(New(workerCount), steps) == Some(model)
    }

    ghost predicate Valid()
      reads this
    {
      && maxQueueSize == workerCount * 10 && model.workerCount == workerCount
      && model.started == started && model.jobQueue == jobQueue && model.priorityQueue == priorityQueue
      && totalJobs == |model.accepted| && completedJobs == |model.completed| && failedJobs == |model.failed|
      && Traced()
    }

    constructor (workerCount: nat)
      ensures Valid() && model == New(workerCount)
    {
      this.workerCount, maxQueueSize := workerCount, workerCount * 10;
      started, jobQueue, priorityQueue := false, [], [];
      totalJobs, completedJobs, failedJobs := 0, 0, 0;
      model, steps := New(workerCount), [];
    }

    ghost method Record(step: Step)
      requires Traced() && Enabled(model, step)
      modifies this`model, this`steps
      ensures Traced() && model == Next(old(model), step) && steps == old(steps) + [step]
    {
      RunSnoc(New(workerCount), steps, step);
      model, steps := Next(model, step), steps + [step];
    }

    method Start() returns (ok: bool)
      requires Valid()
      modifies this
      ensures Valid() && old(steps) <= steps && ok == !old(started) && started
      ensures model == if ok then Next(old(model), Step.Start) else old(model)
    {
      if started {
        return false;
      }
      Record(Step.Start);
      started := true;
      return true;
    }

    method Submit(job: Job) returns (ok: bool)
      requires Valid()
      modifies this
      ensures Valid() && ok == Accepts(old(model), job)
      ensures model == if ok then Next(old(model), Step.Submit(job)) else old(model)
      ensures !old(started) ==> !ok
      ensures old(started) && job.priority > 5 ==> ok == (|old(priorityQueue)| < workerCount * 10 / 4)
      ensures old(started) && job.priority <= 5 ==> ok == (|old(jobQueue)| < workerCount * 10)
      ensures totalJobs == old(totalJobs) + if ok then 1 else 0
      ensures priorityQueue == old(priorityQueue) + if ok && job.priority > 5 then [job] else []
      ensures jobQueue == old(jobQueue) + if ok && job.priority <= 5 then [job] else []
    {
      if !started {
        return false;
      }
      if job.priority > 5 {
        if |priorityQueue| >= maxQueueSize / 4 {
          return false;
        }
        Record(Step.Submit(job));
        priorityQueue := priorityQueue + [job];
      } else {
        if |jobQueue| >= maxQueueSize {
          return false;
        }
        Record(Step.Submit(job));
        jobQueue := jobQueue + [job];
      }
      totalJobs := totalJobs + 1;
      return true;
    }

    /** Waits for room; `inTime` says whether the send beats the deadline, which it can only
        do when there is room. */
    method SubmitWithTimeout(job: Job, inTime: bool) returns (ok: bool)
      requires Valid() && (inTime && started ==> Accepts(model, job))
      modifies this
      ensures Valid() && ok == (old(started) && inTime) && (ok ==> Accepts(old(model), job))
      ensures model == if ok then Next(old(model), Step.Submit(job)) else old(model)
      ensures totalJobs == old(totalJobs) + if ok then 1 else 0
      ensures priorityQueue == old(priorityQueue) + if ok && job.priority > 5 then [job] else []
      ensures jobQueue == old(jobQueue) + if ok && job.priority <= 5 then [job] else []
    {
      if !started || !inTime {
        return false;
      }
      Record(Step.Submit(job));
      if job.priority > 5 {
        priorityQueue := priorityQueue + [job];
      } else {
        jobQueue := jobQueue + [job];
      }
      totalJobs := totalJobs + 1;
      return true;
    }

    /** One iteration of the dispatcher, its send unblocked. */
    method Dispatch() returns (sent: bool)
      requires Valid() && started && model.hand.None?
      modifies this
      ensures Valid() && old(steps) <= steps && model.hand.None?
      ensures sent == (old(priorityQueue) != [] && |old(jobQueue)| < workerCount * 10)
      ensures sent ==> jobQueue == old(jobQueue) + [old(priorityQueue)[0]] && priorityQueue == old(priorityQueue)[1..]
      ensures !sent ==> jobQueue == old(jobQueue) && priorityQueue == old(priorityQueue)
    {
      if |priorityQueue| == 0 || |jobQueue| >= maxQueueSize {
        return false;
      }
      var job := priorityQueue[0];
      Record(DispatcherTakes);
      priorityQueue := priorityQueue[1..];
      Record(DispatcherSends);
      jobQueue := jobQueue + [job];
      return true;
    }

    /** One iteration of an idle worker; Go picks either ready queue. */
    method Work(preferPriority: bool) returns (job: Option<Job>)
      requires Valid() && started && SomeWorkerIdle(model)
      modifies this
      ensures Valid() && old(steps) <= steps
      ensures job.None? <==> old(jobQueue) == [] && old(priorityQueue) == []
      ensures job.Some? ==>
        if old(jobQueue) == [] || (preferPriority && old(priorityQueue) != [])
        then job.value == old(priorityQueue)[0] && priorityQueue == old(priorityQueue)[1..] && jobQueue == old(jobQueue)
        else job.value == old(jobQueue)[0] && jobQueue == old(jobQueue)[1..] && priorityQueue == old(priorityQueue)
      ensures job.Some? ==> var ok := job.value.kind in {Reconcile, HealthCheck, Cleanup, CacheOperation} && job.value.payloadFits;
        completedJobs == old(completedJobs) + (if ok then 1 else 0) && failedJobs == old(failedJobs) + (if ok then 0 else 1)
      ensures totalJobs == old(totalJobs)
    {
      if |jobQueue| == 0 && |priorityQueue| == 0 {
        return None;
      }
      var next: Job;
      if |jobQueue| == 0 || (preferPriority && |priorityQueue| > 0) {
        next := priorityQueue[0];
        Record(WorkerTakesPriority);
        priorityQueue := priorityQueue[1..];
      } else {
        next := jobQueue[0];
        Record(WorkerTakesJob);
        jobQueue := jobQueue[1..];
      }
      ProcessJob(next);
      return Some(next);
    }

    method ProcessJob(job: Job)
      requires Valid() && job in model.running
      modifies this`completedJobs, this`failedJobs, this`model, this`steps
      ensures Valid() && steps == old(steps) + [Settle(job), Finish(job)]
      ensures if job.kind in {Reconcile, HealthCheck, Cleanup, CacheOperation} && job.payloadFits
              then completedJobs == old(completedJobs) + 1 && failedJobs == old(failedJobs)
              else failedJobs == old(failedJobs) + 1 && completedJobs == old(completedJobs)
    {
      var ok := false;
      if job.kind == Reconcile || job.kind == HealthCheck || job.kind == Cleanup || job.kind == CacheOperation {
        ok := job.payloadFits;
      }
      CountResult(job, ok);
      Record(Finish(job));
    }

    /** The result enters the statistics before the callback is made. */
    method CountResult(job: Job, ok: bool)
      requires Valid() && job in model.running && ok == Succeeds(job)
      modifies this`completedJobs, this`failedJobs, this`model, this`steps
      ensures Valid() && steps == old(steps) + [Settle(job)] && job in model.settled
      ensures if ok then completedJobs == old(completedJobs) + 1 && failedJobs == old(failedJobs)
              else failedJobs == old(failedJobs) + 1 && completedJobs == old(completedJobs)
    {
      SettleCounts(model, job);
      Record(Settle(job));
      if !ok {
        failedJobs := failedJobs + 1;
      } else {
        completedJobs := completedJobs + 1;
      }
    }
  }
}
