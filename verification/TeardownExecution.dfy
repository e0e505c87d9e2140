/** Teardown executions: the six-step plan, run by any number of goroutines at once under a cap
    (internal/teardown/execution.go, manager.go). */
module TeardownExecution {

  import opened Common

  datatype StepName =
    | PreTeardownHooks | GracefulShutdown | DataPreservation | ResourceTeardown | Cleanup | PostTeardownHooks

  const PLAN: seq<StepName> :=
    [PreTeardownHooks, GracefulShutdown, DataPreservation, ResourceTeardown, Cleanup, PostTeardownHooks]

  datatype Status = Pending | Running | Completed | Failed

  datatype StepRecord = StepRecord(name: StepName, status: Status)

  datatype Execution = Execution(status: Status, steps: seq<StepRecord>, progress: int)

  const NEW := Execution(Pending, [], 0)

  /** A failure of one of these ends the execution; a failure of any other step is only logged. */
  predicate Fatal(name: StepName) {
    name == PreTeardownHooks || name == DataPreservation || name == ResourceTeardown
  }

  /* ---------- One execution, move by move ---------- */

  /** The atomic moves of the goroutine running an execution: entering Execute, appending a step
      record, a step function returning, and storing the final status. */
  datatype Move = Launch | Start | Finish(ok: bool) | Conclude

  function Last(e: Execution): StepRecord
    requires e.steps != []
  {
    e.steps[|e.steps| - 1]
  }

  /** Execute has returned an error. */
  predicate Aborted(e: Execution) {
    e.steps != [] && Last(e).status == Failed && Fatal(Last(e).name)
  }

  predicate Busy(e: Execution) {
    e.steps != [] && Last(e).status == Running
  }

  /** Execute has returned. */
  predicate Returned(e: Execution) {
    e.status == Running && !Busy(e) && (Aborted(e) || |e.steps| >= 6)
  }

  function Do(e: Execution, m: Move): Option<Execution> {
    match m
    case Launch =>
      if e.status == Pending then Some(e.(status := Running)) else None
    case Start =>
      if e.status == Running && !Busy(e) && !Aborted(e) && |e.steps| < 6
      then Some(e.(steps := e.steps + [StepRecord(PLAN[|e.steps|], Running)]))
      else None
    case Finish(ok) =>
      if e.status == Running && Busy(e) then
        var done := Last(e).(status := if ok then Completed else Failed);
        var n := |e.steps|;
        Some(e.(steps := e.steps[n - 1 := done], progress := if ok then n * 100 / 6 else e.progress))
      else None
    case Conclude =>
      if Returned(e) then
        Some(if Aborted(e) then e.(status := Failed) else e.(status := Completed, progress := 100))
      else None
  }

  /** The progress earned by a list of step records: that of the last completed one. */
  function Earned(steps: seq<StepRecord>): (p: int)
    ensures 0 <= p <= |steps| * 100 / 6
  {
    if steps == [] then 0
    else if steps[|steps| - 1].status == Completed then |steps| * 100 / 6
    else Earned(steps[..|steps| - 1])
  }

  ghost predicate Sound(e: Execution) {
    && |e.steps| <= 6
    && (forall i | 0 <= i < |e.steps| :: e.steps[i].name == PLAN[i])
    && (forall i | 0 <= i < |e.steps| - 1 :: Passed(e.steps[i]))
    && (e.steps != [] ==> Last(e).status != Pending)
    && (e.status == Pending ==> e.steps == [])
    && (e.status == Failed ==> Aborted(e))
    && (e.status == Completed ==> |e.steps| == 6 && Passed(Last(e)))
    && e.progress == if e.status == Completed then 100 else Earned(e.steps)
  }

  /** A step that is over and did not end the execution. */
  predicate Passed(s: StepRecord) {
    s.status == Completed || (s.status == Failed && !Fatal(s.name))
  }

  lemma StartKeepsSound(e: Execution)
    requires Sound(e) && Do(e, Start).Some?
    ensures Sound(Do(e, Start).value)
  {
    var f := Do(e, Start).value;
    assert f.steps[..|f.steps| - 1] == e.steps;
    assert e.steps != [] ==> Passed(Last(e));
  }

  lemma FinishKeepsSound(e: Execution, ok: bool)
    requires Sound(e) && Do(e, Finish(ok)).Some?
    ensures Sound(Do(e, Finish(ok)).value)
  {
    var f := Do(e, Finish(ok)).value;
    assert f.steps[..|f.steps| - 1] == e.steps[..|e.steps| - 1];
  }

  lemma ConcludeKeepsSound(e: Execution)
    requires Sound(e) && Do(e, Conclude).Some?
    ensures Sound(Do(e, Conclude).value)
  {
  }

  lemma MoveKeepsSound(e: Execution, m: Move)
    requires Sound(e) && Do(e, m).Some?
    ensures Sound(Do(e, m).value)
  {
    match m
    case Launch =>
    case Start => StartKeepsSound(e);
    case Finish(ok) => FinishKeepsSound(e, ok);
    case Conclude => ConcludeKeepsSound(e);
  }

  /** `f` continues `e`: records are only added, a step that is over keeps its record, and progress
      does not go back. */
  ghost predicate Continues(e: Execution, f: Execution) {
    && |e.steps| <= |f.steps|
    && (forall i | 0 <= i < |e.steps| :: e.steps[i].name == f.steps[i].name)
    && (forall i | 0 <= i < |e.steps| :: e.steps[i].status != Running ==> e.steps[i] == f.steps[i])
    && e.progress <= f.progress
  }

  lemma MoveContinues(e: Execution, m: Move)
    requires Sound(e) && Do(e, m).Some?
    ensures Continues(e, Do(e, m).value)
  {
    if m.Finish? {
      var n := |e.steps|;
      assert e.progress == Earned(e.steps[..n - 1]) <= (n - 1) * 100 / 6;
    }
  }

  /* ---------- All executions ---------- */

  /** `active` is the manager's table; `finished` remembers executions after their deferred removal. */
  datatype World = World(active: map<nat, Execution>, finished: map<nat, Execution>)

  datatype Step = Admit(id: nat) | Act(id: nat, move: Move) | Release(id: nat)

  const EMPTY := World(map[], map[])

  function Apply(max: int, w: World, s: Step): Option<World> {
    match s
    case Admit(id) =>
      // generated ids are new; a full table refuses and changes nothing
      if id in w.active || id in w.finished then None
      else if |w.active| >= max then Some(w)
      else Some(w.(active := w.active[id := NEW]))
    case Act(id, m) =>
      if id in w.active && Do(w.active[id], m).Some?
      then Some(w.(active := w.active[id := Do(w.active[id], m).value]))
      else None
    case Release(id) =>
      if id in w.active && (w.active[id].status == Completed || w.active[id].status == Failed)
      then Some(World(w.active - {id}, w.finished[id := w.active[id]]))
      else None
  }

  function Run(max: int, w: World, steps: seq<Step>): Option<World>
    decreases |steps|
  {
    if steps == [] then Some(w)
    else
      var next := Apply(max, w, steps[0]);
      if next.None? then None else Run(max, next.value, steps[1..])
  }

  function Bound(max: int): nat {
    if max < 0 then 0 else max
  }

  ghost predicate AllSound(active: map<nat, Execution>) {
    forall id <- active :: Sound(active[id])
  }

  predicate AllOver(finished: map<nat, Execution>) {
    forall id <- finished :: Over(finished[id])
  }

  ghost predicate Inv(max: int, w: World) {
    && |w.active| <= Bound(max)
    && w.active.Keys !! w.finished.Keys
    && AllSound(w.active)
    && AllSound(w.finished) && AllOver(w.finished)
  }

  predicate Over(e: Execution) {
    e.status == Completed || e.status == Failed
  }

  predicate Known(w: World, id: nat) {
    id in w.active || id in w.finished
  }

  function The(w: World, id: nat): Execution
    requires Known(w, id)
  {
    if id in w.active then w.active[id] else w.finished[id]
  }

  /** `v` may follow `w`: every execution is still known and has only moved on. */
  ghost predicate Later(w: World, v: World) {
    forall id | Known(w, id) :: Known(v, id) && Continues(The(w, id), The(v, id))
  }

  lemma Unmoved(w: World, v: World)
    requires forall id | Known(w, id) :: Known(v, id) && The(v, id) == The(w, id)
    ensures Later(w, v)
  {
  }

  lemma NewIsSound()
    ensures Sound(NEW)
  {
  }

  lemma RoomForOne(active: map<nat, Execution>, id: nat)
    requires id !in active
    ensures |active[id := NEW]| == |active| + 1
  {
    assert active[id := NEW].Keys == active.Keys + {id};
    assert |active[id := NEW]| == |active[id := NEW].Keys|;
  }

  lemma AdmitKeepsInv(max: int, w: World, id: nat)
    requires Inv(max, w) && Apply(max, w, Admit(id)).Some?
    ensures Inv(max, Apply(max, w, Admit(id)).value) && Later(w, Apply(max, w, Admit(id)).value)
  {
    var v := Apply(max, w, Admit(id)).value;
    if |w.active| < max {
      RoomForOne(w.active, id);
      NewIsSound();
      assert v.active.Keys !! v.finished.Keys;
    }
    Unmoved(w, v);
  }

  lemma ActMovesOn(max: int, w: World, id: nat, m: Move)
    requires Inv(max, w) && Apply(max, w, Act(id, m)).Some?
    ensures Later(w, Apply(max, w, Act(id, m)).value)
  {
    var v := Apply(max, w, Act(id, m)).value;
    MoveContinues(w.active[id], m);
    forall k | Known(w, k) ensures Known(v, k) && Continues(The(w, k), The(v, k)) {
      if k != id {
        assert The(v, k) == The(w, k);
      }
    }
  }

  lemma ActKeepsInv(max: int, w: World, id: nat, m: Move)
    requires Inv(max, w) && Apply(max, w, Act(id, m)).Some?
    ensures Inv(max, Apply(max, w, Act(id, m)).value)
  {
    var f := Do(w.active[id], m).value;
    MoveKeepsSound(w.active[id], m);
    SameSize(w.active, id, f);
    ReplaceKeepsSound(w.active, id, f);
  }

  lemma SameSize(active: map<nat, Execution>, id: nat, e: Execution)
    requires id in active
    ensures active[id := e].Keys == active.Keys && |active[id := e]| == |active|
  {
    assert active[id := e].Keys == active.Keys;
    assert |active[id := e]| == |active[id := e].Keys|;
  }

  lemma ReplaceKeepsSound(active: map<nat, Execution>, id: nat, e: Execution)
    requires Sound(e) && AllSound(active)
    ensures AllSound(active[id := e])
  {
  }

  lemma ReleaseKeepsInv(max: int, w: World, id: nat)
    requires Inv(max, w) && Apply(max, w, Release(id)).Some?
    ensures Inv(max, Apply(max, w, Release(id)).value) && Later(w, Apply(max, w, Release(id)).value)
  {
    var v := Apply(max, w, Release(id)).value;
    RemoveKeepsSound(w.active, id);
    ReplaceKeepsSound(w.finished, id, w.active[id]);
    assert v.active.Keys !! v.finished.Keys;
    Unmoved(w, v);
  }

  lemma RemoveKeepsSound(active: map<nat, Execution>, id: nat)
    requires id in active && AllSound(active)
    ensures AllSound(active - {id}) && |active - {id}| == |active| - 1
  {
    assert (active - {id}).Keys == active.Keys - {id};
    assert |active - {id}| == |(active - {id}).Keys|;
  }

  lemma StepKeepsInv(max: int, w: World, s: Step)
    requires Inv(max, w) && Apply(max, w, s).Some?
    ensures Inv(max, Apply(max, w, s).value) && Later(w, Apply(max, w, s).value)
  {
    match s
    case Admit(id) => AdmitKeepsInv(max, w, id);
    case Act(id, m) =>
      ActKeepsInv(max, w, id, m);
      ActMovesOn(max, w, id, m);
    case Release(id) => ReleaseKeepsInv(max, w, id);
  }

  lemma {:induction false} RunKeepsInv(max: int, w: World, steps: seq<Step>)
    requires Inv(max, w) && Run(max, w, steps).Some?
    ensures Inv(max, Run(max, w, steps).value) && Later(w, Run(max, w, steps).value)
    decreases |steps|
  {
    if steps != [] {
      var v := Apply(max, w, steps[0]).value;
      StepKeepsInv(max, w, steps[0]);
      RunKeepsInv(max, v, steps[1..]);
      var u := Run(max, v, steps[1..]).value;
      forall id | Known(w, id) ensures Known(u, id) && Continues(The(w, id), The(u, id)) {
        ContinuesIsTransitive(The(w, id), The(v, id), The(u, id));
      }
    }
  }

  lemma ContinuesIsTransitive(e: Execution, f: Execution, g: Execution)
    requires Continues(e, f) && Continues(f, g)
    ensures Continues(e, g)
  {
    forall i | 0 <= i < |e.steps| ensures e.steps[i].name == g.steps[i].name
      && (e.steps[i].status != Running ==> e.steps[i] == g.steps[i])
    {
      assert e.steps[i].name == f.steps[i].name && f.steps[i].name == g.steps[i].name;
    }
  }

  /* ---------- Main results ---------- */

  /** In every interleaving the number of running teardowns stays within the configured cap. */
  lemma ConcurrencyIsCapped(max: int, steps: seq<Step>)
    requires Run(max, EMPTY, steps).Some?
    ensures |Run(max, EMPTY, steps).value.active| <= if max < 0 then 0 else max
  {
    RunKeepsInv(max, EMPTY, steps);
  }

  /** Recorded steps are a prefix of the plan, and every one but the last is over. Resource teardown
      is recorded only when the hooks and data preservation completed before it. */
  lemma StepsFollowThePlan(max: int, steps: seq<Step>, id: nat)
    requires Run(max, EMPTY, steps).Some? && Known(Run(max, EMPTY, steps).value, id)
    ensures var e := The(Run(max, EMPTY, steps).value, id);
      && |e.steps| <= 6
      && (forall i | 0 <= i < |e.steps| :: e.steps[i].name == PLAN[i])
      && (forall i | 0 <= i < |e.steps| - 1 :: Passed(e.steps[i]))
      && (|e.steps| >= 4 ==>
            && e.steps[3].name == ResourceTeardown
            && e.steps[0] == StepRecord(PreTeardownHooks, Completed)
            && e.steps[2] == StepRecord(DataPreservation, Completed))
  {
    RunKeepsInv(max, EMPTY, steps);
    GuardedTeardown(The(Run(max, EMPTY, steps).value, id));
  }

  lemma GuardedTeardown(e: Execution)
    requires Sound(e)
    ensures |e.steps| >= 4 ==>
      && e.steps[3].name == ResourceTeardown
      && e.steps[0] == StepRecord(PreTeardownHooks, Completed)
      && e.steps[2] == StepRecord(DataPreservation, Completed)
  {
    if |e.steps| >= 4 {
      assert Passed(e.steps[0]) && Passed(e.steps[2]);
    }
  }

  /** Between any two points of a run an execution's progress never decreases and its history is never
      rewritten. */
  lemma ProgressNeverDecreases(max: int, before: seq<Step>, after: seq<Step>, id: nat)
    requires Run(max, EMPTY, before).Some?
    requires Run(max, Run(max, EMPTY, before).value, after).Some?
    requires Known(Run(max, EMPTY, before).value, id)
    ensures var w := Run(max, EMPTY, before).value;
      var v := Run(max, w, after).value;
      Known(v, id) && Continues(The(w, id), The(v, id))
  {
    RunKeepsInv(max, EMPTY, before);
    RunKeepsInv(max, Run(max, EMPTY, before).value, after);
  }

  lemma EarnedOnError(e: Execution)
    requires Sound(e) && Aborted(e)
    ensures 0 <= Earned(e.steps) <= 50
    ensures Last(e).name == ResourceTeardown ==> 33 <= Earned(e.steps)
  {
    var n := |e.steps|;
    assert Last(e).name == PLAN[n - 1];
    assert n == 1 || n == 3 || n == 4;
    if n == 4 {
      assert e.steps[..3][2] == e.steps[2] && Passed(e.steps[2]);
    }
  }

  /** A finished execution either completed, with all six steps recorded and progress 100, or failed at
      a fatal step, with progress at most 50. */
  lemma FinishedExecutions(max: int, steps: seq<Step>, id: nat)
    requires Run(max, EMPTY, steps).Some? && id in Run(max, EMPTY, steps).value.finished
    ensures var e := Run(max, EMPTY, steps).value.finished[id];
      || (e.status == Completed && e.progress == 100 && |e.steps| == 6)
      || (e.status == Failed && 0 <= e.progress <= 50 && Aborted(e))
  {
    RunKeepsInv(max, EMPTY, steps);
    var e := Run(max, EMPTY, steps).value.finished[id];
    if e.status == Failed {
      EarnedOnError(e);
    }
  }

  /* ---------- The execution object ---------- */

  class TeardownExecution {
    var status: Status
    var steps: seq<StepRecord>
    var progress: int

    constructor ()
      ensures View() == NEW
    {
      status, steps, progress := Pending, [], 0;
    }

    ghost function View(): Execution
      reads this
    {
      Execution(status, steps, progress)
    }

    /** Append a record, run the step (whose outcome is `ok`), and close the record. */
    method ExecuteStep(name: StepName, ok: bool)
      modifies this
      ensures status == old(status)
      ensures steps == old(steps) + [StepRecord(name, if ok then Completed else Failed)]
      ensures progress == if ok then |steps| * 100 / 6 else old(progress)
      ensures old(progress) == Earned(old(steps)) ==> progress == Earned(steps)
    {
      ghost var before := steps;
      steps := steps + [StepRecord(name, Running)];
      var stepIndex := |steps| - 1;
      if ok {
        steps := steps[stepIndex := steps[stepIndex].(status := Completed)];
        progress := (stepIndex + 1) * 100 / 6;
      } else {
        steps := steps[stepIndex := steps[stepIndex].(status := Failed)];
      }
      assert steps[..|steps| - 1] == before;
    }

    /** `outcome[i]` says whether the i-th step function succeeds. */
    method Execute(outcome: seq<bool>) returns (err: Option<StepName>)
      requires |outcome| == 6 && View() == NEW
      modifies this
      ensures status == Running && steps == Recorded(outcome, Reached(outcome)) && progress == Earned(steps)
      ensures err == if FailedAt(outcome) < 6 then Some(PLAN[FailedAt(outcome)]) else None
    {
      status := Running;
      ExecuteStep(PreTeardownHooks, outcome[0]);
      assert steps == Recorded(outcome, 1);
      if !outcome[0] {
        return Some(PreTeardownHooks);
      }
      ExecuteStep(GracefulShutdown, outcome[1]);
      ExecuteStep(DataPreservation, outcome[2]);
      assert steps == Recorded(outcome, 3);
      if !outcome[2] {
        return Some(DataPreservation);
      }
      ExecuteStep(ResourceTeardown, outcome[3]);
      assert steps == Recorded(outcome, 4);
      if !outcome[3] {
        return Some(ResourceTeardown);
      }
      ExecuteStep(Cleanup, outcome[4]);
      ExecuteStep(PostTeardownHooks, outcome[5]);
      assert steps == Recorded(outcome, 6);
      return None;
    }
  }

  /** The position of the first fatal step that fails, or 6. */
  function FailedAt(outcome: seq<bool>): (i: nat)
    requires |outcome| == 6
    ensures i <= 6
    ensures i < 6 ==> Fatal(PLAN[i]) && !outcome[i]
    ensures forall j | 0 <= j < i :: Fatal(PLAN[j]) ==> outcome[j]
  {
    if !outcome[0] then 0 else if !outcome[2] then 2 else if !outcome[3] then 3 else 6
  }

  /** How many steps are recorded. */
  function Reached(outcome: seq<bool>): (n: nat)
    requires |outcome| == 6
    ensures n <= 6
  {
    if FailedAt(outcome) < 6 then FailedAt(outcome) + 1 else 6
  }

  function Recorded(outcome: seq<bool>, n: nat): seq<StepRecord>
    requires n <= |outcome| == 6
  {
    seq(n, i requires 0 <= i < n => StepRecord(PLAN[i], if outcome[i] then Completed else Failed))
  }

  /** The execution after `n` of its steps. */
  function Walked(outcome: seq<bool>, n: nat): Execution
    requires n <= |outcome| == 6
  {
    Execution(Running, Recorded(outcome, n), Earned(Recorded(outcome, n)))
  }

  /** The execution as ExecuteTeardown leaves it. */
  function Final(outcome: seq<bool>): Execution
    requires |outcome| == 6
  {
    var e := Walked(outcome, Reached(outcome));
    if FailedAt(outcome) < 6 then e.(status := Failed) else e.(status := Completed, progress := 100)
  }

  /** What a call leaves, spelled out: the steps up to the failure that ended it, if any, each with its own
      outcome, and the progress of the last one that succeeded. */
  lemma FinalTells(outcome: seq<bool>)
    requires |outcome| == 6
    ensures var e := Final(outcome);
      var names := [PreTeardownHooks, GracefulShutdown, DataPreservation, ResourceTeardown, Cleanup, PostTeardownHooks];
      && e.status == (if outcome[0] && outcome[2] && outcome[3] then Completed else Failed)
      && |e.steps| == (if !outcome[0] then 1 else if !outcome[2] then 3 else if !outcome[3] then 4 else 6)
      && (forall i | 0 <= i < |e.steps| :: e.steps[i] == StepRecord(names[i], if outcome[i] then Completed else Failed))
      && e.progress == (
           if !outcome[0] then 0
           else if !outcome[2] then (if outcome[1] then 33 else 16)
           else if !outcome[3] then 50 else 100)
  {
    var s := Recorded(outcome, Reached(outcome));
    if !outcome[0] {
      EarnedByLast(s, 0);
    } else if !outcome[2] {
      EarnedByLast(s, if outcome[1] then 2 else 1);
    } else if !outcome[3] {
      EarnedByLast(s, 3);
    }
  }

  /** Progress is that of the last completed step. */
  lemma {:induction false} EarnedByLast(steps: seq<StepRecord>, n: nat)
    requires n <= |steps| && (n > 0 ==> steps[n - 1].status == Completed)
    requires forall i | n <= i < |steps| :: steps[i].status != Completed
    ensures Earned(steps) == n * 100 / 6
    decreases |steps|
  {
    if n < |steps| {
      EarnedByLast(steps[..|steps| - 1], n);
    }
  }

  /* ---------- The sequential call is a run of the machine ---------- */

  function RunMoves(e: Execution, moves: seq<Move>): Option<Execution> {
    if moves == [] then Some(e)
    else
      var before := RunMoves(e, moves[..|moves| - 1]);
      if before.None? then None else Do(before.value, moves[|moves| - 1])
  }

  lemma RunOneMore(e: Execution, moves: seq<Move>, m: Move)
    ensures RunMoves(e, moves + [m])
         == if RunMoves(e, moves).None? then None else Do(RunMoves(e, moves).value, m)
  {
    assert (moves + [m])[..|moves|] == moves;
  }

  function Moves(outcome: seq<bool>, n: nat): seq<Move>
    requires n <= |outcome|
  {
    if n == 0 then [Launch] else Moves(outcome, n - 1) + [Start] + [Finish(outcome[n - 1])]
  }

  lemma {:induction false} WalkIsARun(outcome: seq<bool>, n: nat)
    requires |outcome| == 6 && n <= Reached(outcome)
    ensures RunMoves(NEW, Moves(outcome, n)) == Some(Walked(outcome, n))
  {
    if n == 0 {
      RunOneMore(NEW, [], Launch);
      assert [] + [Launch] == [Launch];
    } else {
      WalkIsARun(outcome, n - 1);
      var moves := Moves(outcome, n - 1);
      RunOneMore(NEW, moves, Start);
      RunOneMore(NEW, moves + [Start], Finish(outcome[n - 1]));
      OneMoreStep(outcome, n);
    }
  }

  lemma OneMoreStep(outcome: seq<bool>, n: nat)
    requires |outcome| == 6 && 0 < n <= Reached(outcome)
    ensures var started := Do(Walked(outcome, n - 1), Start);
      started.Some? && Do(started.value, Finish(outcome[n - 1])) == Some(Walked(outcome, n))
  {
    var before := Walked(outcome, n - 1);
    assert !Aborted(before) by {
      if n > 1 {
        assert Last(before).name == PLAN[n - 2];
      }
    }
    assert Recorded(outcome, n)[..n - 1] == Recorded(outcome, n - 1);
    assert (before.steps + [StepRecord(PLAN[n - 1], Running)])[n - 1 := Recorded(outcome, n)[n - 1]] == Recorded(outcome, n);
  }

  /** Execute and the final status update are moves of the machine. */
  lemma ExecutionIsARun(outcome: seq<bool>)
    requires |outcome| == 6
    ensures RunMoves(NEW, Moves(outcome, Reached(outcome)) + [Conclude]) == Some(Final(outcome))
  {
    WalkIsARun(outcome, Reached(outcome));
    RunOneMore(NEW, Moves(outcome, Reached(outcome)), Conclude);
    var e := Walked(outcome, Reached(outcome));
    assert Last(e) == StepRecord(PLAN[|e.steps| - 1], if outcome[|e.steps| - 1] then Completed else Failed);
  }

  lemma {:induction false} RunSnoc(max: int, w: World, steps: seq<Step>, s: Step)
    requires Run(max, w, steps).Some?
    ensures Run(max, w, steps + [s]) == Apply(max, Run(max, w, steps).value, s)
    decreases |steps|
  {
    if steps == [] {
      assert (steps + [s])[1..] == [];
    } else {
      assert (steps + [s])[0] == steps[0] && (steps + [s])[1..] == steps[1..] + [s];
      RunSnoc(max, Apply(max, w, steps[0]).value, steps[1..], s);
    }
  }

  function Acts(id: nat, moves: seq<Move>): seq<Step> {
    if moves == [] then [] else Acts(id, moves[..|moves| - 1]) + [Act(id, moves[|moves| - 1])]
  }

  lemma {:induction false} ActsRun(max: int, w: World, id: nat, moves: seq<Move>)
    requires id in w.active && RunMoves(w.active[id], moves).Some?
    ensures Run(max, w, Acts(id, moves)) == Some(w.(active := w.active[id := RunMoves(w.active[id], moves).value]))
    decreases |moves|
  {
    if moves == [] {
      assert w.active[id := w.active[id]] == w.active;
    } else {
      var front, last := moves[..|moves| - 1], moves[|moves| - 1];
      ActsRun(max, w, id, front);
      RunSnoc(max, w, Acts(id, front), Act(id, last));
      var e, f := RunMoves(w.active[id], front).value, RunMoves(w.active[id], moves).value;
      assert w.active[id := e][id := f] == w.active[id := f];
    }
  }

  /** A whole admitted call is a run of the interleaved machine that leaves the table as it was and the
      execution finished as computed; so what holds of every run holds of every call. */
  lemma CallIsARun(max: int, w: World, id: nat, outcome: seq<bool>)
    requires !Known(w, id) && |w.active| < max && |outcome| == 6
    ensures var moves := Moves(outcome, Reached(outcome)) + [Conclude];
      var admitted := w.(active := w.active[id := NEW]);
      && Apply(max, w, Admit(id)) == Some(admitted)
      && Run(max, admitted, Acts(id, moves) + [Release(id)]) == Some(World(w.active, w.finished[id := Final(outcome)]))
  {
    var moves := Moves(outcome, Reached(outcome)) + [Conclude];
    var admitted := w.(active := w.active[id := NEW]);
    ExecutionIsARun(outcome);
    ActsRun(max, admitted, id, moves);
    RunSnoc(max, admitted, Acts(id, moves), Release(id));
    assert w.active[id := NEW][id := Final(outcome)] - {id} == w.active;
  }

  /* ---------- The manager ---------- */

  datatype Result = Refused | Ran(execution: Execution, err: Option<StepName>)

  class Manager {
    const maxConcurrentExecutions: int
    var activeExecutions: map<nat, TeardownExecution>

    constructor (max: int)
      ensures maxConcurrentExecutions == max && activeExecutions == map[]
    {
      maxConcurrentExecutions := max;
      activeExecutions := map[];
    }

    /** The locked region at the start: refuse when the table is full, otherwise enter it. */
    method Admit(id: nat) returns (x: Option<TeardownExecution>)
      requires id !in activeExecutions
      modifies this
      ensures x.None? <==> old(|activeExecutions|) >= maxConcurrentExecutions
      ensures x.None? ==> activeExecutions == old(activeExecutions)
      ensures x.Some? ==> fresh(x.value) && x.value.View() == NEW
      ensures x.Some? ==> activeExecutions == old(activeExecutions)[id := x.value]
      ensures old(|activeExecutions|) <= Bound(maxConcurrentExecutions) ==> |activeExecutions| <= Bound(maxConcurrentExecutions)
    {
      if |activeExecutions| >= maxConcurrentExecutions {
        return None;
      }
      var e := new TeardownExecution();
      ghost var keys := activeExecutions.Keys;
      activeExecutions := activeExecutions[id := e];
      assert activeExecutions.Keys == keys + {id};
      assert |activeExecutions| == |activeExecutions.Keys| == |keys| + 1;
      return Some(e);
    }

    /** The deferred removal. */
    method Release(id: nat)
      modifies this
      ensures activeExecutions == old(activeExecutions) - {id}
    {
      activeExecutions := activeExecutions - {id};
    }

    method ExecuteTeardown(id: nat, outcome: seq<bool>) returns (result: Result)
      requires id !in activeExecutions && |outcome| == 6
      modifies this
      ensures activeExecutions == old(activeExecutions)
      ensures result.Refused? <==> old(|activeExecutions|) >= maxConcurrentExecutions
      ensures result.Ran? ==> result.execution == Final(outcome)
      ensures result.Ran? ==> (result.err.None? <==> outcome[0] && outcome[2] && outcome[3])
      ensures result.Ran? && result.err.Some? ==>
        result.err.value == if !outcome[0] then PreTeardownHooks else if !outcome[2] then DataPreservation else ResourceTeardown
    {
      var admitted := Admit(id);
      if admitted.None? {
        return Refused;
      }
      var execution := admitted.value;
      var err := execution.Execute(outcome);
      if err.Some? {
        execution.status := Failed;
      } else {
        execution.status := Completed;
        execution.progress := 100;
      }
      result := Ran(Execution(execution.status, execution.steps, execution.progress), err);
      Release(id);
      assert activeExecutions == old(activeExecutions);
    }
  }
}
