/** The ManagedRoost reconciler (controllers/managedroost_controller.go) as a protocol between
    the API server, Helm, the controller and users.

    Metadata and status are separate optimistic writes that may be refused; Helm calls may fail
    and leave the release either way; users create, edit and delete the object at any moment,
    and may even strip the controller's finalizer; others may create and remove the release; the
    controller reads through a cache, which may lag behind but never goes back, and may crash
    between any two of its calls.  Only the controller writes status.  Reconciles of one object are
    serialized and there is no lifecycle manager. */
module Reconciler {

  import opened Common

  datatype Phase = Unset | Pending | Deploying | Ready | Failed | TearingDown | Unknown

  datatype Condition = Absent | IsTrue | IsFalse

  datatype Status = Status(phase: Phase, ready: Condition, progressing: Condition, healthy: Condition)

  /** The stored object.  `changes` only observes: persisted phase changes since creation. */
  datatype Roost = Roost(
    uid: nat,
    version: nat,
    deleting: bool,
    finalizer: bool,            // roost-keeper.io/finalizer
    otherFinalizers: bool,
    status: Status,
    changes: nat)

  const FRESH_STATUS := Status(Unset, Absent, Absent, Absent)

  /** Where the controller is within one reconcile, with its in-memory copy. */
  datatype Controller =
    | Idle
    | Deciding(copy: Roost)
    | Installing(copy: Roost)
    | Uninstalling(copy: Roost)
    | WritingStatus(copy: Roost, status: Status)
    | WritingFinalizer(copy: Roost, finalizer: bool)

  datatype World = World(
    roost: Option<Roost>,
    revision: nat,              // the store's revision counter
    release: bool,              // the Helm release exists
    installed: bool,            // the controller installed it and has not successfully uninstalled it
    stripped: bool,             // a user removed the finalizer and the controller has not put it back
    past: set<Roost>,           // every version ever stored
    seen: nat,                  // the version the controller read last
    controller: Controller)

  const INITIAL := World(None, 0, false, false, false, {}, 0, Idle)

  /* ---------- Handlers ---------- */

  /** Answers the outside world gives during one reconcile; `None` is an error. */
  datatype Answers = Answers(
    valid: bool,
    releaseExists: Option<bool>,
    needsUpgrade: Option<bool>,
    upgradeOk: bool,
    healthy: Option<bool>,
    teardownDue: bool)

  /** `transitionToPhase` on the in-memory status. */
  function Transition(st: Status, phase: Phase): Status {
    match phase
    case Pending => st.(phase := phase, progressing := IsTrue)
    case Deploying => st.(phase := phase, progressing := IsTrue)
    case Ready => st.(phase := phase, ready := IsTrue, progressing := IsFalse)
    case Failed => st.(phase := phase, ready := IsFalse, progressing := IsFalse)
    case _ => st.(phase := phase)
  }

  function HandlePending(r: Roost, a: Answers): Controller {
    if !a.valid then WritingStatus(r, Transition(r.status, Failed))
    else match a.releaseExists
      case None => WritingStatus(r, Transition(r.status, Failed))
      case Some(true) => WritingStatus(r, Transition(r.status, Ready))
      case Some(false) => WritingStatus(r, Transition(r.status, Deploying))
  }

  function HandleReady(r: Roost, a: Answers): Controller {
    if a.needsUpgrade.None? then Idle
    else if a.needsUpgrade.value && !a.upgradeOk then WritingStatus(r, Transition(r.status, Failed))
    else
      var st := r.status.(healthy := if a.healthy == Some(true) then IsTrue else IsFalse);
      if a.teardownDue then WritingStatus(r, Transition(st, TearingDown))
      else WritingStatus(r, st.(ready := IsTrue, progressing := IsFalse))
  }

  function HandleFailed(r: Roost): Controller {
    WritingStatus(r, r.status.(ready := IsFalse, progressing := IsFalse))
  }

  /** `reconcileDelete` and `reconcileNormal`, up to the first Helm or write call. */
  function Decide(r: Roost, a: Answers): Controller {
    if r.deleting then (if r.finalizer then Uninstalling(r) else Idle)
    else if !r.finalizer then WritingFinalizer(r, true)
    else match r.status.phase
      case Pending => HandlePending(r, a)
      case Deploying => Installing(r)
      case Ready => HandleReady(r, a)
      case Failed => HandleFailed(r)
      case TearingDown => Uninstalling(r)
      case Unset => WritingStatus(r, Transition(r.status, Pending))
      case Unknown => WritingStatus(r, Transition(r.status, Pending))
  }

  datatype InstallResult = InstallError | InProgress | Done

  /** The rest of `handleDeployingPhase`. */
  function AfterInstall(r: Roost, result: InstallResult): Controller {
    match result
    case InstallError => WritingStatus(r, Transition(r.status, Failed))
    case InProgress => WritingStatus(r, r.status.(progressing := IsTrue))
    case Done => WritingStatus(r, Transition(r.status, Ready))
  }

  /* ---------- Steps ---------- */

  datatype Step =
    | Read(copy: Roost)                     // what the cache returns
    | Choose(answers: Answers)
    | InstallReturns(result: InstallResult, releaseAfter: bool)
    | UninstallReturns(ok: bool, releaseAfter: bool)
    | WriteReturns(applied: bool)           // whether or not the reply reaches the controller
    | Crash
    | UserCreate(otherFinalizers: bool)
    | UserEdit(otherFinalizers: bool)
    | UserDelete
    | UserStrip                             // a user removes the controller's finalizer
    | ReleaseByOthers(after: bool)          // someone else creates or removes the release

  /** A version the cache may still return. */
  predicate Readable(w: World, c: Roost) {
    c in w.past && c.version >= w.seen
  }

  ghost predicate Enabled(w: World, step: Step) {
    match step
    case Read(c) => w.controller == Idle && Readable(w, c)
    case Choose(a) => w.controller.Deciding? && (a.releaseExists.Some? ==> a.releaseExists.value == w.release)
    case InstallReturns(result, after) => w.controller.Installing? && (result.Done? ==> after)
    case UninstallReturns(ok, after) => w.controller.Uninstalling? && (ok ==> !after) && (after ==> w.release)
    case WriteReturns(applied) =>
      && (w.controller.WritingStatus? || w.controller.WritingFinalizer?)
      && (applied ==> w.roost.Some? && w.roost.value.version == w.controller.copy.version)
    case Crash => true
    case UserCreate(_) => w.roost.None?
    case UserEdit(_) => w.roost.Some?
    case UserDelete => w.roost.Some?
    case UserStrip => w.roost.Some? && w.roost.value.finalizer
    case ReleaseByOthers(_) => true
  }

  /** What remains of an object being deleted: it goes once no finalizer holds it. */
  function Stored(r: Roost): Option<Roost> {
    if r.deleting && !r.finalizer && !r.otherFinalizers then None else Some(r)
  }

  function StatusWritten(r: Roost, st: Status, revision: nat): Roost {
    r.(status := st, version := revision, changes := r.changes + if st.phase != r.status.phase then 1 else 0)
  }

  /** The API server stores `r` as the newest version. */
  function Store(w: World, r: Roost): World {
    w.(roost := Stored(r), revision := r.version, past := if Stored(r).Some? then w.past + {r} else w.past)
  }

  function Next(w: World, step: Step): World
    requires Enabled(w, step)
  {
    var rev := w.revision + 1;
    match step
    case Read(c) => w.(controller := Deciding(c), seen := c.version)
    case Choose(a) => w.(controller := Decide(w.controller.copy, a))
    case InstallReturns(result, after) =>
      w.(release := after,
         installed := w.installed || result.Done? || (after && !w.release),
         controller := AfterInstall(w.controller.copy, result))
    case UninstallReturns(ok, after) =>
      if ok then w.(release := false, installed := false, controller := WritingFinalizer(w.controller.copy, false))
      else w.(release := after, controller := Idle)
    case WriteReturns(applied) =>
      if !applied then w.(controller := Idle)
      else (match w.controller
        case WritingStatus(_, st) =>
          Store(w, StatusWritten(w.roost.value, st, rev)).(controller := Idle)
        case WritingFinalizer(_, f) =>
          Store(w, w.roost.value.(finalizer := f, version := rev)).(stripped := w.stripped && !f, controller := Idle)
        case _ => w)
    case Crash => w.(controller := Idle)
    case UserCreate(others) => Store(w, Roost(rev, rev, false, false, others, FRESH_STATUS, 0))
    case UserEdit(others) => Store(w, w.roost.value.(otherFinalizers := others, version := rev))
    case UserDelete => Store(w, w.roost.value.(deleting := true, version := rev))
    case UserStrip => Store(w, w.roost.value.(finalizer := false, version := rev)).(stripped := true)
    case ReleaseByOthers(after) => w.(release := after)
  }

  ghost function Run(w: World, steps: seq<Step>): (r: Option<World>)
    decreases |steps|
  {
    if steps == [] then Some(w)
    else if Enabled(w, steps[0]) then Run(Next(w, steps[0]), steps[1..])
    else None
  }

  ghost predicate Reachable(w: World) {
    exists steps: seq<Step> :: Run(INITIAL, steps) == Some(w)
  }

  /* ---------- Phases ---------- */

  function Rank(p: Phase): nat {
    match p
    case Unset => 0
    case Pending => 1
    case Deploying => 2
    case Ready => 3
    case _ => 4
  }

  /** One persisted status may follow another. */
  predicate Follows(before: Status, later: Status) {
    && before.phase != later.phase ==> Rank(before.phase) < Rank(later.phase)
  }

  predicate ConditionsFit(st: Status) {
    && !st.phase.Unknown?
    && (st.phase.Ready? ==> st.ready == IsTrue && st.progressing == IsFalse)
    && (st.phase.Failed? ==> st.ready == IsFalse && st.progressing == IsFalse)
  }

  /* ---------- Invariant ---------- */

  /** `d` may be a later version of the same object. */
  predicate Later(c: Roost, d: Roost) {
    Follows(c.status, d.status) && (c.deleting ==> d.deleting)
  }

  /** A version that was stored once, against what is stored now. */
  predicate CopyFits(w: World, c: Roost) {
    && c.version <= w.revision && c.uid <= c.version && ConditionsFit(c.status) && c.changes <= Rank(c.status.phase)
    && (w.roost.Some? ==>
          && c.version <= w.roost.value.version
          && (c.version == w.roost.value.version ==> c == w.roost.value)
          && (c.uid == w.roost.value.uid ==> Later(c, w.roost.value)))
  }

  /** A copy the controller may install from, or go on to install from. */
  predicate Installable(c: Roost) {
    c.finalizer && !c.deleting && !c.status.phase.TearingDown?
  }

  /** As long as such a copy can be read, its object is still there, still holding the finalizer, unless a
      user stripped it. */
  predicate Guarded(w: World, c: Roost) {
    Installable(c) && !w.stripped ==> w.roost.Some? && w.roost.value.uid == c.uid && w.roost.value.finalizer
  }

  ghost predicate PastFits(w: World) {
    && (forall c <- w.past :: CopyFits(w, c))
    && (forall c <- w.past :: Readable(w, c) ==> Guarded(w, c))
    && (w.roost.Some? ==> w.roost.value in w.past)
    && w.seen <= w.revision
  }

  /** Versions of one object are in order. */
  ghost predicate InOrder(w: World) {
    forall c <- w.past, d <- w.past :: c.uid == d.uid && c.version <= d.version ==> Later(c, d)
  }

  predicate ControllerFits(w: World) {
    && (!w.controller.Idle? ==> w.controller.copy in w.past && w.controller.copy.version == w.seen)
    && match w.controller
       case Idle => true
       case Deciding(_) => true
       case Installing(c) => Installable(c) && c.status.phase.Deploying?
       case Uninstalling(c) => c.deleting || c.status.phase.TearingDown?
       case WritingStatus(c, st) => Follows(c.status, st) && ConditionsFit(st)
       case WritingFinalizer(c, f) => if f then !c.finalizer else !w.installed && (c.deleting || c.status.phase.TearingDown?)
  }

  /** What the controller installed is guarded by the finalizer. */
  predicate ReleaseGuarded(w: World) {
    w.installed && !w.stripped ==> w.roost.Some? && w.roost.value.finalizer
  }

  ghost predicate Inv(w: World) {
    PastFits(w) && InOrder(w) && ControllerFits(w) && ReleaseGuarded(w)
  }

  /** Whatever a handler decides, the status it would write follows the one it read and fits its phase. */
  lemma DecisionFits(c: Roost, a: Answers)
    requires ConditionsFit(c.status)
    ensures var d := Decide(c, a);
      && (!d.Idle? ==> d.copy == c)
      && !d.Deciding?
      && (d.WritingStatus? ==> Follows(c.status, d.status) && ConditionsFit(d.status))
      && (d.Installing? ==> Installable(c) && c.status.phase.Deploying?)
      && (d.Uninstalling? ==> c.deleting || c.status.phase.TearingDown?)
      && (d.WritingFinalizer? ==> d.finalizer && !c.finalizer)
  {
  }

  lemma ChoiceKeepsInv(w: World, a: Answers)
    requires Inv(w) && Enabled(w, Choose(a))
    ensures Inv(Next(w, Choose(a)))
  {
    var c := w.controller.copy;
    DecisionFits(c, a);
    SamePast(w, Next(w, Choose(a)));
  }

  /** Steps that store nothing and read nothing new. */
  lemma SamePast(w: World, v: World)
    requires PastFits(w) && InOrder(w)
    requires v.roost == w.roost && v.past == w.past && v.revision == w.revision && v.stripped == w.stripped && v.seen >= w.seen
    requires v.seen <= v.revision
    ensures PastFits(v) && InOrder(v)
  {
  }

  /** Storing a later version of the stored object. */
  lemma StoreKeepsPast(w: World, r: Roost, stripped: bool)
    requires PastFits(w) && InOrder(w) && w.roost.Some?
    requires r.version == w.revision + 1 && r.uid == w.roost.value.uid && Later(w.roost.value, r)
    requires ConditionsFit(r.status) && r.changes <= Rank(r.status.phase)
    requires !stripped ==> forall c <- w.past + {r} :: Installable(c) && c.version >= w.seen ==> Stored(r).Some? && c.uid == r.uid && r.finalizer
    ensures PastFits(Store(w, r).(stripped := stripped)) && InOrder(Store(w, r).(stripped := stripped))
  {
    var v := Store(w, r).(stripped := stripped);
    forall c <- w.past ensures c.uid == r.uid ==> Later(c, r) {
      assert CopyFits(w, c);
    }
    forall c <- v.past ensures CopyFits(v, c) {
      assert c in w.past ==> CopyFits(w, c);
    }
  }

  lemma CreateKeepsPast(w: World, others: bool)
    requires PastFits(w) && InOrder(w) && w.roost.None?
    ensures PastFits(Next(w, UserCreate(others))) && InOrder(Next(w, UserCreate(others)))
  {
    var v := Next(w, UserCreate(others));
    forall c <- v.past ensures CopyFits(v, c) {
      assert c in w.past ==> CopyFits(w, c);
    }
    forall c <- w.past ensures c.uid != v.roost.value.uid {
      assert CopyFits(w, c);
    }
  }

  lemma HelmKeepsInv(w: World, step: Step)
    requires Inv(w) && Enabled(w, step) && (step.InstallReturns? || step.UninstallReturns?)
    ensures Inv(Next(w, step))
  {
    SamePast(w, Next(w, step));
    if step.InstallReturns? {
      assert Readable(w, w.controller.copy) && Guarded(w, w.controller.copy);
    }
  }

  lemma StatusKeepsInv(w: World)
    requires Inv(w) && Enabled(w, WriteReturns(true)) && w.controller.WritingStatus?
    ensures Inv(Next(w, WriteReturns(true)))
  {
    var c, st := w.controller.copy, w.controller.status;
    assert CopyFits(w, c) && c == w.roost.value;
    StatusKeepsPast(w, st);
  }

  lemma StatusKeepsPast(w: World, st: Status)
    requires PastFits(w) && InOrder(w) && w.roost.Some? && Follows(w.roost.value.status, st) && ConditionsFit(st)
    ensures var v := Store(w, StatusWritten(w.roost.value, st, w.revision + 1));
      PastFits(v) && InOrder(v)
  {
    assert CopyFits(w, w.roost.value);
    var r := StatusWritten(w.roost.value, st, w.revision + 1);
    StatusCounts(w.roost.value, st, w.revision + 1);
    forall d <- w.past + {r} | !w.stripped && Installable(d) && d.version >= w.seen
      ensures Stored(r).Some? && d.uid == r.uid && r.finalizer
    {
      StillGuarded(w, r, d);
    }
    StoreKeepsPast(w, r, w.stripped);
    assert Store(w, r) == Store(w, r).(stripped := w.stripped);
  }

  lemma StatusCounts(c: Roost, st: Status, rev: nat)
    requires Follows(c.status, st) && c.changes <= Rank(c.status.phase)
    ensures StatusWritten(c, st, rev).changes <= Rank(st.phase)
  {
  }

  /** A new version that keeps the finalizer keeps the guard of every copy. */
  lemma StillGuarded(w: World, r: Roost, d: Roost)
    requires PastFits(w) && w.roost.Some? && !w.stripped && d in w.past + {r} && Installable(d) && d.version >= w.seen
    requires r.uid == w.roost.value.uid && (w.roost.value.finalizer ==> r.finalizer)
    ensures Stored(r).Some? && d.uid == r.uid && r.finalizer
  {
    if d in w.past {
      assert Readable(w, d) && Guarded(w, d);
    }
  }

  lemma FinalizerKeepsInv(w: World)
    requires Inv(w) && Enabled(w, WriteReturns(true)) && w.controller.WritingFinalizer?
    ensures Inv(Next(w, WriteReturns(true)))
  {
    var c, f := w.controller.copy, w.controller.finalizer;
    assert CopyFits(w, c) && c == w.roost.value;
    var r := c.(finalizer := f, version := w.revision + 1);
    forall d <- w.past + {r} | !(w.stripped && !f) && Installable(d) && d.version >= w.seen
      ensures Stored(r).Some? && d.uid == r.uid && r.finalizer
    {
      if d in w.past {
        OnlyNewestReadable(w, d);
      }
    }
    StoreKeepsPast(w, r, w.stripped && !f);
    assert Next(w, WriteReturns(true)) == Store(w, r).(stripped := w.stripped && !f, controller := Idle);
  }

  /** Once the controller has read the newest version, it can read no other. */
  lemma OnlyNewestReadable(w: World, d: Roost)
    requires PastFits(w) && w.roost.Some? && w.roost.value.version == w.seen && Readable(w, d)
    ensures d == w.roost.value
  {
    assert CopyFits(w, d);
  }

  lemma WriteKeepsInv(w: World, applied: bool)
    requires Inv(w) && Enabled(w, WriteReturns(applied))
    ensures Inv(Next(w, WriteReturns(applied)))
  {
    if !applied {
      SamePast(w, Next(w, WriteReturns(applied)));
    } else if w.controller.WritingStatus? {
      StatusKeepsInv(w);
    } else {
      FinalizerKeepsInv(w);
    }
  }

  predicate ByOthers(step: Step) {
    step.UserCreate? || step.UserEdit? || step.UserDelete? || step.UserStrip? || step.ReleaseByOthers?
  }

  lemma EditKeepsInv(w: World, r: Roost, stripped: bool)
    requires Inv(w) && w.roost.Some? && r.version == w.revision + 1
    requires r == w.roost.value.(version := r.version, deleting := r.deleting, finalizer := r.finalizer, otherFinalizers := r.otherFinalizers)
    requires w.roost.value.deleting ==> r.deleting
    requires if stripped then !r.finalizer || w.stripped else !w.stripped && r.finalizer == w.roost.value.finalizer
    ensures Inv(Store(w, r).(stripped := stripped))
  {
    assert CopyFits(w, w.roost.value);
    forall d <- w.past + {r} | !stripped && Installable(d) && d.version >= w.seen
      ensures Stored(r).Some? && d.uid == r.uid && r.finalizer
    {
      StillGuarded(w, r, d);
    }
    StoreKeepsPast(w, r, stripped);
  }

  lemma CreateKeepsInv(w: World, others: bool)
    requires Inv(w) && Enabled(w, UserCreate(others))
    ensures Inv(Next(w, UserCreate(others)))
  {
    CreateKeepsPast(w, others);
  }

  lemma EditingKeepsInv(w: World, others: bool)
    requires Inv(w) && Enabled(w, UserEdit(others))
    ensures Inv(Next(w, UserEdit(others)))
  {
    var r := w.roost.value.(otherFinalizers := others, version := w.revision + 1);
    EditKeepsInv(w, r, w.stripped);
    assert Next(w, UserEdit(others)) == Store(w, r).(stripped := w.stripped);
  }

  lemma DeletingKeepsInv(w: World)
    requires Inv(w) && Enabled(w, UserDelete)
    ensures Inv(Next(w, UserDelete))
  {
    var r := w.roost.value.(deleting := true, version := w.revision + 1);
    EditKeepsInv(w, r, w.stripped);
    assert Next(w, UserDelete) == Store(w, r).(stripped := w.stripped);
  }

  lemma StrippingKeepsInv(w: World)
    requires Inv(w) && Enabled(w, UserStrip)
    ensures Inv(Next(w, UserStrip))
  {
    EditKeepsInv(w, w.roost.value.(finalizer := false, version := w.revision + 1), true);
  }

  lemma OthersKeepInv(w: World, step: Step)
    requires Inv(w) && Enabled(w, step) && ByOthers(step)
    ensures Inv(Next(w, step))
  {
    match step
    case UserCreate(others) => CreateKeepsInv(w, others);
    case UserEdit(others) => EditingKeepsInv(w, others);
    case UserDelete => DeletingKeepsInv(w);
    case UserStrip => StrippingKeepsInv(w);
    case ReleaseByOthers(_) => SamePast(w, Next(w, step));
  }

  lemma ReadKeepsInv(w: World, c: Roost)
    requires Inv(w) && Enabled(w, Read(c))
    ensures Inv(Next(w, Read(c)))
  {
    assert CopyFits(w, c);
    SamePast(w, Next(w, Read(c)));
  }

  lemma StepKeepsInv(w: World, step: Step)
    requires Inv(w) && Enabled(w, step)
    ensures Inv(Next(w, step))
  {
    match step
    case Read(c) => ReadKeepsInv(w, c);
    case Choose(a) => ChoiceKeepsInv(w, a);
    case InstallReturns(_, _) => HelmKeepsInv(w, step);
    case UninstallReturns(_, _) => HelmKeepsInv(w, step);
    case WriteReturns(applied) => WriteKeepsInv(w, applied);
    case Crash => SamePast(w, Next(w, step));
    case _ => OthersKeepInv(w, step);
  }

  lemma {:induction false} RunKeepsInv(w: World, steps: seq<Step>)
    requires Inv(w) && Run(w, steps).Some?
    ensures Inv(Run(w, steps).value)
    decreases |steps|
  {
    if steps != [] {
      StepKeepsInv(w, steps[0]);
      RunKeepsInv(Next(w, steps[0]), steps[1..]);
    }
  }

  lemma ReachableInv(w: World)
    requires Reachable(w)
    ensures Inv(w)
  {
    var steps: seq<Step> :| Run(INITIAL, steps) == Some(w);
    RunKeepsInv(INITIAL, steps);
  }

  /* ---------- Main results ---------- */

  /** In every run, whatever fails, however far the cache lags, and whoever creates, edits or deletes the
      object or touches the release: a release the controller installed and has not uninstalled implies
      the object exists and carries the finalizer, unless a user stripped it. */
  lemma FinalizerGuardsRelease(w: World)
    requires Reachable(w) && w.installed && !w.stripped
    ensures w.roost.Some? && w.roost.value.finalizer
  {
    ReachableInv(w);
  }

  /** So no step makes the object disappear while such a release remains, except the stripping itself. */
  lemma ObjectOutlivesRelease(w: World, step: Step)
    requires Reachable(w) && Enabled(w, step)
    requires w.roost.Some? && Next(w, step).roost.None?
    ensures w.installed || Next(w, step).installed ==> Next(w, step).stripped
  {
    ReachableInv(w);
    StepKeepsInv(w, step);
  }

  predicate GuardHolds(w: World) {
    w.installed ==> w.roost.Some? && w.roost.value.finalizer
  }

  /** While the guard holds, a user stripping the finalizer is the only step that can break it; and with a
      release installed it always does. */
  lemma OnlyStrippingBreaksTheGuard(w: World, step: Step)
    requires Reachable(w) && w.installed && !w.stripped && Enabled(w, step)
    ensures !GuardHolds(Next(w, step)) <==> step.UserStrip?
  {
    ReachableInv(w);
    StepKeepsInv(w, step);
  }

  /** The persisted phase of one object only moves up the order; the top ones are final. */
  lemma PhaseNeverRegresses(w: World, step: Step)
    requires Reachable(w) && Enabled(w, step)
    requires w.roost.Some? && Next(w, step).roost.Some? && Next(w, step).roost.value.uid == w.roost.value.uid
    ensures var p, q := w.roost.value.status.phase, Next(w, step).roost.value.status.phase;
      && (p != q ==> Rank(p) < Rank(q))
      && (p.Failed? || p.TearingDown? ==> q == p)
  {
    ReachableInv(w);
    RankAtStep(w, step);
  }

  lemma RankAtStep(w: World, step: Step)
    requires Inv(w) && Enabled(w, step)
    requires w.roost.Some? && Next(w, step).roost.Some? && Next(w, step).roost.value.uid == w.roost.value.uid
    ensures var p, q := w.roost.value.status.phase, Next(w, step).roost.value.status.phase;
      && (p != q ==> Rank(p) < Rank(q))
      && (p.Failed? || p.TearingDown? ==> q == p)
  {
    if step == WriteReturns(true) && w.controller.WritingStatus? {
      assert CopyFits(w, w.controller.copy);
    } else {
      assert w.roost.value in w.past && CopyFits(w, w.roost.value);
      StatusUntouched(w, step);
    }
  }

  /** Only the controller's status write changes the status of a stored object. */
  lemma StatusUntouched(w: World, step: Step)
    requires Enabled(w, step) && !(step == WriteReturns(true) && w.controller.WritingStatus?)
    requires w.roost.Some? && Next(w, step).roost.Some? && Next(w, step).roost.value.uid == w.roost.value.uid
    ensures Next(w, step).roost.value.status == w.roost.value.status
  {
  }

  /** Any stored object: at most four phase changes, never an unknown phase, and conditions
      that agree with the phase. */
  lemma StoredStatusIsSound(w: World)
    requires Reachable(w) && w.roost.Some?
    ensures w.roost.value.changes <= 4
    ensures ConditionsFit(w.roost.value.status)
  {
    ReachableInv(w);
  }

  /** Helm's install runs only for a copy that is Deploying, carries the finalizer and is not being deleted;
      unless a user stripped it, the object is still stored with its finalizer; and any version of it that is
      Ready or beyond is newer than the copy. */
  lemma InstallsOnlyWhileDeploying(w: World)
    requires Reachable(w) && w.controller.Installing?
    ensures var c := w.controller.copy;
      && c.status.phase.Deploying? && c.finalizer && !c.deleting
      && (!w.stripped ==> w.roost.Some? && w.roost.value.uid == c.uid && w.roost.value.finalizer)
      && (forall d <- w.past | d.uid == c.uid && Rank(d.status.phase) >= Rank(Ready) :: c.version < d.version)
  {
    ReachableInv(w);
    var c := w.controller.copy;
    assert Readable(w, c) && Guarded(w, c);
    forall d <- w.past | d.uid == c.uid && Rank(d.status.phase) >= Rank(Ready) ensures c.version < d.version {
      if d.version <= c.version {
        NewerRanksHigher(w, d, c);
      }
    }
  }

  lemma NewerRanksHigher(w: World, c: Roost, d: Roost)
    requires InOrder(w) && c in w.past && d in w.past && c.uid == d.uid && c.version <= d.version
    ensures Rank(c.status.phase) <= Rank(d.status.phase)
  {
    assert Later(c, d);
  }

  /** The history only grows, and the cache never goes back. */
  lemma {:induction false} HistoryGrows(w: World, steps: seq<Step>)
    requires Run(w, steps).Some?
    ensures w.past <= Run(w, steps).value.past && w.seen <= Run(w, steps).value.seen
    decreases |steps|
  {
    if steps != [] {
      HistoryGrows(Next(w, steps[0]), steps[1..]);
    }
  }

  /** Along any run that ends with the same object, its phase rank has not dropped, and a
      final phase has not changed. */
  lemma RankAlongRun(w: World, steps: seq<Step>)
    requires Reachable(w) && Run(w, steps).Some? && w.roost.Some?
    requires Run(w, steps).value.roost.Some? && Run(w, steps).value.roost.value.uid == w.roost.value.uid
    ensures var p, q := w.roost.value.status.phase, Run(w, steps).value.roost.value.status.phase;
      Rank(p) <= Rank(q) && (p.Failed? || p.TearingDown? ==> q == p)
  {
    var v := Run(w, steps).value;
    ReachableInv(w);
    RunKeepsInv(w, steps);
    HistoryGrows(w, steps);
    assert CopyFits(v, w.roost.value) && CopyFits(v, v.roost.value);
  }

  /** Once the controller has read a version of an object that is Ready or beyond, or any newer version, it
      never installs for that object again, whoever strips or recreates what. */
  lemma NoInstallAfterReady(w: World, d: Roost, steps: seq<Step>)
    requires Reachable(w) && d in w.past && Rank(d.status.phase) >= Rank(Ready) && d.version <= w.seen
    requires Run(w, steps).Some? && Run(w, steps).value.controller.Installing?
    ensures Run(w, steps).value.controller.copy.uid != d.uid
  {
    var v := Run(w, steps).value;
    ReachableInv(w);
    RunKeepsInv(w, steps);
    HistoryGrows(w, steps);
    if v.controller.copy.uid == d.uid {
      NewerRanksHigher(v, d, v.controller.copy);
    }
  }

  /* ---------- Every phase is earned ---------- */

  /** What must have been answered for the phase to move like this. */
  predicate Warrants(step: Step, from: Phase, to: Phase) {
    match from
    case Pending =>
      step.Choose? &&
        if !step.answers.valid || step.answers.releaseExists.None? then to == Failed
        else to == if step.answers.releaseExists.value then Ready else Deploying
    case Deploying =>
      step.InstallReturns? && ((step.result.Done? && to == Ready) || (step.result.InstallError? && to == Failed))
    case Ready =>
      step.Choose? && step.answers.needsUpgrade.Some? &&
        if step.answers.needsUpgrade.value && !step.answers.upgradeOk then to == Failed
        else step.answers.teardownDue && to == TearingDown
    case Unset => step.Choose? && to == Pending
    case Unknown => step.Choose? && to == Pending
    case _ => false
  }

  /** The answer came in the same reconcile: since then only others have acted. */
  ghost predicate Warranted(steps: seq<Step>, from: Phase, to: Phase) {
    exists i | 0 <= i < |steps| :: Warrants(steps[i], from, to) && forall j | i < j < |steps| :: ByOthers(steps[j])
  }

  ghost predicate WriteWarranted(steps: seq<Step>, c: Controller) {
    c.WritingStatus? && c.status.phase != c.copy.status.phase ==> Warranted(steps, c.copy.status.phase, c.status.phase)
  }

  lemma {:induction false} RunUnsnoc(w: World, front: seq<Step>, last: Step)
    requires Run(w, front + [last]).Some?
    ensures Run(w, front).Some? && Enabled(Run(w, front).value, last)
    ensures Run(w, front + [last]) == Some(Next(Run(w, front).value, last))
    decreases |front|
  {
    if front == [] {
      assert (front + [last])[1..] == [];
    } else {
      assert (front + [last])[0] == front[0] && (front + [last])[1..] == front[1..] + [last];
      RunUnsnoc(Next(w, front[0]), front[1..], last);
    }
  }

  lemma DecisionWarranted(front: seq<Step>, copy: Roost, a: Answers)
    ensures WriteWarranted(front + [Choose(a)], Decide(copy, a))
  {
    var d := Decide(copy, a);
    if d.WritingStatus? && d.status.phase != copy.status.phase {
      assert d.copy == copy && (front + [Choose(a)])[|front|] == Choose(a);
      assert Warrants(Choose(a), copy.status.phase, d.status.phase);
    }
  }

  lemma InstallWarranted(front: seq<Step>, copy: Roost, result: InstallResult, after: bool)
    requires copy.status.phase.Deploying?
    ensures WriteWarranted(front + [InstallReturns(result, after)], AfterInstall(copy, result))
  {
    var steps := front + [InstallReturns(result, after)];
    assert steps[|front|] == InstallReturns(result, after);
    assert result.Done? ==> Warrants(steps[|front|], Deploying, Ready);
    assert result.InstallError? ==> Warrants(steps[|front|], Deploying, Failed);
  }

  lemma StillWarranted(front: seq<Step>, last: Step, from: Phase, to: Phase)
    requires Warranted(front, from, to) && ByOthers(last)
    ensures Warranted(front + [last], from, to)
  {
    var steps := front + [last];
    var i :| 0 <= i < |front| && Warrants(front[i], from, to) && forall j | i < j < |front| :: ByOthers(front[j]);
    assert steps[i] == front[i] && forall j | i < j < |steps| :: ByOthers(steps[j]);
  }

  lemma {:induction false} WritesAreWarranted(steps: seq<Step>)
    requires Run(INITIAL, steps).Some?
    ensures WriteWarranted(steps, Run(INITIAL, steps).value.controller)
    decreases |steps|
  {
    if steps != [] {
      var front, last := steps[..|steps| - 1], steps[|steps| - 1];
      assert steps == front + [last];
      RunUnsnoc(INITIAL, front, last);
      RunKeepsInv(INITIAL, front);
      WritesAreWarranted(front);
      var w := Run(INITIAL, front).value;
      if last.Choose? {
        DecisionWarranted(front, w.controller.copy, last.answers);
      } else if last.InstallReturns? {
        InstallWarranted(front, w.controller.copy, last.result, last.releaseAfter);
      } else if ByOthers(last) && w.controller.WritingStatus? && w.controller.status.phase != w.controller.copy.status.phase {
        StillWarranted(front, last, w.controller.copy.status.phase, w.controller.status.phase);
      }
    }
  }

  /** Over every run, a step that changes the stored phase of an object is preceded, in the same reconcile, by
      the answer that calls for it: Ready by a finished install or a release that was found, Failed by a failed
      install, an invalid specification, a failed lookup or a failed upgrade, TearingDown by a due teardown. */
  lemma PhaseIsEarned(steps: seq<Step>, step: Step)
    requires Run(INITIAL, steps).Some? && Enabled(Run(INITIAL, steps).value, step)
    requires var w := Run(INITIAL, steps).value;
      w.roost.Some? && Next(w, step).roost.Some? && Next(w, step).roost.value.uid == w.roost.value.uid
    ensures var w := Run(INITIAL, steps).value;
      var p, q := w.roost.value.status.phase, Next(w, step).roost.value.status.phase;
      p != q ==> step == WriteReturns(true) && Warranted(steps, p, q)
  {
    var w := Run(INITIAL, steps).value;
    RunKeepsInv(INITIAL, steps);
    if step == WriteReturns(true) && w.controller.WritingStatus? {
      assert CopyFits(w, w.controller.copy);
      WritesAreWarranted(steps);
    } else {
      StatusUntouched(w, step);
    }
  }

  /* ---------- Nothing above is vacuous ---------- */

  lemma {:induction false} RunSnoc(w: World, steps: seq<Step>, step: Step)
    requires Run(w, steps).Some? && Enabled(Run(w, steps).value, step)
    ensures Run(w, steps + [step]) == Some(Next(Run(w, steps).value, step))
    decreases |steps|
  {
    if steps == [] {
      assert (steps + [step])[1..] == [];
    } else {
      assert (steps + [step])[0] == steps[0] && (steps + [step])[1..] == steps[1..] + [step];
      RunSnoc(Next(w, steps[0]), steps[1..], step);
    }
  }

  lemma ReachesNext(w: World, step: Step) returns (v: World)
    requires Reachable(w) && Enabled(w, step)
    ensures v == Next(w, step) && Reachable(v)
  {
    var steps: seq<Step> :| Run(INITIAL, steps) == Some(w);
    RunSnoc(INITIAL, steps, step);
    v := Next(w, step);
  }

  /** Answers of an undisturbed cluster. */
  function Calm(present: bool): Answers {
    Answers(true, Some(present), Some(false), true, Some(true), false)
  }

  ghost predicate Undisturbed(w: World) {
    && Reachable(w) && w.controller.Idle? && !w.stripped
    && w.roost.Some? && !w.roost.value.deleting && w.roost.value in w.past && w.roost.value.version == w.revision && w.seen <= w.revision
  }

  /** A created object reaches Pending with the finalizer. */
  lemma ReachPending() returns (w: World)
    ensures Undisturbed(w) && !w.installed && !w.release
    ensures w.roost.value.finalizer && w.roost.value.status.phase.Pending?
  {
    w := ReachFinalizer();
    w := ReachesNext(w, Read(w.roost.value));
    w := ReachesNext(w, Choose(Calm(false)));
    w := ReachesNext(w, WriteReturns(true));
  }

  lemma ReachFinalizer() returns (w: World)
    ensures Undisturbed(w) && !w.installed && !w.release
    ensures w.roost.value.finalizer && w.roost.value.status == FRESH_STATUS
  {
    assert Run(INITIAL, []) == Some(INITIAL);
    w := ReachesNext(INITIAL, UserCreate(false));
    w := ReachesNext(w, Read(w.roost.value));
    w := ReachesNext(w, Choose(Calm(false)));
    w := ReachesNext(w, WriteReturns(true));
  }

  lemma ReachDeploying() returns (w: World)
    ensures Undisturbed(w) && !w.installed && !w.release
    ensures w.roost.value.finalizer && w.roost.value.status.phase.Deploying?
  {
    w := ReachPending();
    w := ReachesNext(w, Read(w.roost.value));
    w := ReachesNext(w, Choose(Calm(false)));
    w := ReachesNext(w, WriteReturns(true));
  }

  /** A release the controller installed, under the guard; it is about to store that the object is Ready. */
  lemma InstallationHappens() returns (w: World)
    ensures Reachable(w) && w.installed && !w.stripped && w.release && w.roost.Some?
    ensures w.controller == WritingStatus(w.roost.value, Transition(w.roost.value.status, Ready))
    ensures w.roost.value in w.past && w.roost.value.version == w.seen
    ensures Installable(w.roost.value) && w.roost.value.status.phase.Deploying?
  {
    w := ReachDeploying();
    w := ReachesNext(w, Read(w.roost.value));
    w := ReachesNext(w, Choose(Calm(false)));
    w := ReachesNext(w, InstallReturns(Done, true));
  }

  /** With a lagging cache: the object is stored as Ready, the next read still shows it Deploying, and the
      controller installs once more. */
  lemma StaleReadReinstalls() returns (w: World)
    ensures Reachable(w) && w.controller.Installing? && w.roost.Some?
    ensures w.controller.copy.uid == w.roost.value.uid && w.roost.value.status.phase.Ready?
  {
    w := InstallationHappens();
    var deploying := w.roost.value;
    w := ReachesNext(w, WriteReturns(true));
    w := ReachesNext(w, Read(deploying));
    w := ReachesNext(w, Choose(Calm(true)));
  }

  /** A release made by others is adopted: the object becomes Ready without an install. */
  lemma AdoptionHappens() returns (w: World)
    ensures Reachable(w) && !w.installed && w.release && w.roost.Some? && w.roost.value.status.phase.Ready?
  {
    w := ReachPending();
    w := ReachesNext(w, ReleaseByOthers(true));
    w := ReachesNext(w, Read(w.roost.value));
    w := ReachesNext(w, Choose(Calm(true)));
    w := ReachesNext(w, WriteReturns(true));
  }

  /** A stripped finalizer lets the object go while its release remains. */
  lemma StrippingOrphansTheRelease() returns (w: World)
    ensures Reachable(w) && w.installed && w.release && w.roost.None?
  {
    w := InstallationHappens();
    ReachableInv(w);
    w := ReachesNext(w, UserEdit(false));
    w := ReachesNext(w, UserDelete);
    w := ReachesNext(w, UserStrip);
  }
}
