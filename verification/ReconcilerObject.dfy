/** The reconciler's handlers as they run: they mutate an in-memory ManagedRoost and write it
    back through the API server.  One undisturbed `Reconcile` call is shown to be a run of the
    protocol in `Reconciler`. */
module ReconcilerObject {
  import opened Common
  import opened Reconciler

  /** The in-memory copy that handlers work on. */
  class ManagedRoost {
    const stored: Roost         // as fetched
    var finalizer: bool
    var phase: Phase
    var ready: Condition
    var progressing: Condition
    var healthy: Condition

    constructor (r: Roost)
      ensures stored == r && finalizer == r.finalizer && View() == r.status
    {
      stored, finalizer := r, r.finalizer;
      phase, ready, progressing, healthy := r.status.phase, r.status.ready, r.status.progressing, r.status.healthy;
    }

    function View(): Status
      reads this
    {
      Status(phase, ready, progressing, healthy)
    }

    /** The Healthy condition after a check that may have failed. */
    method RecordHealth(answer: Option<bool>)
      modifies this`healthy
      ensures healthy == if answer == Some(true) then IsTrue else IsFalse
    {
      if answer.None? {
        healthy := IsFalse;
      } else if !answer.value {
        healthy := IsFalse;
      } else {
        healthy := IsTrue;
      }
    }
  }

  /** How the Helm and API calls of one reconcile turn out. */
  datatype Outcomes = Outcomes(
    answers: Answers,
    install: InstallResult,
    releaseAfterInstall: bool,
    uninstallOk: bool,
    releaseAfterUninstall: bool,
    writeApplied: bool)

  ghost function Try(w: World, step: Step): World {
    if Enabled(w, step) then Next(w, step) else w
  }

  /** The Helm call the controller is in, if any, returns. */
  ghost function AfterHelm(w: World, o: Outcomes): World {
    if w.controller.Installing? then Try(w, InstallReturns(o.install, o.releaseAfterInstall))
    else if w.controller.Uninstalling? then Try(w, UninstallReturns(o.uninstallOk, o.releaseAfterUninstall))
    else w
  }

  /** The write the controller is in, if any, returns. */
  ghost function AfterWrite(w: World, o: Outcomes): World {
    if w.controller.WritingStatus? || w.controller.WritingFinalizer? then Try(w, WriteReturns(o.writeApplied)) else w
  }

  /** The rest of a reconcile that has decided what to do, undisturbed. */
  ghost function Rest(w: World, o: Outcomes): World {
    AfterWrite(AfterHelm(w, o), o)
  }

  /** A whole undisturbed reconcile, as steps of the protocol. */
  ghost function Reconciled(w: World, cached: Option<Roost>, o: Outcomes): World {
    if cached.None? then w else Rest(Try(Try(w, Read(cached.value)), Choose(o.answers)), o)
  }

  /* ---------- What an undisturbed reconcile leaves behind ---------- */

  /** The newest version is read, the answers agree with the cluster, and the write is applied. */
  predicate Smooth(w: World, m: Roost, o: Outcomes) {
    && w.controller == Idle && Readable(w, m) && w.roost == Some(m) && o.writeApplied
    && (o.answers.releaseExists.Some? ==> o.answers.releaseExists.value == w.release)
    && (o.install.Done? ==> o.releaseAfterInstall)
    && (o.uninstallOk ==> !o.releaseAfterUninstall)
    && (o.releaseAfterUninstall ==> w.release)
  }

  /** `m` is stored with this status and otherwise as it was. */
  predicate Shows(w: World, m: Roost, st: Status) {
    w.roost.Some? && w.roost.value == m.(status := st, version := w.roost.value.version, changes := w.roost.value.changes)
  }

  /** The reconcile up to its first Helm or write call. */
  function AfterDeciding(w: World, m: Roost, a: Answers): World {
    w.(seen := m.version, controller := Decide(m, a))
  }

  lemma Decides(w: World, m: Roost, o: Outcomes)
    requires Smooth(w, m, o)
    ensures Reconciled(w, Some(m), o) == Rest(AfterDeciding(w, m, o.answers), o)
  {
    var read := Try(w, Read(m));
    assert read == w.(controller := Deciding(m), seen := m.version);
    assert Try(read, Choose(o.answers)) == AfterDeciding(w, m, o.answers);
  }

  lemma StatusIsStored(d: World, m: Roost, o: Outcomes, st: Status)
    requires d.roost == Some(m) && !m.deleting && o.writeApplied && d.controller == WritingStatus(m, st)
    ensures Shows(AfterWrite(d, o), m, st) && AfterWrite(d, o).release == d.release && AfterWrite(d, o).controller == Idle
  {
    assert AfterWrite(d, o) == Next(d, WriteReturns(true));
    var r := StatusWritten(m, st, d.revision + 1);
    assert Next(d, WriteReturns(true)) == Store(d, r).(controller := Idle) && Stored(r) == Some(r);
  }

  lemma DecidedStatusIsStored(w: World, m: Roost, o: Outcomes, st: Status)
    requires Smooth(w, m, o) && !m.deleting && Decide(m, o.answers) == WritingStatus(m, st)
    ensures var v := Reconciled(w, Some(m), o); Shows(v, m, st) && v.release == w.release && v.controller == Idle
  {
    Decides(w, m, o);
    var d := AfterDeciding(w, m, o.answers);
    assert Rest(d, o) == AfterWrite(d, o);
    StatusIsStored(d, m, o, st);
  }

  /** An invalid specification or a failed lookup fails the roost, a release that is found makes it Ready. */
  lemma PendingOutcome(w: World, m: Roost, o: Outcomes)
    requires Smooth(w, m, o) && !m.deleting && m.finalizer && m.status.phase.Pending?
    ensures var v := Reconciled(w, Some(m), o);
      && v.release == w.release && v.controller == Idle
      && (!o.answers.valid || o.answers.releaseExists.None? ==> Shows(v, m, Status(Failed, IsFalse, IsFalse, m.status.healthy)))
      && (o.answers.valid && o.answers.releaseExists == Some(true) ==> Shows(v, m, Status(Ready, IsTrue, IsFalse, m.status.healthy)))
      && (o.answers.valid && o.answers.releaseExists == Some(false) ==>
            Shows(v, m, Status(Deploying, m.status.ready, IsTrue, m.status.healthy)))
  {
    DecidedStatusIsStored(w, m, o, Decide(m, o.answers).status);
  }

  /** A failed install fails the roost, a finished one makes it Ready. */
  lemma DeployingOutcome(w: World, m: Roost, o: Outcomes)
    requires Smooth(w, m, o) && !m.deleting && m.finalizer && m.status.phase.Deploying?
    ensures var v := Reconciled(w, Some(m), o);
      && v.release == o.releaseAfterInstall && v.controller == Idle
      && Shows(v, m,
           match o.install
           case InstallError => Status(Failed, IsFalse, IsFalse, m.status.healthy)
           case InProgress => Status(Deploying, m.status.ready, IsTrue, m.status.healthy)
           case Done => Status(Ready, IsTrue, IsFalse, m.status.healthy))
  {
    Decides(w, m, o);
    var d := AfterDeciding(w, m, o.answers);
    var installed := AfterHelm(d, o);
    assert installed == Next(d, InstallReturns(o.install, o.releaseAfterInstall));
    StatusIsStored(installed, m, o, AfterInstall(m, o.install).status);
  }

  /** A failed upgrade fails the roost; otherwise its health is recorded and a due teardown starts. */
  lemma ReadyOutcome(w: World, m: Roost, o: Outcomes)
    requires Smooth(w, m, o) && !m.deleting && m.finalizer && m.status.phase.Ready? && o.answers.needsUpgrade.Some?
    ensures var v := Reconciled(w, Some(m), o);
      var health := if o.answers.healthy == Some(true) then IsTrue else IsFalse;
      && v.release == w.release && v.controller == Idle
      && Shows(v, m,
           if o.answers.needsUpgrade.value && !o.answers.upgradeOk then Status(Failed, IsFalse, IsFalse, m.status.healthy)
           else if o.answers.teardownDue then Status(TearingDown, m.status.ready, m.status.progressing, health)
           else Status(Ready, IsTrue, IsFalse, health))
  {
    DecidedStatusIsStored(w, m, o, Decide(m, o.answers).status);
  }

  /** If it cannot be told whether an upgrade is needed, nothing is written. */
  lemma ReadyUndecided(w: World, m: Roost, o: Outcomes)
    requires Smooth(w, m, o) && !m.deleting && m.finalizer && m.status.phase.Ready? && o.answers.needsUpgrade.None?
    ensures var v := Reconciled(w, Some(m), o); v.roost == w.roost && v.release == w.release && v.controller == Idle
  {
    Decides(w, m, o);
  }

  /** A failed roost stays failed; one without a known phase becomes Pending. */
  lemma OtherOutcome(w: World, m: Roost, o: Outcomes)
    requires Smooth(w, m, o) && !m.deleting && m.finalizer
    requires m.status.phase.Failed? || m.status.phase.Unset? || m.status.phase.Unknown?
    ensures var v := Reconciled(w, Some(m), o);
      && v.release == w.release && v.controller == Idle
      && Shows(v, m,
           if m.status.phase.Failed? then Status(Failed, IsFalse, IsFalse, m.status.healthy)
           else Status(Pending, m.status.ready, IsTrue, m.status.healthy))
  {
    DecidedStatusIsStored(w, m, o, Decide(m, o.answers).status);
  }

  lemma FinalizerIsStored(d: World, m: Roost, o: Outcomes, f: bool)
    requires d.roost == Some(m) && o.writeApplied && d.controller == WritingFinalizer(m, f)
    ensures var v := AfterWrite(d, o);
      && v.roost == (if m.deleting && !f && !m.otherFinalizers then None
                     else Some(m.(finalizer := f, version := d.revision + 1)))
      && v.release == d.release && v.controller == Idle
  {
    assert AfterWrite(d, o) == Next(d, WriteReturns(true));
  }

  /** Without its finalizer a live object gets it back, and nothing else happens. */
  lemma FinalizerOutcome(w: World, m: Roost, o: Outcomes)
    requires Smooth(w, m, o) && !m.deleting && !m.finalizer
    ensures var v := Reconciled(w, Some(m), o);
      && v.release == w.release && v.controller == Idle
      && v.roost == Some(m.(finalizer := true, version := w.revision + 1))
  {
    Decides(w, m, o);
    var d := AfterDeciding(w, m, o.answers);
    assert Rest(d, o) == AfterWrite(d, o);
    FinalizerIsStored(d, m, o, true);
  }

  /** A deleted object, or one that tears down, loses its finalizer exactly when Helm has uninstalled the
      release; a deleted one that nothing else holds is then gone. */
  lemma UninstallOutcome(w: World, m: Roost, o: Outcomes)
    requires Smooth(w, m, o) && m.finalizer && (m.deleting || m.status.phase.TearingDown?)
    ensures var v := Reconciled(w, Some(m), o);
      && v.release == o.releaseAfterUninstall && v.controller == Idle
      && v.roost == if !o.uninstallOk then w.roost
                    else if m.deleting && !m.otherFinalizers then None
                    else Some(m.(finalizer := false, version := w.revision + 1))
  {
    Decides(w, m, o);
    var d := AfterDeciding(w, m, o.answers);
    var u := AfterHelm(d, o);
    assert u == Next(d, UninstallReturns(o.uninstallOk, o.releaseAfterUninstall));
    if o.uninstallOk {
      FinalizerIsStored(u, m, o, false);
    }
  }

  /** All cases of a live object with its finalizer, by phase. */
  lemma PhaseOutcome(w: World, m: Roost, o: Outcomes)
    requires Smooth(w, m, o) && !m.deleting && m.finalizer
    ensures var v := Reconciled(w, Some(m), o); var a := o.answers;
      v.roost.Some? && v.roost.value.status.phase ==
        match m.status.phase
        case Pending => if !a.valid || a.releaseExists.None? then Failed else if a.releaseExists.value then Ready else Deploying
        case Deploying => (match o.install case InstallError => Failed case InProgress => Deploying case Done => Ready)
        case Ready =>
          if a.needsUpgrade.None? then Ready
          else if a.needsUpgrade.value && !a.upgradeOk then Failed
          else if a.teardownDue then TearingDown else Ready
        case Failed => Failed
        case TearingDown => TearingDown
        case _ => Pending
  {
    match m.status.phase
    case Pending => PendingOutcome(w, m, o);
    case Deploying => DeployingOutcome(w, m, o);
    case Ready =>
      if o.answers.needsUpgrade.None? {
        ReadyUndecided(w, m, o);
      } else {
        ReadyOutcome(w, m, o);
      }
    case TearingDown => UninstallOutcome(w, m, o);
    case _ => OtherOutcome(w, m, o);
  }

  lemma HelmStoresNothing(d: World, o: Outcomes)
    ensures AfterHelm(d, o).roost == d.roost
  {
  }

  /** Without an applied write the stored object is untouched. */
  lemma NoWriteNoChange(w: World, cached: Option<Roost>, o: Outcomes)
    requires !o.writeApplied && w.controller == Idle
    ensures Reconciled(w, cached, o).roost == w.roost
  {
    if cached.Some? {
      var d := Try(Try(w, Read(cached.value)), Choose(o.answers));
      assert d.roost == w.roost;
      HelmStoresNothing(d, o);
    }
  }

  /** API server, Helm and the controller. */
  class Cluster {
    var roost: Option<Roost>
    var revision: nat
    var release: bool
    ghost var model: World
    ghost var steps: seq<Step>

    /** The fields are the model's. */
    ghost predicate Aligned()
      reads this
    {
      model.roost == roost && model.revision == revision && model.release == release
    }

    ghost predicate Traced()
      reads this
    {
      Run(INITIAL, steps) == Some(model)
    }

    ghost predicate Valid()
      reads this
    {
      Aligned() && Traced() && model.controller == Idle
    }

    /** An empty cluster. */
    constructor ()
      ensures Valid() && roost == None && !release
    {
      roost, revision, release := None, 0, false;
      model, steps := INITIAL, [];
    }

    /** Between reconciles, anyone else may act. */
    method ActedOn(step: Step)
      requires Valid() && ByOthers(step) && Enabled(model, step)
      modifies this
      ensures Valid() && model == Next(old(model), step) && steps == old(steps) + [step]
    {
      Record(step);
      match step {
        case UserCreate(others) =>
          revision := revision + 1;
          roost := Some(Roost(revision, revision, false, false, others, FRESH_STATUS, 0));
        case UserEdit(others) =>
          revision := revision + 1;
          roost := Stored(roost.value.(otherFinalizers := others, version := revision));
        case UserDelete =>
          revision := revision + 1;
          roost := Stored(roost.value.(deleting := true, version := revision));
        case UserStrip =>
          revision := revision + 1;
          roost := Stored(roost.value.(finalizer := false, version := revision));
        case ReleaseByOthers(after) => release := after;
      }
    }

    ghost method Record(step: Step)
      requires Traced() && Enabled(model, step)
      modifies this`model, this`steps
      ensures Traced() && model == Next(old(model), step) && steps == old(steps) + [step]
    {
      RunSnoc(INITIAL, steps, step);
      model, steps := Next(model, step), steps + [step];
    }

    /** The answers agree with the cluster; a write is applied only to the version that was read. */
    predicate Possible(m: Roost, o: Outcomes)
      reads this
    {
      && (o.writeApplied ==> roost == Some(m))
      && (o.answers.releaseExists.Some? ==> o.answers.releaseExists.value == release)
      && (o.install.Done? ==> o.releaseAfterInstall)
      && (o.uninstallOk ==> !o.releaseAfterUninstall)
      && (o.releaseAfterUninstall ==> release)
    }

    /** `updateStatus`: the status subresource only. */
    method UpdateStatus(m: ManagedRoost, applied: bool)
      requires Aligned() && Traced() && (applied ==> roost == Some(m.stored)) && model.controller == WritingStatus(m.stored, m.View())
      modifies this
      ensures Valid() && old(steps) <= steps && model == Next(old(model), WriteReturns(applied))
      ensures roost == if applied then Stored(StatusWritten(m.stored, m.View(), revision)) else old(roost)
    {
      Record(WriteReturns(applied));
      if applied {
        revision := revision + 1;
        roost := Stored(StatusWritten(m.stored, m.View(), revision));
      }
    }

    /** `Update`: metadata, not status; the API server drops an unheld deleted object. */
    method UpdateFinalizer(m: ManagedRoost, applied: bool)
      requires Aligned() && Traced() && (applied ==> roost == Some(m.stored)) && model.controller == WritingFinalizer(m.stored, m.finalizer)
      modifies this
      ensures Valid() && old(steps) <= steps && model == Next(old(model), WriteReturns(applied))
      ensures roost == if applied then Stored(m.stored.(finalizer := m.finalizer, version := revision)) else old(roost)
    {
      Record(WriteReturns(applied));
      if applied {
        revision := revision + 1;
        roost := Stored(m.stored.(finalizer := m.finalizer, version := revision));
      }
    }

    method TransitionToPhase(m: ManagedRoost, newPhase: Phase, applied: bool)
      requires Aligned() && Traced() && (applied ==> roost == Some(m.stored))
      requires model.controller == WritingStatus(m.stored, Transition(m.View(), newPhase))
      modifies this, m
      ensures Valid() && old(steps) <= steps && model == Next(old(model), WriteReturns(applied))
      ensures roost == if applied then Stored(StatusWritten(m.stored, Transition(old(m.View()), newPhase), revision)) else old(roost)
    {
      m.phase := newPhase;
      match newPhase {
        case Pending => m.progressing := IsTrue;
        case Deploying => m.progressing := IsTrue;
        case Ready => m.ready, m.progressing := IsTrue, IsFalse;
        case Failed => m.ready, m.progressing := IsFalse, IsFalse;
        case _ =>
      }
      UpdateStatus(m, applied);
    }

    /** `cached` is what the client's cache returns: nothing, or a version no older than the last one read. */
    method Reconcile(cached: Option<Roost>, o: Outcomes)
      requires Valid() && (cached.Some? ==> Readable(model, cached.value) && Possible(cached.value, o))
      modifies this
      ensures Valid() && old(steps) <= steps && model == Reconciled(old(model), cached, o)
      ensures cached.None? || !o.writeApplied ==> roost == old(roost)
      ensures cached.Some? && o.writeApplied && !cached.value.deleting && cached.value.finalizer ==> var a := o.answers;
        roost.Some? && roost.value.status.phase ==
          match cached.value.status.phase
          case Pending => if !a.valid || a.releaseExists.None? then Failed else if a.releaseExists.value then Ready else Deploying
          case Deploying => (match o.install case InstallError => Failed case InProgress => Deploying case Done => Ready)
          case Ready =>
            if a.needsUpgrade.None? then Ready
            else if a.needsUpgrade.value && !a.upgradeOk then Failed
            else if a.teardownDue then TearingDown else Ready
          case Failed => Failed
          case TearingDown => TearingDown
          case _ => Pending
    {
      if cached.None? {
        return;
      }
      if !o.writeApplied {
        NoWriteNoChange(model, cached, o);
      } else if !cached.value.deleting && cached.value.finalizer {
        PhaseOutcome(model, cached.value, o);
      }
      ReconcileFetched(cached.value, o);
    }

    /** The rest of `Reconcile`, with the object it fetched. */
    method ReconcileFetched(fetched: Roost, o: Outcomes)
      requires Valid() && Readable(model, fetched) && Possible(fetched, o)
      modifies this
      ensures Valid() && old(steps) <= steps && model == Reconciled(old(model), Some(fetched), o)
    {
      Record(Read(fetched));
      var m := new ManagedRoost(fetched);
      Record(Choose(o.answers));
      if m.stored.deleting {
        ReconcileDelete(m, o);
      } else {
        ReconcileNormal(m, o);
      }
    }

    /** The controller has read the object and settled its next call. */
    ghost predicate Decided(m: ManagedRoost, o: Outcomes)
      reads this, m
    {
      && Aligned() && Traced() && Possible(m.stored, o)
      && m.View() == m.stored.status && m.finalizer == m.stored.finalizer
      && model.controller == Decide(m.stored, o.answers)
    }

    method ReconcileDelete(m: ManagedRoost, o: Outcomes)
      requires Decided(m, o) && m.stored.deleting
      modifies this, m
      ensures Valid() && old(steps) <= steps && model == Rest(old(model), o)
    {
      if !m.finalizer {
        return;
      }
      UninstallThenRelease(m, o);
    }

    /** Uninstall, and only after it succeeded drop the finalizer. */
    method UninstallThenRelease(m: ManagedRoost, o: Outcomes)
      requires Aligned() && Traced() && Possible(m.stored, o) && m.stored.finalizer
      requires model.controller == Uninstalling(m.stored)
      modifies this, m
      ensures Valid() && old(steps) <= steps && model == Rest(old(model), o)
      ensures roost != old(roost) ==> o.uninstallOk && !release
    {
      Record(UninstallReturns(o.uninstallOk, o.releaseAfterUninstall));
      release := o.releaseAfterUninstall;
      if !o.uninstallOk {
        return;
      }
      m.finalizer := false;
      UpdateFinalizer(m, o.writeApplied);
    }

    method ReconcileNormal(m: ManagedRoost, o: Outcomes)
      requires Decided(m, o) && !m.stored.deleting
      modifies this, m
      ensures Valid() && old(steps) <= steps && model == Rest(old(model), o)
    {
      if !m.finalizer {
        m.finalizer := true;
        UpdateFinalizer(m, o.writeApplied);
        return;
      }
      match m.phase {
        case Pending => HandlePendingPhase(m, o);
        case Deploying => HandleDeployingPhase(m, o);
        case Ready => HandleReadyPhase(m, o);
        case Failed => HandleFailedPhase(m, o);
        case TearingDown => UninstallThenRelease(m, o);
        case Unset => TransitionToPhase(m, Pending, o.writeApplied);
        case Unknown => TransitionToPhase(m, Pending, o.writeApplied);
      }
    }

    method HandlePendingPhase(m: ManagedRoost, o: Outcomes)
      requires Decided(m, o) && !m.stored.deleting && m.finalizer && m.phase.Pending?
      modifies this, m
      ensures Valid() && old(steps) <= steps && model == Rest(old(model), o)
    {
      if !o.answers.valid {
        TransitionToPhase(m, Failed, o.writeApplied);
      } else if o.answers.releaseExists.None? {
        TransitionToPhase(m, Failed, o.writeApplied);
      } else if o.answers.releaseExists.value {
        TransitionToPhase(m, Ready, o.writeApplied);
      } else {
        TransitionToPhase(m, Deploying, o.writeApplied);
      }
    }

    method HandleDeployingPhase(m: ManagedRoost, o: Outcomes)
      requires Decided(m, o) && !m.stored.deleting && m.finalizer && m.phase.Deploying?
      modifies this, m
      ensures Valid() && old(steps) <= steps && model == Rest(old(model), o)
    {
      Record(InstallReturns(o.install, o.releaseAfterInstall));
      release := o.releaseAfterInstall;
      match o.install {
        case InstallError => TransitionToPhase(m, Failed, o.writeApplied);
        case InProgress =>
          m.progressing := IsTrue;
          UpdateStatus(m, o.writeApplied);
        case Done => TransitionToPhase(m, Ready, o.writeApplied);
      }
    }

    method HandleReadyPhase(m: ManagedRoost, o: Outcomes)
      requires Decided(m, o) && !m.stored.deleting && m.finalizer && m.phase.Ready?
      modifies this, m
      ensures Valid() && old(steps) <= steps && model == Rest(old(model), o)
    {
      if o.answers.needsUpgrade.None? {
        return;
      }
      if o.answers.needsUpgrade.value && !o.answers.upgradeOk {
        TransitionToPhase(m, Failed, o.writeApplied);
        return;
      }
      m.RecordHealth(o.answers.healthy);
      if o.answers.teardownDue {
        TransitionToPhase(m, TearingDown, o.writeApplied);
        return;
      }
      m.ready := IsTrue;
      m.progressing := IsFalse;
      UpdateStatus(m, o.writeApplied);
    }

    method HandleFailedPhase(m: ManagedRoost, o: Outcomes)
      requires Decided(m, o) && !m.stored.deleting && m.finalizer && m.phase.Failed?
      modifies this, m
      ensures Valid() && old(steps) <= steps && model == Rest(old(model), o)
    {
      m.ready := IsFalse;
      m.progressing := IsFalse;
      UpdateStatus(m, o.writeApplied);
    }
  }
}
