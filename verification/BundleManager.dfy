/**
 * internal/xrayupdate/manager.go as it works: the files of xray-runtime/ changed step by step.
 * Every method is proved equal to the specification function it names.
 */
module BundleManager {
  import opened Common
  import opened ConfigNames
  import opened NodeState
  import opened Retention
  import opened Spec = BundleActivation
  import Config = ConfigActivation

  /** What the caller gets when a step did not succeed. */
  function Failure(status: Status, r: Result): Result {
    if status.Died? then Crashed else r
  }

  class Manager {
    var current: Option<BundleTarget>
    var previous: Option<BundleTarget>
    var applied: Option<AppliedBundle>
    var pending: Option<PendingBundle>
    var failed: Option<BundleFailure>
    var versions: map<BundleTarget, BundleDirectory>

    var process: Process
    var starts: seq<Start>
    var fates: seq<Fate>

    /** The configuration manager's files, which this manager only reads. */
    const configs: ConfigFiles
    const lossy: bool

    function Files(): BundleFiles
      reads this
    {
      BundleFiles(current, previous, applied, pending, failed, versions)
    }

    function Node(): World
      reads this
    {
      World(configs, Files(), process, starts, lossy, fates)
    }

    ghost predicate Reached(s: Step, status: Status)
      reads this
    {
      && Node() == s.w
      && (status.Success? <==> s.Ok?) && (status.Error? <==> s.Err?)
    }

    ghost predicate Returned(f: Flow<Result>, r: Result)
      reads this
    {
      f == Return(Node(), r)
    }

    constructor (w: World)
      ensures Node() == w
    {
      var b := w.bun;
      current, previous, applied, pending, failed := b.current, b.previous, b.applied, b.pending, b.failed;
      versions := b.versions;
      process, starts, fates := w.process, w.starts, w.fates;
      configs, lossy := w.cfg, w.lossy;
    }

    // -------------------------------------------------------------- durable steps

    method NextFate() returns (f: Fate)
      modifies this`fates
      ensures f == Next(old(Node())) && fates == Rest(old(Node()))
    {
      if fates == [] {
        f := Crash;
      } else {
        f := fates[0];
        fates := fates[1..];
      }
    }

    method CheckStep() returns (status: Status)
      modifies this
      ensures Reached(Check(old(Node())), status)
    {
      var f := NextFate();
      status := Report(f);
    }

    method WritePending(p: Option<PendingBundle>) returns (status: Status)
      modifies this
      ensures Reached(PutBundle(old(Node()), old(Files()).(pending := p)), status)
    {
      var f := NextFate();
      if f.Done? || f.DoneButError? { pending := p; }
      status := Report(f);
    }

    method WriteApplied(a: Option<AppliedBundle>) returns (status: Status)
      modifies this
      ensures Reached(PutBundle(old(Node()), old(Files()).(applied := a)), status)
    {
      var f := NextFate();
      if f.Done? || f.DoneButError? { applied := a; }
      status := Report(f);
    }

    /** The applied record of a candidate: a sync failure after the rename loses the success only on a lossy node. */
    method CommitApplied(a: AppliedBundle) returns (status: Status)
      modifies this
      ensures Reached(PutApplied(old(Node()), a), status)
    {
      var f := NextFate();
      if f.Done? || (lossy && f.DoneButError?) { applied := Some(a); }
      status := Report(f);
    }

    method WriteFailed(failure: Option<BundleFailure>) returns (status: Status)
      modifies this
      ensures Reached(PutBundle(old(Node()), old(Files()).(failed := failure)), status)
    {
      var f := NextFate();
      if f.Done? || f.DoneButError? { failed := failure; }
      status := Report(f);
    }

    method RemoveCurrent() returns (status: Status)
      modifies this
      ensures Reached(PutBundle(old(Node()), old(Files()).(current := None)), status)
    {
      var f := NextFate();
      if f.Done? || f.DoneButError? { current := None; }
      status := Report(f);
    }

    method LinkCurrent(t: BundleTarget) returns (status: Status)
      modifies this
      ensures Reached(PutBundle(old(Node()), old(Files()).(current := Some(t))), status)
    {
      var f := NextFate();
      if f.Done? || f.DoneButError? { current := Some(t); }
      status := Report(f);
    }

    method LinkPrevious(t: BundleTarget) returns (status: Status)
      modifies this
      ensures Reached(PutBundle(old(Node()), old(Files()).(previous := Some(t))), status)
    {
      var f := NextFate();
      if f.Done? || f.DoneButError? { previous := Some(t); }
      status := Report(f);
    }

    method WriteDirectory(t: BundleTarget, d: BundleDirectory) returns (status: Status)
      modifies this
      ensures Reached(PutBundle(old(Node()), old(Files()).(versions := old(versions)[t := d])), status)
    {
      var f := NextFate();
      if f.Done? || f.DoneButError? { versions := versions[t := d]; }
      status := Report(f);
    }

    method RemoveDirectory(t: BundleTarget) returns (status: Status)
      modifies this
      ensures Reached(RenameBundle(old(Node()), old(Files()).(versions := old(versions) - {t})), status)
    {
      var f := NextFate();
      if f.Done? { versions := versions - {t}; }
      status := Report(f);
    }

    method RestartAndWait() returns (status: Status)
      modifies this
      ensures Reached(Restart(old(Node())), status)
    {
      var f := NextFate();
      process := Anything;
      if f.Done? {
        var start := Start(ActivePath(Files()), configs.current);
        process := Running(start);
        starts := starts + [start];
      }
      status := Report(f);
    }

    method StopAndWait() returns (status: Status)
      modifies this
      ensures Reached(Stop(old(Node())), status)
    {
      var f := NextFate();
      process := if f.Done? then Stopped else Anything;
      status := Report(f);
    }

    // -------------------------------------------------------------- retention

    method PruneVersions() returns (status: Status)
      modifies this
      ensures Reached(Prune(old(Node())), status)
    {
      hide Entries, Protected, ByRank, ValidApplied, ValidPending;
      if LoadApplied(Files()).Invalid? || LoadPending(Files()).Invalid? {
        return Error;
      }
      var protected := Protected(Files());
      var q := Sort(Entries(Files()));
      var removed, i := false, 0;
      ghost var goal := Prune(Node());
      while i < |q|
        invariant i <= |q|
        invariant Delete(Node(), DoomedFrom(q, i, protected, RETAINED_BUNDLES), removed) == goal
      {
        if i >= RETAINED_BUNDLES && q[i].key !in protected {
          status := RemoveDirectory(q[i].key);
          if !status.Success? { return; }
          removed := true;
        }
        i := i + 1;
      }
      if removed {
        status := CheckStep();
      } else {
        status := Success;
      }
    }

    // -------------------------------------------------------------- rollback

    method RecordRollback(p: PendingBundle, code: ErrorCode) returns (status: Status)
      modifies this
      ensures Reached(Spec.RecordRollback(old(Node()), p, code), status)
    {
      status := WriteFailed(Some(BundleFailure(p.version, code, RolledBack)));
      if status.Success? {
        status := WritePending(None);
      }
    }

    method PrepareController(p: PendingBundle) returns (status: Status)
      modifies this
      ensures Reached(PrepareRollbackController(old(Node()), p), status)
    {
      var a := LoadApplied(Files());
      if a.Missing? { return Success; }
      if a.Invalid? { return Error; }
      if !Matches(a.value, p) || current.Some? { return Success; }
      if !VerifyAppliedTarget(Files(), a.value) { return Error; }
      status := LinkCurrent(p.target);
    }

    /** Put the old pair back; a previous bundle that no longer verifies is deselected instead. */
    method RestorePair(p: PendingBundle) returns (status: Status)
      modifies this
      ensures Reached(RestoreFiles(old(Node()), p), status)
    {
      hide PutBundle, RollbackApplied;
      if p.previousTarget.None? {
        status := RemoveCurrent();
        if !status.Success? { return; }
        status := WriteApplied(None);
        return;
      }
      var a := RollbackApplied(Files(), p);
      if a.None? {
        status := RemoveCurrent();
        return if status.Died? then Died else Error;
      }
      status := LinkCurrent(p.previousTarget.value);
      if !status.Success? { return; }
      status := WriteApplied(a);
    }

    method RollBack(p: PendingBundle, hasConfig: bool, code: ErrorCode) returns (status: Status)
      modifies this
      ensures Reached(Rollback(old(Node()), p, hasConfig, code), status)
    {
      hide PrepareRollbackController, Stop, RestoreFiles, Restart, Spec.RecordRollback;
      if hasConfig {
        status := PrepareController(p);
        if !status.Success? { return; }
        status := StopAndWait();
        if !status.Success? { return; }
      }
      status := RestorePair(p);
      if !status.Success? { return; }
      if hasConfig {
        status := RestartAndWait();
        if !status.Success? { return; }
      }
      status := RecordRollback(p, code);
    }

    method RollBackResult(p: PendingBundle, hasConfig: bool, code: ErrorCode) returns (r: Result)
      modifies this
      ensures Returned(RollbackResult(old(Node()), p, hasConfig, code), r)
    {
      var status := RollBack(p, hasConfig, code);
      match status
      case Success => return RolledBackTo(p.version, code);
      case Died => return Crashed;
      case Error =>
        status := WriteFailed(Some(BundleFailure(p.version, code, Failed)));
        return Failure(status, Refused(RecoveryFailed, Failed));
    }

    // -------------------------------------------------------------- recover

    method ConfirmApplied() returns (status: Status)
      modifies this
      ensures Reached(Confirm(old(Node())), status)
    {
      status := WritePending(None);
      if !status.Success? { return; }
      status := WriteFailed(None);
    }

    method Recover() returns (r: Result)
      modifies this
      ensures Returned(Spec.Recover(old(Node())), r)
    {
      hide RollbackResult, Confirm, Check, VerifyApplied;
      var failure := Refused(RecoveryFailed, Unknown);
      var status := CheckStep();
      if !status.Success? { return Failure(status, failure); }
      var p := LoadPending(Files());
      if p.Missing? { return Recovered; }
      if p.Invalid? { return failure; }
      var a := LoadApplied(Files());
      if a.Found? && Matches(a.value, p.value) && VerifyApplied(Files(), a.value) {
        status := ConfirmApplied();
        return if status.Success? then Recovered else Failure(status, failure);
      }
      var config := Config.LoadCurrent(configs);
      if a.Invalid? || config.Invalid? { return failure; }
      r := RollBackResult(p.value, config.Found?, PreparationFailed);
      if r.RolledBackTo? { r := Recovered; }
    }

    // -------------------------------------------------------------- install

    /** A step failed after the pending record was written. */
    method UndoAfter(status: Status, p: PendingBundle, hasConfig: bool, code: ErrorCode) returns (r: Result)
      requires !status.Success?
      modifies this
      ensures status.Died? ==> Node() == old(Node()) && r == Crashed
      ensures status.Error? ==> Returned(RollbackResult(old(Node()), p, hasConfig, code), r)
    {
      if status.Died? { return Crashed; }
      r := RollBackResult(p, hasConfig, code);
    }

    method FinishInstall(next: AppliedBundle) returns (r: Result)
      modifies this
      ensures Returned(Finish(old(Node()), next), r)
    {
      hide PutBundle, Prune;
      var status := WritePending(None);
      if !status.Success? { return Failure(status, Refused(PersistenceFailed, Unknown)); }
      status := WriteFailed(None);
      if !status.Success? { return Failure(status, Refused(PersistenceFailed, Unknown)); }
      status := PruneVersions();
      if !status.Success? { return Failure(status, Refused(PersistenceFailed, NotRequired)); }
      return Installed(next);
    }

    method ActivateBundle(p: PendingBundle, hasConfig: bool, now: Clock) returns (r: Result)
      modifies this
      ensures Returned(Activate(old(Node()), p, hasConfig, now), r)
    {
      hide PutBundle, Stop, Restart, PutApplied, Finish, RollbackResult;
      var status := WritePending(Some(p));
      if !status.Success? { return Failure(status, Refused(PreparationFailed, NotRequired)); }
      if hasConfig {
        status := StopAndWait();
        if !status.Success? { r := UndoAfter(status, p, hasConfig, ActivationFailed); return; }
      }
      status := LinkCurrent(p.target);
      if !status.Success? { r := UndoAfter(status, p, hasConfig, PersistenceFailed); return; }
      if hasConfig {
        status := RestartAndWait();
        if !status.Success? { r := UndoAfter(status, p, hasConfig, ActivationFailed); return; }
      }
      if p.previousTarget.Some? {
        status := LinkPrevious(p.previousTarget.value);
        if !status.Success? { r := UndoAfter(status, p, hasConfig, PersistenceFailed); return; }
      }
      var next := AppliedBundle(p.version, p.xrayVersion, p.digest, p.target, now.appliedAt);
      status := CommitApplied(next);
      if !status.Success? { r := UndoAfter(status, p, hasConfig, PersistenceFailed); return; }
      r := FinishInstall(next);
    }

    /** Unpack a release that is not there yet; an existing directory is used only if it is the release's. */
    method InstallDirectory(rel: Release, now: Clock) returns (target: Option<BundleTarget>, r: Result)
      modifies this
      ensures match target
              case Some(t) => InstallBundle(old(Node()), rel, now) == Unpacked(Node(), t)
              case None => InstallBundle(old(Node()), rel, now) == NotUnpacked(Node(), r)
    {
      hide PutBundle, Check;
      var t := BundleTarget(rel.version, rel.digest);
      var refused := Refused(PreparationFailed, NotRequired);
      if t in versions {
        if Verified(Files(), t) && versions[t].xrayVersion == rel.xrayVersion { return Some(t), Crashed; }
        return None, refused;
      }
      var status := CheckStep();
      if !status.Success? { return None, Failure(status, refused); }
      status := WriteDirectory(t, BundleDirectory(rel.version, rel.xrayVersion, rel.digest, true, now.mtime));
      if !status.Success? { return None, Failure(status, refused); }
      return Some(t), Crashed;
    }

    method ConfirmRepeated(a: AppliedBundle) returns (r: Result)
      modifies this
      ensures Returned(ConfirmAgain(old(Node()), a), r)
    {
      hide PutBundle, Prune;
      var status := WriteFailed(None);
      if !status.Success? { return Failure(status, Refused(PersistenceFailed, NotRequired)); }
      status := PruneVersions();
      if !status.Success? { return Failure(status, Refused(PersistenceFailed, NotRequired)); }
      return Installed(a);
    }

    /** The candidate must accept the applied configuration, then the controller must be ready. */
    method BeginInstall(rel: Release, target: BundleTarget, previousTarget: Option<BundleTarget>,
                        previousApplied: Option<AppliedBundle>, now: Clock) returns (r: Result)
      modifies this
      ensures Returned(Begin(old(Node()), rel, target, previousTarget, previousApplied, now), r)
    {
      hide Check, Activate;
      var config := Config.LoadCurrent(configs);
      if config.Invalid? { return Refused(PreparationFailed, NotRequired); }
      if config.Found? {
        var status := CheckStep();
        if !status.Success? { return Failure(status, Refused(ValidationFailed, NotRequired)); }
        status := CheckStep();
        if !status.Success? { return Failure(status, Refused(PreparationFailed, NotRequired)); }
      }
      var p := PendingBundle(rel.commandId, previousTarget, previousApplied, target,
                             rel.version, rel.xrayVersion, rel.digest, now.startedAt);
      r := ActivateBundle(p, config.Found?, now);
    }

    method Install(rel: Release, now: Clock) returns (r: Result)
      modifies this
      ensures Returned(Spec.Install(old(Node()), rel, now), r)
    {
      hide Check, Prune, InstallBundle, Begin, ConfirmAgain, VerifyApplied, ValidApplied, ValidPending, ValidVersion;
      var refused := Refused(PreparationFailed, NotRequired);
      if rel.commandId == "" || |rel.commandId| > 256 || !ValidVersion(rel.version) || !ValidVersion(rel.xrayVersion) {
        return refused;
      }
      if !LoadPending(Files()).Missing? { return Refused(PreparationFailed, Unknown); }
      var status := PruneVersions();
      if !status.Success? { return Failure(status, refused); }
      var target, failure := InstallDirectory(rel, now);
      if target.None? { return failure; }
      status := CheckStep();
      if !status.Success? { return Failure(status, Refused(ValidationFailed, NotRequired)); }
      match LoadApplied(Files())
      case Invalid => return refused;
      case Missing =>
        if current.Some? { return refused; }
        r := BeginInstall(rel, target.value, None, None, now);
      case Found(a) =>
        if !VerifyApplied(Files(), a) { return refused; }
        if a.version == rel.version && a.xrayVersion == rel.xrayVersion && a.digest == rel.digest && a.target == target.value {
          r := ConfirmRepeated(a);
        } else {
          r := BeginInstall(rel, target.value, Some(a.target), Some(a), now);
        }
    }
  }
}
