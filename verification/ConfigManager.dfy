/**
 * internal/xrayruntime/manager.go as it works: the files of xray-config/ changed step by step.
 * Every method is proved equal to the specification function of the same name.
 */
module ConfigManager {
  import opened Common
  import opened ConfigNames
  import opened NodeState
  import opened Retention
  import opened Spec = ConfigActivation

  /** What the caller gets when a step did not succeed. */
  function Failure(status: Status, r: Result): Result {
    if status.Died? then Crashed else r
  }

  class Manager {
    var current: Option<ConfigTarget>
    var previous: Option<ConfigTarget>
    var applied: Option<AppliedConfig>
    var pending: Option<PendingConfig>
    var failed: Option<ConfigFailure>
    var versions: map<ConfigTarget, VersionFile>
    var candidate: Option<Content>
    var validation: Option<Validation>

    var process: Process
    var starts: seq<Start>
    var fates: seq<Fate>

    /** The bundle manager's files, which this manager only reads. */
    const bundles: BundleFiles
    const lossy: bool

    function Files(): ConfigFiles
      reads this
    {
      ConfigFiles(current, previous, applied, pending, failed, versions, candidate, validation)
    }

    function Node(): World
      reads this
    {
      World(Files(), bundles, process, starts, lossy, fates)
    }

    ghost predicate Reached(s: Step, status: Status)
      reads this
    {
      && Node() == s.w
      && (status.Success? <==> s.Ok?) && (status.Error? <==> s.Err?)
    }

    ghost predicate Returned(f: Flow<Result>, r: Result)
      reads this
    {
      f == Return(Node(), r)
    }

    constructor (w: World)
      ensures Node() == w
    {
      var c := w.cfg;
      current, previous, applied, pending, failed := c.current, c.previous, c.applied, c.pending, c.failed;
      versions, candidate, validation := c.versions, c.candidate, c.validation;
      process, starts, fates := w.process, w.starts, w.fates;
      bundles, lossy := w.bun, w.lossy;
    }

    // -------------------------------------------------------------- durable steps

    method NextFate() returns (f: Fate)
      modifies this`fates
      ensures f == Next(old(Node())) && fates == Rest(old(Node()))
    {
      if fates == [] {
        f := Crash;
      } else {
        f := fates[0];
        fates := fates[1..];
      }
    }

    method CheckStep() returns (status: Status)
      modifies this
      ensures Reached(Check(old(Node())), status)
    {
      var f := NextFate();
      status := Report(f);
    }

    method WritePending(p: Option<PendingConfig>) returns (status: Status)
      modifies this
      ensures Reached(Put(old(Node()), old(Files()).(pending := p)), status)
    {
      var f := NextFate();
      if f.Done? || f.DoneButError? { pending := p; }
      status := Report(f);
    }

    method WriteApplied(a: Option<AppliedConfig>) returns (status: Status)
      modifies this
      ensures Reached(Put(old(Node()), old(Files()).(applied := a)), status)
    {
      var f := NextFate();
      if f.Done? || f.DoneButError? { applied := a; }
      status := Report(f);
    }

    method WriteFailed(failure: Option<ConfigFailure>) returns (status: Status)
      modifies this
      ensures Reached(Put(old(Node()), old(Files()).(failed := failure)), status)
    {
      var f := NextFate();
      if f.Done? || f.DoneButError? { failed := failure; }
      status := Report(f);
    }

    method RemoveCurrent() returns (status: Status)
      modifies this
      ensures Reached(Put(old(Node()), old(Files()).(current := None)), status)
    {
      var f := NextFate();
      if f.Done? || f.DoneButError? { current := None; }
      status := Report(f);
    }

    method LinkCurrent(t: ConfigTarget) returns (status: Status)
      modifies this
      ensures Reached(Rename(old(Node()), old(Files()).(current := Some(t))), status)
    {
      var f := NextFate();
      if f.Done? { current := Some(t); }
      status := Report(f);
    }

    method LinkPrevious(t: ConfigTarget) returns (status: Status)
      modifies this
      ensures Reached(Rename(old(Node()), old(Files()).(previous := Some(t))), status)
    {
      var f := NextFate();
      if f.Done? { previous := Some(t); }
      status := Report(f);
    }

    method WriteVersionFile(t: ConfigTarget, file: VersionFile) returns (status: Status)
      modifies this
      ensures Reached(Put(old(Node()), old(Files()).(versions := old(versions)[t := file])), status)
    {
      var f := NextFate();
      if f.Done? || f.DoneButError? { versions := versions[t := file]; }
      status := Report(f);
    }

    method RemoveVersion(t: ConfigTarget) returns (status: Status)
      modifies this
      ensures Reached(Rename(old(Node()), old(Files()).(versions := old(versions) - {t})), status)
    {
      var f := NextFate();
      if f.Done? { versions := versions - {t}; }
      status := Report(f);
    }

    method RestartAndWait() returns (status: Status)
      modifies this
      ensures Reached(Restart(old(Node())), status)
    {
      var f := NextFate();
      process := Anything;
      if f.Done? {
        var start := Start(ActivePath(bundles), current);
        process := Running(start);
        starts := starts + [start];
      }
      status := Report(f);
    }

    method StopAndWait() returns (status: Status)
      modifies this
      ensures Reached(Stop(old(Node())), status)
    {
      var f := NextFate();
      process := if f.Done? then Stopped else Anything;
      status := Report(f);
    }

    // -------------------------------------------------------------- retention

    method PruneVersions() returns (status: Status)
      modifies this
      ensures Reached(Prune(old(Node())), status)
    {
      hide Entries, Protected, ByRank, ValidApplied, ValidPending;
      if LoadApplied(Files()).Invalid? || LoadPending(Files()).Invalid? {
        return Error;
      }
      var protected := Protected(Files());
      var q := Sort(Entries(versions));
      var removed, i := false, 0;
      ghost var goal := Prune(Node());
      while i < |q|
        invariant i <= |q|
        invariant Delete(Node(), DoomedFrom(q, i, protected, RETAINED_CONFIGS), removed) == goal
      {
        if i >= RETAINED_CONFIGS && q[i].key !in protected {
          status := RemoveVersion(q[i].key);
          if !status.Success? { return; }
          removed := true;
        }
        i := i + 1;
      }
      if removed {
        status := CheckStep();
      } else {
        status := Success;
      }
    }

    // -------------------------------------------------------------- immutable versions

    ghost predicate InstallReturned(i: Install, target: Option<ConfigTarget>, r: Result)
      reads this
    {
      match target
      case Some(t) => i == Installed(Node(), t)
      case None => i == NotInstalled(Node(), r)
    }

    method WriteVersion(t: ConfigTarget, req: Request, now: Clock) returns (target: Option<ConfigTarget>, r: Result)
      modifies this
      ensures InstallReturned(Spec.WriteVersion(old(Node()), t, req, now), target, r)
    {
      var status := WriteVersionFile(t, VersionFile(req.config, true, now.mtime));
      match status
      case Success => return Some(t), Crashed;
      case Error => return None, Refused(PreparationFailed, NotRequired);
      case Died => return None, Crashed;
    }

    method InstallVersion(req: Request, repair: bool, now: Clock) returns (target: Option<ConfigTarget>, r: Result)
      modifies this
      ensures InstallReturned(Spec.InstallVersion(old(Node()), req, repair, now), target, r)
    {
      var t := ConfigTarget(req.version, req.digest, None);
      if t in versions {
        var file := versions[t];
        if file.content.sha == req.digest && file.content == req.config && file.safe {
          return Some(t), Crashed;
        }
        if !repair {
          return None, Refused(PreparationFailed, NotRequired);
        }
      }
      if repair {
        t := t.(repair := Some(now.nanos));
      }
      target, r := WriteVersion(t, req, now);
    }

    // -------------------------------------------------------------- rollback

    method RecordRollback(p: PendingConfig, code: ErrorCode) returns (status: Status)
      modifies this
      ensures Reached(Spec.RecordRollback(old(Node()), p, code), status)
    {
      status := WriteFailed(Some(ConfigFailure(p.version, p.digest, code, RolledBack)));
      if status.Success? {
        status := WritePending(None);
      }
    }

    method RollBack(p: PendingConfig, code: ErrorCode) returns (status: Status)
      modifies this
      ensures Reached(Rollback(old(Node()), p, code), status)
    {
      hide Put, Rename, Check, Restart, Stop, Spec.RecordRollback, RollbackApplied;
      if p.previousTarget.None? {
        status := RemoveCurrent();
        if !status.Success? { return; }
        status := WriteApplied(None);
        if !status.Success? { return; }
        status := StopAndWait();
        if !status.Success? { return; }
      } else {
        var a := RollbackApplied(Files(), p);
        if a.None? { return Error; }
        status := LinkCurrent(p.previousTarget.value);
        if !status.Success? { return; }
        status := WriteApplied(a);
        if !status.Success? { return; }
        status := CheckStep();
        if !status.Success? { return; }
        status := RestartAndWait();
        if !status.Success? { return; }
      }
      status := RecordRollback(p, code);
    }

    method RollBackResult(p: PendingConfig, code: ErrorCode) returns (r: Result)
      modifies this
      ensures Returned(RollbackResult(old(Node()), p, code), r)
    {
      var status := RollBack(p, code);
      match status
      case Success => return RolledBackTo(p.version, p.digest, code);
      case Died => return Crashed;
      case Error =>
        status := WriteFailed(Some(ConfigFailure(p.version, p.digest, code, Failed)));
        return Failure(status, Refused(RecoveryFailed, Failed));
    }

    // -------------------------------------------------------------- recover

    method Confirm(a: AppliedConfig) returns (status: Status)
      modifies this
      ensures Reached(ConfirmApplied(old(Node()), a), status)
    {
      var p := LoadPending(Files());
      if p.Invalid? { return Error; }
      if p.Found? {
        if !Matches(a, p.value) { return Error; }
        status := WritePending(None);
        if !status.Success? { return; }
      }
      status := WriteFailed(None);
    }

    method Recover() returns (r: Result)
      modifies this
      ensures Returned(Spec.Recover(old(Node())), r)
    {
      hide RollbackResult, ConfirmApplied;
      var p := LoadPending(Files());
      if p.Missing? { return Recovered; }
      if p.Invalid? { return Refused(RecoveryFailed, Unknown); }
      var a := LoadApplied(Files());
      if a.Found? && Matches(a.value, p.value) && VerifyApplied(Files(), a.value) {
        var status := Confirm(a.value);
        return if status.Success? then Recovered else Failure(status, Refused(RecoveryFailed, Unknown));
      }
      if a.Invalid? { return Refused(RecoveryFailed, Unknown); }
      r := RollBackResult(p.value, PreparationFailed);
      if r.RolledBackTo? { r := Recovered; }
    }

    // -------------------------------------------------------------- apply

    /** A step failed after the link was switched. */
    method UndoAfter(status: Status, p: PendingConfig, code: ErrorCode) returns (r: Result)
      requires !status.Success?
      modifies this
      ensures status.Died? ==> Node() == old(Node()) && r == Crashed
      ensures status.Error? ==> Returned(RollbackResult(old(Node()), p, code), r)
    {
      if status.Died? { return Crashed; }
      r := RollBackResult(p, code);
    }

    method FinishApply(next: AppliedConfig) returns (r: Result)
      modifies this
      ensures Returned(Finish(old(Node()), next), r)
    {
      hide Put, Prune;
      var status := WritePending(None);
      if !status.Success? { return Failure(status, Refused(PersistenceFailed, Unknown)); }
      status := WriteFailed(None);
      if !status.Success? { return Failure(status, Refused(PersistenceFailed, Unknown)); }
      status := PruneVersions();
      if !status.Success? { return Failure(status, Refused(PersistenceFailed, NotRequired)); }
      return Applied(next);
    }

    /** From the switched link to the result: restart, record, confirm. */
    method LaunchApply(p: PendingConfig, now: Clock) returns (r: Result)
      modifies this
      ensures Returned(Launch(old(Node()), p, now), r)
    {
      hide Put, Rename, Check, Restart, Finish, RollbackResult;
      var status := CheckStep();
      if !status.Success? { r := UndoAfter(status, p, PersistenceFailed); return; }
      status := RestartAndWait();
      if !status.Success? { r := UndoAfter(status, p, ActivationFailed); return; }
      if p.previousTarget.Some? {
        status := LinkPrevious(p.previousTarget.value);
        if !status.Success? { r := UndoAfter(status, p, PersistenceFailed); return; }
      }
      var next := AppliedConfig(p.version, p.digest, p.command, now.appliedAt);
      status := WriteApplied(Some(next));
      if !status.Success? { r := UndoAfter(status, p, PersistenceFailed); return; }
      r := FinishApply(next);
    }

    method ActivateVersion(p: PendingConfig, now: Clock) returns (r: Result)
      modifies this
      ensures Returned(Activate(old(Node()), p, now), r)
    {
      hide Put, Rename, Launch;
      var status := WritePending(Some(p));
      if !status.Success? { return Failure(status, Refused(PreparationFailed, NotRequired)); }
      status := LinkCurrent(p.command);
      if status.Died? { return Crashed; }
      if status.Error? {
        status := WritePending(None);
        if status.Success? { return Refused(PreparationFailed, NotRequired); }
        return Failure(status, Refused(PreparationFailed, Unknown));
      }
      r := LaunchApply(p, now);
    }

    /** The validator in front of apply; a verdict only when it answered. */
    method Validate(req: Request, now: Clock) returns (verdict: Option<Validation>, r: Result)
      modifies this
      ensures match verdict
              case Some(v) => Spec.Validate(old(Node()), req, now) == Verdict(Node(), v)
              case None => Spec.Validate(old(Node()), req, now) == Closed(Node(), r)
    {
      var refused := Refused(ValidationFailed, NotRequired);
      if !ValidRequest(req) { return None, refused; }
      if validation.Some? {
        var last := validation.value;
        if req.version < last.version { return None, refused; }
        if req.version == last.version {
          if req.digest != last.digest { return None, refused; }
          return Some(last), Recovered;
        }
      }
      var f := NextFate();
      if f.Done? || f.DoneButError? { candidate := Some(req.config); }
      if !f.Done? { return None, Failure(Report(f), refused); }
      var status := CheckStep();
      if status.Died? { return None, Crashed; }
      var v := Validation(req.version, req.digest, status.Success?, now.validatedAt);
      f := NextFate();
      if f.Done? || f.DoneButError? { validation := Some(v); }
      if !f.Done? { return None, Failure(Report(f), refused); }
      return Some(v), Recovered;
    }

    method Apply(req: Request, now: Clock) returns (r: Result)
      modifies this
      ensures Returned(Spec.Apply(old(Node()), req, now), r)
    {
      hide Spec.Validate, Prune, Spec.InstallVersion, Activate, ConfirmApplied, Check, AppliedForTarget, VerifyApplied, VerifyTarget;
      var verdict, failure := Validate(req, now);
      if verdict.None? { return failure; }
      if !verdict.value.passed { return NotValidated(verdict.value.version, verdict.value.digest); }
      var refused := Refused(PreparationFailed, NotRequired);
      var repair, previousTarget, previousApplied := false, None, None;
      match LoadApplied(Files()) {
        case Invalid => return refused;
        case Missing =>
          if current.Some? { return refused; }
        case Found(a) =>
          if req.version < a.version { return refused; }
          if req.version == a.version && req.digest != a.digest { return refused; }
          if req.version == a.version {
            if VerifyApplied(Files(), a) {
              r := ConfirmRepeated(a);
              return;
            }
            repair := true;
            if previous.Some? {
              previousTarget := previous;
              previousApplied := AppliedForTarget(Files(), previous.value);
              if previousApplied.None? { return refused; }
            }
          } else {
            if !VerifyTarget(Files(), a.target, a.digest) { return refused; }
            previousTarget, previousApplied := Some(a.target), Some(a);
          }
      }
      r := BeginApply(req, previousTarget, previousApplied, repair, now);
    }

    method ConfirmRepeated(a: AppliedConfig) returns (r: Result)
      modifies this
      ensures Returned(ConfirmAgain(old(Node()), a), r)
    {
      hide ConfirmApplied, Prune;
      var status := Confirm(a);
      if !status.Success? { return Failure(status, Refused(PersistenceFailed, NotRequired)); }
      status := PruneVersions();
      if !status.Success? { return Failure(status, Refused(PersistenceFailed, NotRequired)); }
      return Applied(a);
    }

    method BeginApply(req: Request, previousTarget: Option<ConfigTarget>, previousApplied: Option<AppliedConfig>,
                      repair: bool, now: Clock) returns (r: Result)
      modifies this
      ensures Returned(Begin(old(Node()), req, previousTarget, previousApplied, repair, now), r)
    {
      hide Prune, Spec.InstallVersion, Activate, Check, ValidPending;
      var refused := Refused(PreparationFailed, NotRequired);
      var status := CheckStep();
      if !status.Success? { return Failure(status, refused); }
      if !LoadPending(Files()).Missing? { return Refused(PreparationFailed, Unknown); }
      status := PruneVersions();
      if !status.Success? { return Failure(status, refused); }
      var target, failure := InstallVersion(req, repair, now);
      if target.None? { return failure; }
      r := ActivateVersion(PendingConfig(target.value, previousTarget, previousApplied, req.version, req.digest, now.startedAt), now);
    }
  }
}
