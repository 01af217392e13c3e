/** internal/xrayruntime/manager.go: apply, roll back and recover the active configuration. */
module ConfigActivation {
  import opened Common
  import opened ConfigNames
  import opened NodeState
  import opened Retention

  const RETAINED_CONFIGS: nat := 5

  /** The digest is already trimmed and lower case; `wellFormed`: 1 byte to 4 MiB of valid JSON. */
  datatype Request = Request(version: Uint64, digest: Digest, config: Content, wellFormed: bool)

  datatype Result =
    | Applied(state: AppliedConfig)
    | RolledBackTo(version: Uint64, digest: Digest, code: ErrorCode)
    | NotValidated(version: Uint64, digest: Digest)
    | Refused(code: ErrorCode, recovery: Recovery)
    | Recovered
    | Crashed

  function OrReturn(s: Step, r: Result): Flow<Result> {
    match s
    case Ok(w) => Go(w)
    case Err(w) => Return(w, r)
    case Dead(w) => Return(w, Crashed)
  }

  ghost function OrRollback(s: Step, p: PendingConfig, code: ErrorCode): Flow<Result> {
    match s
    case Ok(w) => Go(w)
    case Err(w) => RollbackResult(w, p, code)
    case Dead(w) => Return(w, Crashed)
  }

  // ---------------------------------------------------------------- records

  predicate ValidApplied(a: AppliedConfig) { a.version > 0 && a.appliedAt > 0 }

  function LoadApplied(c: ConfigFiles): Load<AppliedConfig> {
    match c.applied
    case None => Missing
    case Some(a) => if ValidApplied(a) then Found(a) else Invalid
  }

  predicate ValidPending(p: PendingConfig) {
    && p.version > 0 && p.startedAt > 0
    && p.command.version == p.version && p.command.digest == p.digest
    && (p.previousApplied.Some? ==>
          && p.previousTarget == Some(p.previousApplied.value.target)
          && ValidApplied(p.previousApplied.value))
  }

  function LoadPending(c: ConfigFiles): Load<PendingConfig> {
    match c.pending
    case None => Missing
    case Some(p) => if ValidPending(p) then Found(p) else Invalid
  }

  predicate Matches(a: AppliedConfig, p: PendingConfig) {
    a.target == p.command && a.version == p.version && a.digest == p.digest
  }

  predicate VerifyTarget(c: ConfigFiles, t: ConfigTarget, digest: Digest) {
    t in c.versions && c.versions[t].safe && c.versions[t].content.sha == digest
  }

  predicate VerifyAppliedTarget(c: ConfigFiles, a: AppliedConfig) {
    && ValidApplied(a)
    && a.target.version == a.version && a.target.digest == a.digest
    && VerifyTarget(c, a.target, a.digest)
  }

  predicate VerifyApplied(c: ConfigFiles, a: AppliedConfig) {
    c.current == Some(a.target) && VerifyAppliedTarget(c, a)
  }

  /**
   * The current configuration as others ask for it. A missing link or version file reads as no
   * configuration at all, because its error says that something does not exist; any other
   * disagreement is an error.
   */
  function LoadCurrent(c: ConfigFiles): Load<AppliedConfig> {
    match LoadApplied(c)
    case Missing => Missing
    case Invalid => Invalid
    case Found(a) =>
      if c.current.None? then Missing
      else if c.current != Some(a.target) || a.target.version != a.version || a.target.digest != a.digest then Invalid
      else if a.target !in c.versions then Missing
      else if VerifyTarget(c, a.target, a.digest) then Found(a)
      else Invalid
  }

  predicate InUse(c: ConfigFiles) { LoadCurrent(c).Found? }

  function AppliedForTarget(c: ConfigFiles, t: ConfigTarget): Option<AppliedConfig> {
    if t.version > 0 && VerifyTarget(c, t, t.digest) then
      var mtime := c.versions[t].mtime;
      Some(AppliedConfig(t.version, t.digest, t, if mtime <= 0 then 1 else mtime))
    else None
  }

  function RollbackApplied(c: ConfigFiles, p: PendingConfig): Option<AppliedConfig>
    requires p.previousTarget.Some?
  {
    match p.previousApplied
    case Some(a) => if a.target == p.previousTarget.value && VerifyAppliedTarget(c, a) then Some(a) else None
    case None => AppliedForTarget(c, p.previousTarget.value)
  }

  // ---------------------------------------------------------------- retention

  function Protected(c: ConfigFiles): set<ConfigTarget> {
    (if c.current.Some? then {c.current.value} else {})
    + (if c.previous.Some? then {c.previous.value} else {})
    + (if c.applied.Some? then {c.applied.value.target} else {})
    + (if c.pending.Some? then {c.pending.value.command} else {})
    + (if c.pending.Some? && c.pending.value.previousTarget.Some? then {c.pending.value.previousTarget.value} else {})
  }

  function EntryOf(t: ConfigTarget, f: VersionFile): Entry<ConfigTarget> { Entry(t, FileName(t), f.mtime) }

  /** Only names that carry a version and a digest take part. */
  function Entries(versions: map<ConfigTarget, VersionFile>): (s: set<Entry<ConfigTarget>>)
    ensures Listing(s)
  {
    var s := set t | t in versions && t.version > 0 :: EntryOf(t, versions[t]);
    assert Listing(s) by {
      forall a, b | a in s && b in s && a.name == b.name ensures a == b {
        PathInjective(a.key, b.key);
      }
    }
    s
  }

  ghost function Delete(w: World, doomed: seq<Entry<ConfigTarget>>, removed: bool): Step
    decreases |doomed|
  {
    if doomed == [] then
      if removed then Check(w) else Ok(w)
    else
      var w1 :- Rename(w, w.cfg.(versions := w.cfg.versions - {doomed[0].key}));
      Delete(w1, doomed[1..], true)
  }

  ghost function Prune(w: World): Step {
    if LoadApplied(w.cfg).Invalid? || LoadPending(w.cfg).Invalid? then Err(w)
    else Delete(w, Doomed(Entries(w.cfg.versions), Protected(w.cfg), RETAINED_CONFIGS), false)
  }

  // ---------------------------------------------------------------- immutable versions

  datatype Install = Installed(w: World, target: ConfigTarget) | NotInstalled(w: World, r: Result)

  function WriteVersion(w: World, t: ConfigTarget, req: Request, now: Clock): Install {
    match Put(w, w.cfg.(versions := w.cfg.versions[t := VersionFile(req.config, true, now.mtime)]))
    case Ok(w1) => Installed(w1, t)
    case Err(w1) => NotInstalled(w1, Refused(PreparationFailed, NotRequired))
    case Dead(w1) => NotInstalled(w1, Crashed)
  }

  function InstallVersion(w: World, req: Request, repair: bool, now: Clock): Install {
    var t := ConfigTarget(req.version, req.digest, None);
    var repaired := ConfigTarget(req.version, req.digest, Some(now.nanos));
    if t in w.cfg.versions then
      var file := w.cfg.versions[t];
      if file.content.sha == req.digest && file.content == req.config && file.safe then Installed(w, t)
      else if !repair then NotInstalled(w, Refused(PreparationFailed, NotRequired))
      else WriteVersion(w, repaired, req, now)
    else if repair then WriteVersion(w, repaired, req, now)
    else WriteVersion(w, t, req, now)
  }

  // ---------------------------------------------------------------- rollback

  ghost function RecordRollback(w: World, p: PendingConfig, code: ErrorCode): Step {
    var w1 :- Put(w, w.cfg.(failed := Some(ConfigFailure(p.version, p.digest, code, RolledBack))));
    Put(w1, w1.cfg.(pending := None))
  }

  ghost function Rollback(w: World, p: PendingConfig, code: ErrorCode): Step {
    if p.previousTarget.None? then
      var w1 :- Put(w, w.cfg.(current := None));
      var w2 :- Put(w1, w1.cfg.(applied := None));
      var w3 :- Stop(w2);
      RecordRollback(w3, p, code)
    else
      match RollbackApplied(w.cfg, p)
      case None => Err(w)
      case Some(a) =>
        var w1 :- Rename(w, w.cfg.(current := p.previousTarget));
        var w2 :- Put(w1, w1.cfg.(applied := Some(a)));
        var w3 :- Check(w2);
        var w4 :- Restart(w3);
        RecordRollback(w4, p, code)
  }

  ghost function RollbackResult(w: World, p: PendingConfig, code: ErrorCode): Flow<Result> {
    match Rollback(w, p, code)
    case Ok(w1) => Return(w1, RolledBackTo(p.version, p.digest, code))
    case Dead(w1) => Return(w1, Crashed)
    case Err(w1) =>
      match Put(w1, w1.cfg.(failed := Some(ConfigFailure(p.version, p.digest, code, Failed))))
      case Dead(w2) => Return(w2, Crashed)
      case s => Return(s.w, Refused(RecoveryFailed, Failed))
  }

  // ---------------------------------------------------------------- recover

  ghost function ConfirmApplied(w: World, a: AppliedConfig): Step {
    match LoadPending(w.cfg)
    case Invalid => Err(w)
    case Missing => Put(w, w.cfg.(failed := None))
    case Found(p) =>
      if !Matches(a, p) then Err(w)
      else
        var w1 :- Put(w, w.cfg.(pending := None));
        Put(w1, w1.cfg.(failed := None))
  }

  /** `Recovered` is Go's nil error. */
  ghost function Recover(w: World): Flow<Result> {
    match LoadPending(w.cfg)
    case Missing => Return(w, Recovered)
    case Invalid => Return(w, Refused(RecoveryFailed, Unknown))
    case Found(p) =>
      var applied := LoadApplied(w.cfg);
      if applied.Found? && Matches(applied.value, p) && VerifyApplied(w.cfg, applied.value) then
        var w1 :- OrReturn(ConfirmApplied(w, applied.value), Refused(RecoveryFailed, Unknown));
        Return(w1, Recovered)
      else if applied.Invalid? then Return(w, Refused(RecoveryFailed, Unknown))
      else
        var flow := RollbackResult(w, p, PreparationFailed);
        if flow.Return? && flow.r.RolledBackTo? then Return(flow.w, Recovered) else flow
  }

  // ---------------------------------------------------------------- apply

  /** The applied record stands: drop the pending one. */
  ghost function Finish(w: World, next: AppliedConfig): Flow<Result> {
    var w1 :- OrReturn(Put(w, w.cfg.(pending := None)), Refused(PersistenceFailed, Unknown));
    var w2 :- OrReturn(Put(w1, w1.cfg.(failed := None)), Refused(PersistenceFailed, Unknown));
    var w3 :- OrReturn(Prune(w2), Refused(PersistenceFailed, NotRequired));
    Return(w3, Applied(next))
  }

  /** The candidate is healthy: record it as applied. */
  ghost function RecordNext(w: World, p: PendingConfig, now: Clock): Flow<Result> {
    var next := AppliedConfig(p.version, p.digest, p.command, now.appliedAt);
    var w1 :- OrRollback(Put(w, w.cfg.(applied := Some(next))), p, PersistenceFailed);
    Finish(w1, next)
  }

  ghost function Commit(w: World, p: PendingConfig, now: Clock): Flow<Result> {
    var w1 :- if p.previousTarget.None? then Go(w)
              else OrRollback(Rename(w, w.cfg.(previous := p.previousTarget)), p, PersistenceFailed);
    RecordNext(w1, p, now)
  }

  /** From the switched link to the restarted candidate. */
  ghost function Launch(w: World, p: PendingConfig, now: Clock): Flow<Result> {
    var w1 :- OrRollback(Check(w), p, PersistenceFailed);
    var w2 :- OrRollback(Restart(w1), p, ActivationFailed);
    Commit(w2, p, now)
  }

  /** The link could not be switched: the record is withdrawn. */
  function Withdraw(w: World): Flow<Result> {
    match Put(w, w.cfg.(pending := None))
    case Ok(w1) => Return(w1, Refused(PreparationFailed, NotRequired))
    case Err(w1) => Return(w1, Refused(PreparationFailed, Unknown))
    case Dead(w1) => Return(w1, Crashed)
  }

  ghost function Switch(w: World, p: PendingConfig, now: Clock): Flow<Result> {
    match Rename(w, w.cfg.(current := Some(p.command)))
    case Dead(w1) => Return(w1, Crashed)
    case Err(w1) => Withdraw(w1)
    case Ok(w1) => Launch(w1, p, now)
  }

  ghost function Activate(w: World, p: PendingConfig, now: Clock): Flow<Result> {
    var w1 :- OrReturn(Put(w, w.cfg.(pending := Some(p))), Refused(PreparationFailed, NotRequired));
    Switch(w1, p, now)
  }

  ghost function Begin(w: World, req: Request, previousTarget: Option<ConfigTarget>,
                       previousApplied: Option<AppliedConfig>, repair: bool, now: Clock): Flow<Result>
  {
    var w1 :- OrReturn(Check(w), Refused(PreparationFailed, NotRequired));
    if !LoadPending(w1.cfg).Missing? then Return(w1, Refused(PreparationFailed, Unknown))
    else
      var w2 :- OrReturn(Prune(w1), Refused(PreparationFailed, NotRequired));
      match InstallVersion(w2, req, repair, now)
      case NotInstalled(w3, r) => Return(w3, r)
      case Installed(w3, target) =>
        var p := PendingConfig(target, previousTarget, previousApplied, req.version, req.digest, now.startedAt);
        Activate(w3, p, now)
  }

  /** The applied version drifted: fall back to the previous link if the new attempt fails. */
  ghost function Repair(w: World, req: Request, now: Clock): Flow<Result> {
    match w.cfg.previous
    case None => Begin(w, req, None, None, true, now)
    case Some(t) =>
      match AppliedForTarget(w.cfg, t)
      case None => Return(w, Refused(PreparationFailed, NotRequired))
      case Some(a) => Begin(w, req, Some(t), Some(a), true, now)
  }

  /** The request repeats the applied version and nothing drifted. */
  ghost function ConfirmAgain(w: World, a: AppliedConfig): Flow<Result> {
    var w1 :- OrReturn(ConfirmApplied(w, a), Refused(PersistenceFailed, NotRequired));
    var w2 :- OrReturn(Prune(w1), Refused(PersistenceFailed, NotRequired));
    Return(w2, Applied(a))
  }

  ghost function ApplyValidated(w: World, req: Request, now: Clock): Flow<Result> {
    match LoadApplied(w.cfg)
    case Invalid => Return(w, Refused(PreparationFailed, NotRequired))
    case Missing =>
      if w.cfg.current.Some? then Return(w, Refused(PreparationFailed, NotRequired))
      else Begin(w, req, None, None, false, now)
    case Found(a) =>
      if req.version < a.version then Return(w, Refused(PreparationFailed, NotRequired))
      else if req.version == a.version then
        if req.digest != a.digest then Return(w, Refused(PreparationFailed, NotRequired))
        else if VerifyApplied(w.cfg, a) then ConfirmAgain(w, a)
        else Repair(w, req, now)
      else if !VerifyTarget(w.cfg, a.target, a.digest) then Return(w, Refused(PreparationFailed, NotRequired))
      else Begin(w, req, Some(a.target), Some(a), false, now)
  }

  // ---------------------------------------------------------------- validator (internal/xrayconfig)

  predicate ValidRequest(req: Request) {
    req.version > 0 && req.wellFormed && req.config.sha == req.digest
  }

  datatype Gate = Verdict(w: World, v: Validation) | Closed(w: World, r: Result)

  /** The runner's verdict on the candidate file is a fate: done is a pass, an error a failure. */
  function RunValidator(w: World, req: Request, now: Clock): Gate {
    var refused := Refused(ValidationFailed, NotRequired);
    match Put(w, w.cfg.(candidate := Some(req.config)))
    case Dead(w1) => Closed(w1, Crashed)
    case Err(w1) => Closed(w1, refused)
    case Ok(w1) =>
      match Check(w1)
      case Dead(w2) => Closed(w2, Crashed)
      case s =>
        var v := Validation(req.version, req.digest, s.Ok?, now.validatedAt);
        match Put(s.w, s.w.cfg.(validation := Some(v)))
        case Dead(w3) => Closed(w3, Crashed)
        case Err(w3) => Closed(w3, refused)
        case Ok(w3) => Verdict(w3, v)
  }

  function Validate(w: World, req: Request, now: Clock): Gate {
    var refused := Refused(ValidationFailed, NotRequired);
    if !ValidRequest(req) then Closed(w, refused)
    else
      match w.cfg.validation
      case None => RunValidator(w, req, now)
      case Some(last) =>
        if req.version < last.version then Closed(w, refused)
        else if req.version == last.version then
          if req.digest != last.digest then Closed(w, refused) else Verdict(w, last)
        else RunValidator(w, req, now)
  }

  ghost function Apply(w: World, req: Request, now: Clock): Flow<Result> {
    match Validate(w, req, now)
    case Closed(w1, r) => Return(w1, r)
    case Verdict(w1, v) =>
      if !v.passed then Return(w1, NotValidated(v.version, v.digest)) else ApplyValidated(w1, req, now)
  }
}
