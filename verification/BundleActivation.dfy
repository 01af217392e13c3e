/** internal/xrayupdate/manager.go: install, roll back and recover the managed Xray bundle. */
module BundleActivation {
  import opened Common
  import opened ConfigNames
  import opened NodeState
  import opened Retention
  import Config = ConfigActivation

  const RETAINED_BUNDLES: nat := 3

  /** A release whose archive was downloaded and matched its manifest. */
  datatype Release = Release(commandId: string, version: string, xrayVersion: string, digest: Digest)

  datatype Result =
    | Installed(state: AppliedBundle)
    | RolledBackTo(version: string, code: ErrorCode)
    | Refused(code: ErrorCode, recovery: Recovery)
    | Recovered
    | Crashed

  function OrReturn(s: Step, r: Result): Flow<Result> {
    match s
    case Ok(w) => Go(w)
    case Err(w) => Return(w, r)
    case Dead(w) => Return(w, Crashed)
  }

  ghost function OrRollback(s: Step, p: PendingBundle, hasConfig: bool, code: ErrorCode): Flow<Result> {
    match s
    case Ok(w) => Go(w)
    case Err(w) => RollbackResult(w, p, hasConfig, code)
    case Dead(w) => Return(w, Crashed)
  }

  // ---------------------------------------------------------------- records

  predicate ValidVersion(s: string) {
    && s != "" && s != "." && s != ".." && |s| <= 128
    && forall c <- s :: 'a' <= c <= 'z' || 'A' <= c <= 'Z' || '0' <= c <= '9' || c == '.' || c == '_' || c == '-'
  }

  predicate ValidApplied(a: AppliedBundle) { ValidVersion(a.version) && ValidVersion(a.xrayVersion) }

  function LoadApplied(b: BundleFiles): Load<AppliedBundle> {
    match b.applied
    case None => Missing
    case Some(a) => if ValidApplied(a) then Found(a) else Invalid
  }

  predicate ValidPending(p: PendingBundle) {
    && p.commandId != "" && ValidVersion(p.version) && ValidVersion(p.xrayVersion)
    && (p.previousApplied.Some? ==>
          && p.previousTarget == Some(p.previousApplied.value.target)
          && ValidApplied(p.previousApplied.value))
  }

  function LoadPending(b: BundleFiles): Load<PendingBundle> {
    match b.pending
    case None => Missing
    case Some(p) => if ValidPending(p) then Found(p) else Invalid
  }

  predicate Matches(a: AppliedBundle, p: PendingBundle) {
    a.target == p.target && a.version == p.version && a.xrayVersion == p.xrayVersion && a.digest == p.digest
  }

  /** The bundle directory is whole and describes itself by its own name. */
  predicate Verified(b: BundleFiles, t: BundleTarget) {
    && t in b.versions && b.versions[t].intact
    && ValidVersion(b.versions[t].version) && ValidVersion(b.versions[t].xrayVersion)
    && b.versions[t].version == t.version && b.versions[t].digest == t.digest
  }

  predicate VerifyAppliedTarget(b: BundleFiles, a: AppliedBundle) {
    && ValidApplied(a) && Verified(b, a.target)
    && b.versions[a.target].version == a.version
    && b.versions[a.target].xrayVersion == a.xrayVersion
    && b.versions[a.target].digest == a.digest
  }

  predicate VerifyApplied(b: BundleFiles, a: AppliedBundle) {
    b.current == Some(a.target) && VerifyAppliedTarget(b, a)
  }

  function RollbackApplied(b: BundleFiles, p: PendingBundle): Option<AppliedBundle>
    requires p.previousTarget.Some?
  {
    var t := p.previousTarget.value;
    match p.previousApplied
    case Some(a) => if a.target == t && VerifyAppliedTarget(b, a) then Some(a) else None
    case None =>
      if Verified(b, t) then
        Some(AppliedBundle(b.versions[t].version, b.versions[t].xrayVersion, b.versions[t].digest, t, p.startedAt))
      else None
  }

  // ---------------------------------------------------------------- retention

  function Protected(b: BundleFiles): set<BundleTarget> {
    (if b.current.Some? then {b.current.value} else {})
    + (if b.previous.Some? then {b.previous.value} else {})
    + (if b.applied.Some? then {b.applied.value.target} else {})
    + (if b.pending.Some? then {b.pending.value.target} else {})
    + (if b.pending.Some? && b.pending.value.previousTarget.Some? then {b.pending.value.previousTarget.value} else {})
  }

  function DirectoryName(t: BundleTarget): string { t.version + "-" + t.digest }

  lemma DirectoryNameInjective(s: BundleTarget, t: BundleTarget)
    requires DirectoryName(s) == DirectoryName(t)
    ensures s == t
  {
    var n := |DirectoryName(s)| - 64;
    assert DirectoryName(s)[n..] == s.digest && DirectoryName(t)[n..] == t.digest;
    assert DirectoryName(s)[..n - 1] == s.version && DirectoryName(t)[..n - 1] == t.version;
  }

  function EntryOf(t: BundleTarget, d: BundleDirectory): Entry<BundleTarget> { Entry(t, DirectoryName(t), d.mtime) }

  /** Only whole bundles take part. */
  function Entries(b: BundleFiles): (s: set<Entry<BundleTarget>>)
    ensures Listing(s)
  {
    var s := set t | t in b.versions && Verified(b, t) :: EntryOf(t, b.versions[t]);
    assert Listing(s) by {
      forall x, y | x in s && y in s && x.name == y.name ensures x == y {
        DirectoryNameInjective(x.key, y.key);
      }
    }
    s
  }

  ghost function Delete(w: World, doomed: seq<Entry<BundleTarget>>, removed: bool): Step
    decreases |doomed|
  {
    if doomed == [] then
      if removed then Check(w) else Ok(w)
    else
      var w1 :- RenameBundle(w, w.bun.(versions := w.bun.versions - {doomed[0].key}));
      Delete(w1, doomed[1..], true)
  }

  ghost function Prune(w: World): Step {
    if LoadApplied(w.bun).Invalid? || LoadPending(w.bun).Invalid? then Err(w)
    else Delete(w, Doomed(Entries(w.bun), Protected(w.bun), RETAINED_BUNDLES), false)
  }

  // ---------------------------------------------------------------- immutable versions

  datatype Candidate = Unpacked(w: World, target: BundleTarget) | NotUnpacked(w: World, r: Result)

  function InstallBundle(w: World, rel: Release, now: Clock): Candidate {
    var t := BundleTarget(rel.version, rel.digest);
    var refused := Refused(PreparationFailed, NotRequired);
    if t in w.bun.versions then
      if Verified(w.bun, t) && w.bun.versions[t].xrayVersion == rel.xrayVersion then Unpacked(w, t)
      else NotUnpacked(w, refused)
    else
      match Check(w)
      case Dead(w1) => NotUnpacked(w1, Crashed)
      case Err(w1) => NotUnpacked(w1, refused)
      case Ok(w1) =>
        var d := BundleDirectory(rel.version, rel.xrayVersion, rel.digest, true, now.mtime);
        match PutBundle(w1, w1.bun.(versions := w1.bun.versions[t := d]))
        case Ok(w2) => Unpacked(w2, t)
        case Err(w2) => NotUnpacked(w2, refused)
        case Dead(w2) => NotUnpacked(w2, Crashed)
  }

  // ---------------------------------------------------------------- rollback

  /** A half-undone first install is selected again, so that the controller can find its process. */
  function PrepareRollbackController(w: World, p: PendingBundle): Step {
    match LoadApplied(w.bun)
    case Missing => Ok(w)
    case Invalid => Err(w)
    case Found(a) =>
      if !Matches(a, p) || w.bun.current.Some? then Ok(w)
      else if !VerifyAppliedTarget(w.bun, a) then Err(w)
      else PutBundle(w, w.bun.(current := Some(p.target)))
  }

  ghost function RestoreFiles(w: World, p: PendingBundle): Step {
    if p.previousTarget.None? then
      var w1 :- PutBundle(w, w.bun.(current := None));
      PutBundle(w1, w1.bun.(applied := None))
    else
      match RollbackApplied(w.bun, p)
      case None =>
        (match PutBundle(w, w.bun.(current := None))
         case Dead(w1) => Dead(w1)
         case s => Err(s.w))
      case Some(a) =>
        var w1 :- PutBundle(w, w.bun.(current := p.previousTarget));
        PutBundle(w1, w1.bun.(applied := Some(a)))
  }

  ghost function RecordRollback(w: World, p: PendingBundle, code: ErrorCode): Step {
    var w1 :- PutBundle(w, w.bun.(failed := Some(BundleFailure(p.version, code, RolledBack))));
    PutBundle(w1, w1.bun.(pending := None))
  }

  ghost function Revive(w: World, p: PendingBundle, hasConfig: bool, code: ErrorCode): Step {
    var w1 :- if hasConfig then Restart(w) else Ok(w);
    RecordRollback(w1, p, code)
  }

  ghost function Rollback(w: World, p: PendingBundle, hasConfig: bool, code: ErrorCode): Step {
    var w1 :- if hasConfig then PrepareRollbackController(w, p) else Ok(w);
    var w2 :- if hasConfig then Stop(w1) else Ok(w1);
    var w3 :- RestoreFiles(w2, p);
    Revive(w3, p, hasConfig, code)
  }

  ghost function RollbackResult(w: World, p: PendingBundle, hasConfig: bool, code: ErrorCode): Flow<Result> {
    match Rollback(w, p, hasConfig, code)
    case Ok(w1) => Return(w1, RolledBackTo(p.version, code))
    case Dead(w1) => Return(w1, Crashed)
    case Err(w1) =>
      match PutBundle(w1, w1.bun.(failed := Some(BundleFailure(p.version, code, Failed))))
      case Dead(w2) => Return(w2, Crashed)
      case s => Return(s.w, Refused(RecoveryFailed, Failed))
  }

  // ---------------------------------------------------------------- recover

  function Confirm(w: World): Step {
    var w1 :- PutBundle(w, w.bun.(pending := None));
    PutBundle(w1, w1.bun.(failed := None))
  }

  ghost function RecoverPending(w: World): Flow<Result> {
    var failure := Refused(RecoveryFailed, Unknown);
    match LoadPending(w.bun)
    case Missing => Return(w, Recovered)
    case Invalid => Return(w, failure)
    case Found(p) =>
      var applied, config := LoadApplied(w.bun), Config.LoadCurrent(w.cfg);
      if applied.Found? && Matches(applied.value, p) && VerifyApplied(w.bun, applied.value) then
        var w1 :- OrReturn(Confirm(w), failure);
        Return(w1, Recovered)
      else if applied.Invalid? || config.Invalid? then Return(w, failure)
      else
        var flow := RollbackResult(w, p, config.Found?, PreparationFailed);
        if flow.Return? && flow.r.RolledBackTo? then Return(flow.w, Recovered) else flow
  }

  /** `Recovered` is Go's nil error. The first check clears stale downloads. */
  ghost function Recover(w: World): Flow<Result> {
    var w1 :- OrReturn(Check(w), Refused(RecoveryFailed, Unknown));
    RecoverPending(w1)
  }

  // ---------------------------------------------------------------- install

  /** Writing the applied record; whether its success can get lost is a property of the node. */
  function PutApplied(w: World, a: AppliedBundle): Step {
    var b := w.bun.(applied := Some(a));
    if w.lossy then PutBundle(w, b) else RenameBundle(w, b)
  }

  ghost function Finish(w: World, next: AppliedBundle): Flow<Result> {
    var w1 :- OrReturn(PutBundle(w, w.bun.(pending := None)), Refused(PersistenceFailed, Unknown));
    var w2 :- OrReturn(PutBundle(w1, w1.bun.(failed := None)), Refused(PersistenceFailed, Unknown));
    var w3 :- OrReturn(Prune(w2), Refused(PersistenceFailed, NotRequired));
    Return(w3, Installed(next))
  }

  /** The candidate serves: record it as applied. */
  ghost function RecordNext(w: World, p: PendingBundle, hasConfig: bool, now: Clock): Flow<Result> {
    var next := AppliedBundle(p.version, p.xrayVersion, p.digest, p.target, now.appliedAt);
    var w1 :- OrRollback(PutApplied(w, next), p, hasConfig, PersistenceFailed);
    Finish(w1, next)
  }

  ghost function Commit(w: World, p: PendingBundle, hasConfig: bool, now: Clock): Flow<Result> {
    var w1 :- if p.previousTarget.None? then Go(w)
              else OrRollback(PutBundle(w, w.bun.(previous := p.previousTarget)), p, hasConfig, PersistenceFailed);
    RecordNext(w1, p, hasConfig, now)
  }

  /** Select the candidate, start it, record it. */
  ghost function Launch(w: World, p: PendingBundle, hasConfig: bool, now: Clock): Flow<Result> {
    var w1 :- OrRollback(PutBundle(w, w.bun.(current := Some(p.target))), p, hasConfig, PersistenceFailed);
    var w2 :- if hasConfig then OrRollback(Restart(w1), p, hasConfig, ActivationFailed) else Go(w1);
    Commit(w2, p, hasConfig, now)
  }

  /** The pending record first; then the running process stops before the link moves. */
  ghost function Activate(w: World, p: PendingBundle, hasConfig: bool, now: Clock): Flow<Result> {
    var w1 :- OrReturn(PutBundle(w, w.bun.(pending := Some(p))), Refused(PreparationFailed, NotRequired));
    var w2 :- if hasConfig then OrRollback(Stop(w1), p, hasConfig, ActivationFailed) else Go(w1);
    Launch(w2, p, hasConfig, now)
  }

  /** The candidate must accept the applied configuration before anything is stopped. */
  ghost function Begin(w: World, rel: Release, target: BundleTarget, previousTarget: Option<BundleTarget>,
                       previousApplied: Option<AppliedBundle>, now: Clock): Flow<Result>
  {
    var config := Config.LoadCurrent(w.cfg);
    if config.Invalid? then Return(w, Refused(PreparationFailed, NotRequired))
    else
      var hasConfig := config.Found?;
      var w1 :- if hasConfig then OrReturn(Check(w), Refused(ValidationFailed, NotRequired)) else Go(w);
      var w2 :- if hasConfig then OrReturn(Check(w1), Refused(PreparationFailed, NotRequired)) else Go(w1);
      var p := PendingBundle(rel.commandId, previousTarget, previousApplied, target,
                             rel.version, rel.xrayVersion, rel.digest, now.startedAt);
      Activate(w2, p, hasConfig, now)
  }

  ghost function ConfirmAgain(w: World, a: AppliedBundle): Flow<Result> {
    var w1 :- OrReturn(PutBundle(w, w.bun.(failed := None)), Refused(PersistenceFailed, NotRequired));
    var w2 :- OrReturn(Prune(w1), Refused(PersistenceFailed, NotRequired));
    Return(w2, Installed(a))
  }

  ghost function InstallUnpacked(w: World, rel: Release, target: BundleTarget, now: Clock): Flow<Result> {
    var refused := Refused(PreparationFailed, NotRequired);
    match LoadApplied(w.bun)
    case Invalid => Return(w, refused)
    case Missing =>
      if w.bun.current.Some? then Return(w, refused) else Begin(w, rel, target, None, None, now)
    case Found(a) =>
      if !VerifyApplied(w.bun, a) then Return(w, refused)
      else if a.version == rel.version && a.xrayVersion == rel.xrayVersion && a.digest == rel.digest && a.target == target then
        ConfirmAgain(w, a)
      else Begin(w, rel, target, Some(a.target), Some(a), now)
  }

  ghost function Install(w: World, rel: Release, now: Clock): Flow<Result> {
    var refused := Refused(PreparationFailed, NotRequired);
    if rel.commandId == "" || |rel.commandId| > 256 || !ValidVersion(rel.version) || !ValidVersion(rel.xrayVersion) then Return(w, refused)
    else if !LoadPending(w.bun).Missing? then Return(w, Refused(PreparationFailed, Unknown))
    else
      var w1 :- OrReturn(Prune(w), refused);
      match InstallBundle(w1, rel, now)
      case NotUnpacked(w2, r) => Return(w2, r)
      case Unpacked(w2, target) =>
        var w3 :- OrReturn(Check(w2), Refused(ValidationFailed, NotRequired));
        InstallUnpacked(w3, rel, target, now)
  }
}
