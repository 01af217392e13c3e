/**
 * The durable files of one node, the managed Xray process, and the single steps that change
 * them. Every step consumes one `Fate`; when the script of fates is used up the agent crashes,
 * so a script stops an operation between any two durable steps.
 */
module NodeState {
  import opened Common
  import opened ConfigNames

  datatype Fate =
    | Done           // the step happened and reported success
    | NotDone        // the step did not happen and reported an error
    | DoneButError   // the file was renamed or removed, then the directory sync failed
    | Crash          // the agent died before the step

  /** What a durable step reported back; `Died` when the agent crashed instead. */
  datatype Status = Success | Error | Died

  function Report(f: Fate): Status {
    match f
    case Done => Success
    case NotDone => Error
    case DoneButError => Error
    case Crash => Died
  }

  type Timestamp = t: int | t > 0 witness 1

  datatype Clock = Clock(startedAt: Timestamp, appliedAt: Timestamp, validatedAt: Timestamp, mtime: int, nanos: nat)

  // ---------------------------------------------------------------- xray-config/

  /** File bytes, identified by their SHA-256 (taken as injective). */
  datatype Content = Content(sha: Digest)

  /** `safe`: a regular file with mode 0600. */
  datatype VersionFile = VersionFile(content: Content, safe: bool, mtime: int)

  datatype Validation = Validation(version: Uint64, digest: Digest, passed: bool, at: int)

  datatype AppliedConfig = AppliedConfig(version: Uint64, digest: Digest, target: ConfigTarget, appliedAt: int)

  datatype PendingConfig = PendingConfig(command: ConfigTarget, previousTarget: Option<ConfigTarget>,
                                         previousApplied: Option<AppliedConfig>,
                                         version: Uint64, digest: Digest, startedAt: int)

  datatype ErrorCode = ValidationFailed | PreparationFailed | ActivationFailed | PersistenceFailed | RecoveryFailed

  datatype Recovery = NotRequired | RolledBack | Failed | Unknown

  datatype ConfigFailure = ConfigFailure(version: Uint64, digest: Digest, code: ErrorCode, recovery: Recovery)

  datatype ConfigFiles = ConfigFiles(current: Option<ConfigTarget>, previous: Option<ConfigTarget>,
                                     applied: Option<AppliedConfig>, pending: Option<PendingConfig>,
                                     failed: Option<ConfigFailure>, versions: map<ConfigTarget, VersionFile>,
                                     candidate: Option<Content>, validation: Option<Validation>)

  // ---------------------------------------------------------------- xray-runtime/

  datatype BundleTarget = BundleTarget(version: string, digest: Digest)

  /** The recorded bundle.json and whether every file still has its recorded digest and mode. */
  datatype BundleDirectory = BundleDirectory(version: string, xrayVersion: string, digest: Digest, intact: bool, mtime: int)

  datatype AppliedBundle = AppliedBundle(version: string, xrayVersion: string, digest: Digest, target: BundleTarget, appliedAt: int)

  datatype PendingBundle = PendingBundle(commandId: string, previousTarget: Option<BundleTarget>,
                                         previousApplied: Option<AppliedBundle>, target: BundleTarget,
                                         version: string, xrayVersion: string, digest: Digest, startedAt: int)

  datatype BundleFailure = BundleFailure(version: string, code: ErrorCode, recovery: Recovery)

  datatype BundleFiles = BundleFiles(current: Option<BundleTarget>, previous: Option<BundleTarget>,
                                     applied: Option<AppliedBundle>, pending: Option<PendingBundle>,
                                     failed: Option<BundleFailure>, versions: map<BundleTarget, BundleDirectory>)

  // ---------------------------------------------------------------- process

  /** The executable a start would use: the bootstrap binary, or whatever `current` selects. */
  datatype Binary = Bootstrap | Managed(current: Option<BundleTarget>)

  datatype Start = Start(binary: Binary, config: Option<ConfigTarget>)

  datatype Process = Stopped | Running(start: Start) | Anything

  function ActivePath(b: BundleFiles): Binary {
    if b.current.Some? || b.applied.Some? then Managed(b.current) else Bootstrap
  }

  // ---------------------------------------------------------------- world

  /**
   * `starts` logs every start the controller reported healthy. `lossy` says whether writing the
   * bundle's applied record may rename the file and still report an error.
   */
  datatype World = World(cfg: ConfigFiles, bun: BundleFiles, process: Process, starts: seq<Start>,
                         lossy: bool, fates: seq<Fate>)

  datatype Step = Ok(w: World) | Err(w: World) | Dead(w: World) {
    predicate IsFailure() { !Ok? }
    function PropagateFailure(): Step requires IsFailure() { this }
    function Extract(): World requires Ok? { w }
  }

  /** The outcome of the next step. */
  function Next(w: World): Fate {
    if w.fates == [] then Crash else w.fates[0]
  }

  function Rest(w: World): seq<Fate> {
    if w.fates == [] then [] else w.fates[1..]
  }

  /** One step out of `w`: to `done` on success, to `lost` when the success is reported as an error. */
  function Attempt(w: World, done: World, lost: World): Step {
    match Next(w)
    case Done => Ok(done.(fates := Rest(w)))
    case NotDone => Err(w.(fates := Rest(w)))
    case DoneButError => Err(lost.(fates := Rest(w)))
    case Crash => Dead(w.(fates := Rest(w)))
  }

  /** A check or an exchange that changes no file. */
  function Check(w: World): Step { Attempt(w, w, w) }

  /** Replace or remove a file of the configuration directory, then sync the directory. */
  function Put(w: World, c: ConfigFiles): Step { Attempt(w, w.(cfg := c), w.(cfg := c)) }

  /** A bare rename or removal, with no sync behind it: an error means nothing happened. */
  function Rename(w: World, c: ConfigFiles): Step { Attempt(w, w.(cfg := c), w) }

  /** Replace or remove a file or a link of the bundle directory, then sync the directory. */
  function PutBundle(w: World, b: BundleFiles): Step { Attempt(w, w.(bun := b), w.(bun := b)) }

  /** A step of which an error means that nothing happened. */
  function RenameBundle(w: World, b: BundleFiles): Step { Attempt(w, w.(bun := b), w) }

  /** A healthy restart runs what is selected now; a failed or interrupted one leaves anything. */
  function Restart(w: World): Step {
    var start := Start(ActivePath(w.bun), w.cfg.current);
    var unsure := w.(process := Anything);
    Attempt(unsure, w.(process := Running(start), starts := w.starts + [start]), unsure)
  }

  function Stop(w: World): Step {
    var unsure := w.(process := Anything);
    Attempt(unsure, w.(process := Stopped), unsure)
  }

  // ---------------------------------------------------------------- results

  /** Reading a JSON record: absent, present but failing its checks, or usable. */
  datatype Load<+T> = Missing | Invalid | Found(value: T)

  /** The running operation goes on in world `w`, or has returned `r`. */
  datatype Flow<+R> = Go(w: World) | Return(w: World, r: R) {
    predicate IsFailure() { Return? }
    function PropagateFailure(): Flow<R> requires IsFailure() { this }
    function Extract(): World requires Go? { w }
  }
}
