/** What a single failing step does to an install, and exactly which steps come before its pending record. */
module BundleRollback {
  import opened Common
  import opened NodeState
  import opened NodeInvariant
  import opened NodeProgress
  import opened Retention
  import BundleSuccess
  import opened ConfigRollback
  import Config = ConfigActivation
  import Bundle = BundleActivation
  import B = BundleProofs
  import S = NodeStores

  // ---------------------------------------------------------------- the rollback

  /** The records after attempt `p` was rolled back for `code`. */
  function RolledBackBundle(b: BundleFiles, p: PendingBundle, code: ErrorCode): BundleFiles {
    b.(current := p.previousTarget, applied := p.previousApplied, pending := None, failed := Some(BundleFailure(p.version, code, RolledBack)))
  }

  /** The start of the restored bundle, or of the bootstrap binary when there was none. */
  function RestoredStart(w: World, p: PendingBundle): Start {
    Start(if p.previousTarget.Some? then Managed(p.previousTarget) else Bootstrap, w.cfg.current)
  }

  /** Rolled back: the old pair and the reason, and with a configuration in use the old bundle was started last. */
  predicate IsRolledBackBundle(w: World, u: World, p: PendingBundle, hasConfig: bool, code: ErrorCode, n: nat) {
    && Clear(u.fates, n)
    && u == w.(bun := RolledBackBundle(w.bun, p, code), process := if hasConfig then Running(RestoredStart(w, p)) else w.process,
               starts := u.starts, fates := u.fates)
    && u.starts == (if hasConfig then w.starts + [RestoredStart(w, p)] else w.starts)
  }

  predicate HasWayBackBundle(b: BundleFiles, p: PendingBundle) {
    if p.previousTarget.None? then p.previousApplied.None?
    else p.previousApplied.Some? && Bundle.RollbackApplied(b, p) == p.previousApplied
  }

  lemma WayBackOnBundles(b: BundleFiles, d: BundleFiles, p: PendingBundle)
    requires b.versions == d.versions
    ensures HasWayBackBundle(b, p) == HasWayBackBundle(d, p)
  {
  }

  /** The controller can be asked to stop the candidate as it stands. */
  predicate Prepares(b: BundleFiles) { b.applied.None? || (b.current.Some? && Bundle.ValidApplied(b.applied.value)) }

  lemma PreparesAtOnce(w: World, p: PendingBundle)
    requires Prepares(w.bun)
    ensures Bundle.PrepareRollbackController(w, p) == Ok(w)
  {
  }

  lemma RestoreLeaves(w: World, p: PendingBundle, n: nat)
    requires Clear(w.fates, n + 2) && HasWayBackBundle(w.bun, p)
    ensures var s := Bundle.RestoreFiles(w, p);
            Arrived(s, n) && s.w == w.(bun := w.bun.(current := p.previousTarget, applied := p.previousApplied), fates := s.w.fates)
  {
    hide PutBundle, Clear, Bundle.RollbackApplied;
    var b := w.bun.(current := p.previousTarget);
    BundleStep(w, b, n + 1);
    BundleStep(PutBundle(w, b).w, b.(applied := p.previousApplied), n);
  }

  lemma ReviveLeaves(w: World, p: PendingBundle, hasConfig: bool, code: ErrorCode, n: nat)
    requires Clear(w.fates, n + 3)
    ensures var s := Bundle.Revive(w, p, hasConfig, code);
            var start := Start(ActivePath(w.bun), w.cfg.current);
            && Arrived(s, n)
            && s.w == w.(bun := w.bun.(failed := Some(BundleFailure(p.version, code, RolledBack)), pending := None),
                         process := if hasConfig then Running(start) else w.process,
                         starts := if hasConfig then w.starts + [start] else w.starts, fates := s.w.fates)
  {
    hide PutBundle, Restart, Clear;
    OtherStep(w, n + 2);
    ClearShrinks(w.fates, n + 3, n + 2);
    var w1 := if hasConfig then Restart(w).w else w;
    var b := w1.bun.(failed := Some(BundleFailure(p.version, code, RolledBack)));
    BundleStep(w1, b, n + 1);
    BundleStep(PutBundle(w1, b).w, b.(pending := None), n);
  }

  lemma BundleRollbackLeaves(w: World, p: PendingBundle, hasConfig: bool, code: ErrorCode, n: nat)
    requires Clear(w.fates, n + 6) && HasWayBackBundle(w.bun, p) && Prepares(w.bun)
    ensures var s := Bundle.Rollback(w, p, hasConfig, code);
            s.Ok? && IsRolledBackBundle(w, s.w, p, hasConfig, code, n)
  {
    hide Clear, Stop, Bundle.PrepareRollbackController, Bundle.RestoreFiles, Bundle.Revive, Bundle.RollbackApplied;
    PreparesAtOnce(w, p);
    OtherStep(w, n + 5);
    ClearShrinks(w.fates, n + 6, n + 5);
    var w2 := if hasConfig then Stop(w).w else w;
    RestoreLeaves(w2, p, n + 3);
    ReviveLeaves(Bundle.RestoreFiles(w2, p).w, p, hasConfig, code, n);
  }

  predicate ReturnsRolledBackBundle(w: World, flow: Flow<Bundle.Result>, p: PendingBundle, hasConfig: bool, code: ErrorCode, n: nat) {
    flow.Return? && flow.r == Bundle.RolledBackTo(p.version, code) && IsRolledBackBundle(w, flow.w, p, hasConfig, code, n)
  }

  lemma BundleResultLeaves(w: World, p: PendingBundle, hasConfig: bool, code: ErrorCode, n: nat)
    requires Clear(w.fates, n + 6) && HasWayBackBundle(w.bun, p) && Prepares(w.bun)
    ensures ReturnsRolledBackBundle(w, Bundle.RollbackResult(w, p, hasConfig, code), p, hasConfig, code, n)
  {
    hide Bundle.Rollback, Clear, HasWayBackBundle, IsRolledBackBundle, Prepares;
    BundleRollbackLeaves(w, p, hasConfig, code, n);
  }

  // ---------------------------------------------------------------- an activation in which one step fails

  /**
   * The step of the activation that writes the applied record: after the pending record come the
   * stop, the link, the restart and the previous link.
   */
  function LastUndoneBundle(p: PendingBundle, hasConfig: bool): nat {
    2 + (if hasConfig then 2 else 0) + (if p.previousTarget.Some? then 1 else 0)
  }

  /** With a configuration the first step after the pending record stops the old process and the third starts the new one. */
  function CodeOfBundle(hasConfig: bool, j: nat): ErrorCode {
    if hasConfig && (j == 1 || j == 3) then ActivationFailed else PersistenceFailed
  }

  /** The previous link when step `j` failed; the failing step may have moved it nevertheless. */
  predicate PreviousAt(b: BundleFiles, previous: Option<BundleTarget>, p: PendingBundle, hasConfig: bool, j: nat) {
    if p.previousTarget.None? || j < LastUndoneBundle(p, hasConfig) - 1 then previous == b.previous
    else previous == p.previousTarget || (j < LastUndoneBundle(p, hasConfig) && previous == b.previous)
  }

  /** How an activation ends whose step `j` failed. `w` is the world before the pending record. */
  predicate UndoneBundleAt(w: World, flow: Flow<Bundle.Result>, p: PendingBundle, hasConfig: bool, j: nat) {
    && flow.Return? && flow.r == Bundle.RolledBackTo(p.version, CodeOfBundle(hasConfig, j))
    && flow.w.bun == RolledBackBundle(w.bun.(previous := flow.w.bun.previous), p, CodeOfBundle(hasConfig, j))
    && PreviousAt(w.bun, flow.w.bun.previous, p, hasConfig, j)
    && (hasConfig ==> flow.w.process == Running(RestoredStart(w, p)))
    && (!hasConfig ==> flow.w.process == w.process) && flow.w.cfg == w.cfg
  }

  /** What an activation may have changed before its step `j` failed. */
  predicate UpTo(w0: World, w: World, p: PendingBundle, hasConfig: bool, j: nat) {
    && w.cfg == w0.cfg && (!hasConfig ==> w.process == w0.process)
    && w.bun == w0.bun.(pending := w.bun.pending, current := w.bun.current, applied := w.bun.applied, previous := w.bun.previous)
    && PreviousAt(w0.bun, w.bun.previous, p, hasConfig, j)
    && HasWayBackBundle(w.bun, p) && Prepares(w.bun)
  }

  /** The rollback from wherever step `j` failed. */
  lemma UndoBundle(w0: World, w: World, p: PendingBundle, hasConfig: bool, j: nat)
    requires UpTo(w0, w, p, hasConfig, j) && Clear(w.fates, 6)
    ensures var flow := Bundle.RollbackResult(w, p, hasConfig, CodeOfBundle(hasConfig, j));
            flow.Return? && UndoneBundleAt(w0, flow, p, hasConfig, j)
  {
    hide Bundle.RollbackResult, Clear, HasWayBackBundle, Prepares;
    BundleResultLeaves(w, p, hasConfig, CodeOfBundle(hasConfig, j), 0);
  }

  /** A failing step leaves the old files or the new ones. */
  lemma FailedBundleWrite(w: World, b: BundleFiles, n: nat)
    requires FailsAt(w.fates, 0, n)
    ensures var s := PutBundle(w, b);
            s.Err? && Clear(s.w.fates, n) && (s.w.bun == w.bun || s.w.bun == b) && s.w == w.(bun := s.w.bun, fates := s.w.fates)
    ensures var s := RenameBundle(w, b);
            s == Err(w.(fates := Rest(w))) && Clear(Rest(w), n)
    ensures Restart(w).Err? && Restart(w).w == w.(process := Anything, starts := Restart(w).w.starts, fates := Rest(w))
    ensures Stop(w).Err? && Stop(w).w == w.(process := Anything, fates := Rest(w))
  {
    FailsNow(w, n);
  }

  lemma RecordUndoneBundle(w0: World, w: World, p: PendingBundle, hasConfig: bool, now: Clock)
    requires UpTo(w0, w, p, hasConfig, LastUndoneBundle(p, hasConfig)) && w.bun.current.Some? && Bundle.ValidApplied(B.Next(p, now))
    requires FailsAt(w.fates, 0, 6)
    ensures UndoneBundleAt(w0, Bundle.RecordNext(w, p, hasConfig, now), p, hasConfig, LastUndoneBundle(p, hasConfig))
  {
    hide FailsAt, Clear, PutBundle, RenameBundle, HasWayBackBundle, Bundle.RollbackResult, Bundle.ValidApplied;
    var b := w.bun.(applied := Some(B.Next(p, now)));
    FailedBundleWrite(w, b, 6);
    var u := Bundle.PutApplied(w, B.Next(p, now)).w;
    WayBackOnBundles(w.bun, u.bun, p);
    UndoBundle(w0, u, p, hasConfig, LastUndoneBundle(p, hasConfig));
    hide UndoneBundleAt;
  }

  lemma CommitUndoneBundle(w0: World, w: World, p: PendingBundle, hasConfig: bool, now: Clock, j: nat)
    requires UpTo(w0, w, p, hasConfig, 0) && w.bun.current.Some? && Bundle.ValidApplied(B.Next(p, now))
    requires var first := if hasConfig then 4 else 2;
             first <= j <= LastUndoneBundle(p, hasConfig) && FailsAt(w.fates, j - first, 6)
    ensures UndoneBundleAt(w0, Bundle.Commit(w, p, hasConfig, now), p, hasConfig, j)
  {
    hide FailsAt, Clear, PutBundle, HasWayBackBundle, Bundle.RollbackResult, Bundle.RecordNext, Bundle.ValidApplied, UndoneBundleAt;
    var b := w.bun.(previous := p.previousTarget);
    if p.previousTarget.None? {
      RecordUndoneBundle(w0, w, p, hasConfig, now);
    } else if j < LastUndoneBundle(p, hasConfig) {
      FailedBundleWrite(w, b, 6);
      var u := PutBundle(w, b).w;
      WayBackOnBundles(w.bun, u.bun, p);
      UndoBundle(w0, u, p, hasConfig, j);
    } else {
      FailsLater(w, 1, 6);
      BundleStep(w, b, 0);
      WayBackOnBundles(w.bun, b, p);
      RecordUndoneBundle(w0, PutBundle(w, b).w, p, hasConfig, now);
    }
  }

  lemma LaunchUndoneBundle(w0: World, w: World, p: PendingBundle, hasConfig: bool, now: Clock, j: nat)
    requires UpTo(w0, w, p, hasConfig, 0) && Bundle.ValidApplied(B.Next(p, now))
    requires var first := if hasConfig then 2 else 1;
             first <= j <= LastUndoneBundle(p, hasConfig) && FailsAt(w.fates, j - first, 6)
    ensures UndoneBundleAt(w0, Bundle.Launch(w, p, hasConfig, now), p, hasConfig, j)
  {
    hide FailsAt, Clear, PutBundle, Restart, HasWayBackBundle, Bundle.RollbackResult, Bundle.Commit, Bundle.ValidApplied, UndoneBundleAt;
    var first := if hasConfig then 2 else 1;
    var b := w.bun.(current := Some(p.target));
    if j == first {
      FailedBundleWrite(w, b, 6);
      var u := PutBundle(w, b).w;
      WayBackOnBundles(w.bun, u.bun, p);
      UndoBundle(w0, u, p, hasConfig, j);
    } else {
      FailsLater(w, j - first, 6);
      BundleStep(w, b, 0);
      var w1 := PutBundle(w, b).w;
      WayBackOnBundles(w.bun, b, p);
      if !hasConfig {
        CommitUndoneBundle(w0, w1, p, hasConfig, now, j);
      } else if j == 3 {
        FailedBundleWrite(w1, w1.bun, 6);
        UndoBundle(w0, Restart(w1).w, p, hasConfig, j);
      } else {
        FailsLater(w1, j - 3, 6);
        OtherStep(w1, 0);
        CommitUndoneBundle(w0, Restart(w1).w, p, hasConfig, now, j);
      }
    }
  }

  /** Step `j` of an activation fails after the pending record and before the applied one is safe: the rollback undoes it. */
  lemma ActivationUndoneBundle(w: World, p: PendingBundle, hasConfig: bool, now: Clock, j: nat)
    requires 1 <= j <= LastUndoneBundle(p, hasConfig) && FailsAt(w.fates, j, 6)
    requires HasWayBackBundle(w.bun, p) && Prepares(w.bun) && Bundle.ValidApplied(B.Next(p, now))
    ensures UndoneBundleAt(w, Bundle.Activate(w, p, hasConfig, now), p, hasConfig, j)
  {
    hide FailsAt, Clear, PutBundle, Stop, HasWayBackBundle, Bundle.RollbackResult, Bundle.Launch, Bundle.ValidApplied, UndoneBundleAt;
    var b := w.bun.(pending := Some(p));
    FailsLater(w, j, 6);
    BundleStep(w, b, 0);
    var w1 := PutBundle(w, b).w;
    WayBackOnBundles(w.bun, b, p);
    if !hasConfig {
      LaunchUndoneBundle(w, w1, p, hasConfig, now, j);
    } else if j == 1 {
      FailedBundleWrite(w1, w1.bun, 6);
      UndoBundle(w, Stop(w1).w, p, hasConfig, j);
    } else {
      FailsLater(w1, j - 1, 6);
      OtherStep(w1, 0);
      LaunchUndoneBundle(w, Stop(w1).w, p, hasConfig, now, j);
    }
  }

  // ---------------------------------------------------------------- the steps before an activation

  lemma OneTakesBundle(w: World, b: BundleFiles)
    ensures Takes(w, PutBundle(w, b), 1) && Takes(w, RenameBundle(w, b), 1)
  {
  }

  lemma {:induction false} DeleteTakesBundle(w: World, doomed: seq<Entry<BundleTarget>>, removed: bool)
    ensures Takes(w, Bundle.Delete(w, doomed, removed), |doomed| + if removed || doomed != [] then 1 else 0)
    decreases |doomed|
  {
    if doomed != [] {
      hide Takes, RenameBundle;
      var b := w.bun.(versions := w.bun.versions - {doomed[0].key});
      OneTakesBundle(w, b);
      var s := RenameBundle(w, b);
      if s.Ok? { DeleteTakesBundle(s.w, doomed[1..], true); }
      ThenTakes(w, s, 1, Bundle.Delete(w, doomed, removed), |doomed[1..]| + 1);
    }
  }

  ghost function DoomedBundlesNow(b: BundleFiles): seq<Entry<BundleTarget>> {
    Doomed(Bundle.Entries(b), Bundle.Protected(b), Bundle.RETAINED_BUNDLES)
  }

  /** One step a deletion, and a sync if there was any. */
  ghost function PruneStepsBundle(b: BundleFiles): nat { |DoomedBundlesNow(b)| + if DoomedBundlesNow(b) != [] then 1 else 0 }

  lemma PruneTakesBundle(w: World)
    requires !Bundle.LoadApplied(w.bun).Invalid? && !Bundle.LoadPending(w.bun).Invalid?
    ensures Takes(w, Bundle.Prune(w), PruneStepsBundle(w.bun))
  {
    DeleteTakesBundle(w, DoomedBundlesNow(w.bun), false);
  }

  /** Unpacking and installing, unless the directory is still there once retention is through. */
  ghost function UnpackSteps(b: BundleFiles, rel: Bundle.Release): nat {
    var t := BundleSuccess.Target(rel);
    if t in b.versions && !S.BundleIsDoomed(b, t) then 0 else 2
  }

  /** The candidate reports its version and accepts the configuration in use, and the controller is there. */
  function CheckSteps(hasConfig: bool): nat { 1 + if hasConfig then 2 else 0 }

  lemma UnpackTakes(w: World, rel: Bundle.Release, now: Clock)
    requires BundleSuccess.NameIsFree(w.bun, rel)
    ensures var i := Bundle.InstallBundle(w, rel, now);
            var m: nat := if BundleSuccess.Target(rel) in w.bun.versions then 0 else 2;
            && (i.Unpacked? <==> Clear(w.fates, m)) && (i.Unpacked? ==> i.w.fates == w.fates[m..])
            && (i.NotUnpacked? ==> i.r.Refused? || i.r.Crashed?)
  {
    if BundleSuccess.Target(rel) !in w.bun.versions {
      hide Check, PutBundle, Takes;
      OneTakes(w, w.cfg);
      var s1 := Check(w);
      var d := BundleDirectory(rel.version, rel.xrayVersion, rel.digest, true, now.mtime);
      var b := s1.w.bun.(versions := s1.w.bun.versions[BundleSuccess.Target(rel) := d]);
      OneTakesBundle(s1.w, b);
      var t2 := if s1.Ok? then PutBundle(s1.w, b) else s1;
      ThenTakes(w, s1, 1, t2, 1);
      Took(w, t2, 2);
      hide Clear;
    } else {
      assert w.fates[0..] == w.fates;
    }
  }

  /** Retention and unpacking together. */
  lemma StoreTakesBundle(w: World, rel: Bundle.Release, now: Clock) returns (i: Bundle.Candidate)
    requires Invariant(w) && w.bun.pending.None? && B.ValidRelease(rel) && BundleSuccess.NameAvailable(w.bun, rel)
    ensures var m := PruneStepsBundle(w.bun) + UnpackSteps(w.bun, rel);
            var s := Bundle.Prune(w);
            && Invariant(s.w) && B.StoreMoved(w, s.w) && (Clear(w.fates, m) ==> s.Ok?)
            && (s.Ok? ==>
                  && i == Bundle.InstallBundle(s.w, rel, now) && Invariant(i.w) && B.StoreMoved(w, i.w)
                  && (i.Unpacked? <==> Clear(w.fates, m))
                  && (if i.Unpacked? then i.target == BundleSuccess.Target(rel) && m <= |w.fates| && i.w.fates == w.fates[m..]
                      else i.r.Refused? || i.r.Crashed?))
  {
    hide Invariant, Clear, Bundle.Prune, Bundle.InstallBundle, PruneStepsBundle, B.StoreMoved, Bundle.ValidVersion, BundleSuccess.NameAvailable;
    var t, m := BundleSuccess.Target(rel), PruneStepsBundle(w.bun);
    BundleSuccess.RecordsLoad(w);
    PruneTakesBundle(w);
    B.PruneKeeps(w);
    var w2 := Bundle.Prune(w).w;
    ClearSplits(w.fates, m, UnpackSteps(w.bun, rel));
    if Bundle.Prune(w).Ok? {
      BundleSuccess.PrunedNameIsFree(w, rel);
      S.PruneBundlesExactly(w, t);
      UnpackTakes(w2, rel, now);
    }
    B.InstallBundleKeeps(w2, rel, now);
    i := Bundle.InstallBundle(w2, rel, now);
    B.StoreMovedTransitive(w, w2, i.w);
    if Clear(w.fates, m + UnpackSteps(w.bun, rel)) { ClearLength(w.fates, m + UnpackSteps(w.bun, rel)); }
  }

  /** All steps of a new release before its pending record. */
  ghost function StepsToBundleActivation(w: World, rel: Bundle.Release): nat {
    PruneStepsBundle(w.bun) + UnpackSteps(w.bun, rel) + CheckSteps(Config.InUse(w.cfg))
  }

  /** The candidate was asked for its version; it begins. */
  lemma ChecksTake(w: World, rel: Bundle.Release, now: Clock) returns (u: World)
    requires Invariant(w) && w.bun.pending.None? && !B.Repeats(w.bun, rel) && !Config.LoadCurrent(w.cfg).Invalid?
    ensures var flow := Bundle.InstallUnpacked(w, rel, BundleSuccess.Target(rel), now);
            var m: nat := if Config.InUse(w.cfg) then 2 else 0;
            if Clear(w.fates, m) then
              && u == w.(fates := w.fates[m..])
              && flow == Bundle.Activate(u, B.AttemptOf(w.bun, rel, now), Config.InUse(w.cfg), now)
            else flow.Return? && (flow.r.Refused? || flow.r.Crashed?) && flow.w == w.(fates := flow.w.fates)
  {
    hide Invariant, Clear, Check, Bundle.Activate, Bundle.VerifyApplied, Config.LoadCurrent, Bundle.LoadApplied, Takes;
    BundleSuccess.RecordsLoad(w);
    var s1 := Check(w);
    CheckedOnly(w);
    OneTakes(w, w.cfg);
    CheckedOnly(s1.w);
    OneTakes(s1.w, s1.w.cfg);
    var t2 := if s1.Ok? then Check(s1.w) else s1;
    ThenTakes(w, s1, 1, t2, 1);
    Took(w, t2, 2);
    NoFates(w);
    u := if Config.InUse(w.cfg) then t2.w else w;
  }

  lemma CheckedOnly(w: World)
    ensures Check(w).w == w.(fates := Check(w).w.fates)
  {
  }

  lemma NoFates(w: World)
    ensures Clear(w.fates, 0) && w.fates[0..] == w.fates && w == w.(fates := w.fates)
  {
  }

  /**
   * A new release on a settled node. Exactly its preparatory steps, counted here, decide: if they
   * all succeed the candidate is activated, and otherwise nothing was stopped or started and no
   * record changed.
   */
  lemma ReachesBundleActivation(w: World, rel: Bundle.Release, now: Clock) returns (u: World)
    requires Invariant(w) && w.bun.pending.None? && !B.Repeats(w.bun, rel) && BundleSuccess.Acceptable(w, rel)
    ensures var flow := Bundle.Install(w, rel, now);
            if Clear(w.fates, StepsToBundleActivation(w, rel)) then
              && Invariant(u) && B.StoreMoved(w, u) && u.fates == w.fates[StepsToBundleActivation(w, rel)..]
              && flow == Bundle.Activate(u, B.AttemptOf(w.bun, rel, now), Config.InUse(w.cfg), now)
            else flow.Return? && (flow.r.Refused? || flow.r.Crashed?) && B.StoreMoved(w, flow.w)
  {
    hide Invariant, Clear, Check, Bundle.Prune, Bundle.InstallBundle, Bundle.InstallUnpacked, PruneStepsBundle, UnpackSteps, Bundle.ValidVersion,
      B.StoreMoved, BundleSuccess.NameAvailable, Config.LoadCurrent, Bundle.LoadApplied, Bundle.Activate, B.Repeats;
    BundleSuccess.RecordsLoad(w);
    var m, h: nat := PruneStepsBundle(w.bun) + UnpackSteps(w.bun, rel), if Config.InUse(w.cfg) then 2 else 0;
    var i := StoreTakesBundle(w, rel, now);
    ClearSplits(w.fates, m, 1 + h);
    if Bundle.Prune(w).Ok? && i.Unpacked? {
      B.StoreCheck(i.w);
      OneTakes(i.w, i.w.cfg);
      ClearSplits(i.w.fates, 1, h);
      var w3 := Check(i.w).w;
      B.StoreMovedTransitive(w, i.w, w3);
      B.MovedFacts(w, w3);
      B.RepeatsOnRecords(w.bun, w3.bun, rel);
      AttemptOnRecords(w, w3, rel, now);
      u := ChecksTake(w3, rel, now);
      B.FatesIrrelevant(w3, u.fates);
      var flow := Bundle.InstallUnpacked(w3, rel, BundleSuccess.Target(rel), now);
      MovedOnFates(w, w3, u.fates);
      MovedOnFates(w, w3, flow.w.fates);
      if Clear(w.fates, m + (1 + h)) { ClearLength(w.fates, m + (1 + h)); }
    } else {
      u := w;
    }
  }

  lemma AttemptOnRecords(w: World, w': World, rel: Bundle.Release, now: Clock)
    requires B.StoreMoved(w, w')
    ensures B.AttemptOf(w'.bun, rel, now) == B.AttemptOf(w.bun, rel, now) && w'.cfg == w.cfg && w'.bun.pending == w.bun.pending
  {
  }

  lemma MovedOnFates(w: World, w': World, f: seq<Fate>)
    requires B.StoreMoved(w, w')
    ensures B.StoreMoved(w, w'.(fates := f))
  {
  }

  lemma SettledHasWayBackBundle(u: World, rel: Bundle.Release, now: Clock)
    requires Invariant(u) && u.bun.pending.None? && B.ValidRelease(rel)
    ensures var p := B.AttemptOf(u.bun, rel, now);
            HasWayBackBundle(u.bun, p) && Prepares(u.bun) && Bundle.ValidApplied(B.Next(p, now))
  {
  }

  /**
   * The main promise about a bad bundle: when the old process does not stop, the new one does not
   * start, or a write in between fails, the install answers that it was rolled back and why, the
   * old pair is selected again, and with a configuration in use the old bundle was started last.
   */
  lemma FailingBundleIsRolledBack(w: World, rel: Bundle.Release, now: Clock, j: nat)
    requires Invariant(w) && w.bun.pending.None? && !B.Repeats(w.bun, rel) && BundleSuccess.Acceptable(w, rel)
    requires 1 <= j <= 2 + (if Config.InUse(w.cfg) then 2 else 0) + (if w.bun.applied.Some? then 1 else 0)
    requires var k := StepsToBundleActivation(w, rel);
             Clear(w.fates, k) && FailsAt(w.fates[k..], j, 6)
    ensures var flow := Bundle.Install(w, rel, now);
            var code := if Config.InUse(w.cfg) && (j == 1 || j == 3) then ActivationFailed else PersistenceFailed;
            && flow.Return? && flow.r == Bundle.RolledBackTo(rel.version, code)
            && flow.w.bun.current == w.bun.current && flow.w.bun.applied == w.bun.applied && flow.w.bun.pending.None?
            && flow.w.bun.failed == Some(BundleFailure(rel.version, code, RolledBack))
            && flow.w.process == (if Config.InUse(w.cfg) then Running(Start(ActivePath(w.bun), w.cfg.current)) else w.process)
            && flow.w.cfg == w.cfg
  {
    hide Invariant, Clear, FailsAt, Bundle.Install, Bundle.Activate, HasWayBackBundle, Prepares, StepsToBundleActivation,
      BundleSuccess.NameAvailable, Config.LoadCurrent, Bundle.ValidVersion, Bundle.VerifyApplied;
    var u := ReachesBundleActivation(w, rel, now);
    var p := B.AttemptOf(w.bun, rel, now);
    BundleSuccess.RecordsLoad(w);
    AttemptOnRecords(w, u, rel, now);
    SettledHasWayBackBundle(u, rel, now);
    ActivationUndoneBundle(u, p, Config.InUse(w.cfg), now, j);
  }

  // ---------------------------------------------------------------- once the applied record is written

  lemma BundlePruneMovesStore(w: World)
    ensures var s := Bundle.Prune(w);
            s.w == w.(bun := w.bun.(versions := s.w.bun.versions), fates := s.w.fates)
  {
    hide Bundle.Delete;
    var k := S.DeleteBundles(w, DoomedBundlesNow(w.bun), false);
  }

  /** The end of an activation only tidies up, whatever its steps do. */
  lemma FinishKeepsBundlePair(w: World, next: AppliedBundle)
    ensures var flow := Bundle.Finish(w, next);
            && flow.Return? && flow.w.bun.current == w.bun.current && flow.w.bun.applied == w.bun.applied
            && flow.w.process == w.process && flow.w.starts == w.starts && flow.w.cfg == w.cfg
            && (flow.r == Bundle.Installed(next) || flow.r == Bundle.Refused(PersistenceFailed, Unknown) ||
                flow.r == Bundle.Refused(PersistenceFailed, NotRequired) || flow.r.Crashed?)
  {
    hide PutBundle, Bundle.Prune;
    var b := w.bun.(pending := None);
    B.Writes(w, b);
    var w1 := PutBundle(w, b).w;
    B.Writes(w1, w1.bun.(failed := None));
    BundlePruneMovesStore(PutBundle(w1, w1.bun.(failed := None)).w);
  }

  predicate RecordedBundle(w: World, u: World, p: PendingBundle, hasConfig: bool, now: Clock) {
    && u.bun.current == Some(p.target) && u.bun.applied == Some(B.Next(p, now)) && u.cfg == w.cfg
    && u.process == (if hasConfig then Running(BundleSuccess.StartOf(w, p.target)) else w.process)
  }

  lemma LaunchRecords(w: World, p: PendingBundle, hasConfig: bool, now: Clock) returns (u: World)
    requires Clear(w.fates, (if hasConfig then 3 else 2) + (if p.previousTarget.Some? then 1 else 0))
    ensures RecordedBundle(w, u, p, hasConfig, now) && Bundle.Launch(w, p, hasConfig, now) == Bundle.Finish(u, B.Next(p, now))
  {
    hide Clear, PutBundle, RenameBundle, Restart, Bundle.Finish;
    var d: nat := if p.previousTarget.Some? then 1 else 0;
    var b1 := w.bun.(current := Some(p.target));
    BundleStep(w, b1, 1 + d + if hasConfig then 1 else 0);
    var w1 := PutBundle(w, b1).w;
    if hasConfig { OtherStep(w1, 1 + d); }
    var w2 := if hasConfig then Restart(w1).w else w1;
    var b2 := if d == 1 then b1.(previous := p.previousTarget) else b1;
    if d == 1 { BundleStep(w2, b2, 1); }
    var w3 := if d == 1 then PutBundle(w2, b2).w else w2;
    var b3 := b2.(applied := Some(B.Next(p, now)));
    BundleStep(w3, b3, 0);
    u := PutBundle(w3, b3).w;
  }

  lemma ActivationRecordsBundle(w: World, p: PendingBundle, hasConfig: bool, now: Clock) returns (u: World)
    requires Clear(w.fates, LastUndoneBundle(p, hasConfig) + 1)
    ensures RecordedBundle(w, u, p, hasConfig, now) && Bundle.Activate(w, p, hasConfig, now) == Bundle.Finish(u, B.Next(p, now))
  {
    hide Clear, PutBundle, Stop, Bundle.Launch, Bundle.Finish;
    var k := LastUndoneBundle(p, hasConfig);
    var b := w.bun.(pending := Some(p));
    BundleStep(w, b, k);
    var w1 := PutBundle(w, b).w;
    if hasConfig { OtherStep(w1, k - 1); }
    u := LaunchRecords(if hasConfig then Stop(w1).w else w1, p, hasConfig, now);
  }

  /** Once the applied record is written nothing undoes the new bundle, whatever the remaining steps do. */
  lemma RecordedBundleStays(w: World, rel: Bundle.Release, now: Clock)
    requires Invariant(w) && w.bun.pending.None? && !B.Repeats(w.bun, rel) && BundleSuccess.Acceptable(w, rel)
    requires var k := StepsToBundleActivation(w, rel);
             && Clear(w.fates, k)
             && Clear(w.fates[k..], 3 + (if Config.InUse(w.cfg) then 2 else 0) + (if w.bun.applied.Some? then 1 else 0))
    ensures var flow := Bundle.Install(w, rel, now);
            var next := AppliedBundle(rel.version, rel.xrayVersion, rel.digest, BundleTarget(rel.version, rel.digest), now.appliedAt);
            && flow.Return? && flow.w.bun.current == Some(next.target) && flow.w.bun.applied == Some(next)
            && (Config.InUse(w.cfg) ==> flow.w.process == Running(Start(Managed(Some(next.target)), w.cfg.current)))
            && (flow.r == Bundle.Installed(next) || flow.r == Bundle.Refused(PersistenceFailed, Unknown) ||
                flow.r == Bundle.Refused(PersistenceFailed, NotRequired) || flow.r.Crashed?)
  {
    hide Invariant, Clear, Bundle.Install, Bundle.Activate, Bundle.Finish, StepsToBundleActivation,
      BundleSuccess.NameAvailable, Config.LoadCurrent, Bundle.ValidVersion, Bundle.VerifyApplied;
    var u := ReachesBundleActivation(w, rel, now);
    var p := B.AttemptOf(w.bun, rel, now);
    BundleSuccess.RecordsLoad(w);
    AttemptOnRecords(w, u, rel, now);
    var v := ActivationRecordsBundle(u, p, Config.InUse(w.cfg), now);
    FinishKeepsBundlePair(v, B.Next(p, now));
  }

  // ---------------------------------------------------------------- recovery

  lemma PrepareShape(w: World, p: PendingBundle)
    requires Invariant(w) && w.bun.pending == Some(p)
    ensures var s := Bundle.PrepareRollbackController(w, p);
            s.w == w.(bun := w.bun.(current := s.w.bun.current), fates := s.w.fates)
  {
  }

  lemma PendingHasWayBackBundle(w: World, p: PendingBundle)
    requires Invariant(w) && w.bun.pending == Some(p)
    ensures HasWayBackBundle(w.bun, p)
  {
  }

  lemma RecoveryRollbackLeaves(w: World, p: PendingBundle, hasConfig: bool, code: ErrorCode, n: nat)
    requires Invariant(w) && w.bun.pending == Some(p) && Clear(w.fates, n + 7)
    ensures var s := Bundle.Rollback(w, p, hasConfig, code);
            s.Ok? && IsRolledBackBundle(w, s.w, p, hasConfig, code, n)
  {
    hide Invariant, Clear, Stop, Bundle.PrepareRollbackController, Bundle.RestoreFiles, Bundle.Revive, HasWayBackBundle;
    PendingHasWayBackBundle(w, p);
    WayBackHasBoth(w.bun, p);
    PrepareArrives(w, p, n + 6);
    PrepareShape(w, p);
    ClearShrinks(w.fates, n + 7, n + 5);
    var w1 := if hasConfig then Bundle.PrepareRollbackController(w, p).w else w;
    if hasConfig { OtherStep(w1, n + 5); }
    var w2 := if hasConfig then Stop(w1).w else w1;
    WayBackOnBundles(w.bun, w2.bun, p);
    RestoreLeaves(w2, p, n + 3);
    ReviveLeaves(Bundle.RestoreFiles(w2, p).w, p, hasConfig, code, n);
  }

  lemma WayBackHasBoth(b: BundleFiles, p: PendingBundle)
    requires HasWayBackBundle(b, p)
    ensures p.previousApplied.Some? <==> p.previousTarget.Some?
  {
  }

  /** A recovery that has to roll back, undisturbed: the old pair is back, serves, and the attempt is recorded as rolled back. */
  lemma RecoverRollsBackBundle(w: World, p: PendingBundle, n: nat)
    requires Invariant(w) && w.bun.pending == Some(p) && !Confirmable(w.bun) && !Stuck(w) && Clear(w.fates, n + 8)
    ensures var flow := Bundle.Recover(w);
            && flow.Return? && flow.r.Recovered?
            && IsRolledBackBundle(w, flow.w, p, Config.InUse(w.cfg), PreparationFailed, n)
  {
    hide Invariant, Clear, Check, Bundle.Rollback, Bundle.Confirm, Bundle.Matches, Bundle.VerifyApplied, Bundle.LoadApplied, Bundle.LoadPending,
      Config.LoadCurrent, B.Unconfirmed, IsRolledBackBundle;
    OtherStep(w, n + 7);
    var v := Check(w).w;
    B.FatesIrrelevant(w, Rest(w));
    B.AnyPendingIsSafe(v, p);
    B.PendingVerify(v, p, B.NextOf(v, p), None);
    RecoveryRollbackLeaves(v, p, Config.InUse(w.cfg), PreparationFailed, n);
    OnFates(w, v, Bundle.Rollback(v, p, Config.InUse(w.cfg), PreparationFailed).w, p, Config.InUse(w.cfg), PreparationFailed, n);
  }

  lemma OnFates(w: World, v: World, u: World, p: PendingBundle, hasConfig: bool, code: ErrorCode, n: nat)
    requires v == w.(fates := v.fates) && IsRolledBackBundle(v, u, p, hasConfig, code, n)
    ensures IsRolledBackBundle(w, u, p, hasConfig, code, n)
  {
  }
}
