/** What an install achieves when none of its steps fails, on nodes with and without a configuration. */
module BundleSuccess {
  import opened Common
  import opened NodeState
  import opened NodeInvariant
  import opened NodeProgress
  import opened Retention
  import Config = ConfigActivation
  import Bundle = BundleActivation
  import B = BundleProofs
  import S = NodeStores
  import ConfigSuccess

  // ---------------------------------------------------------------- retention

  predicate Pruned(w: World, s: Step, n: nat) {
    && Arrived(s, n) && s.w == w.(bun := w.bun.(versions := s.w.bun.versions), fates := s.w.fates)
    && |s.w.bun.versions| <= |w.bun.versions|
  }

  lemma {:induction false} DeleteArrives(w: World, doomed: seq<Entry<BundleTarget>>, removed: bool, n: nat)
    requires Clear(w.fates, |doomed| + 1 + n)
    ensures Arrived(Bundle.Delete(w, doomed, removed), n)
    decreases |doomed|
  {
    if doomed == [] {
      OtherStep(w, n);
      ClearShrinks(w.fates, n + 1, n);
    } else {
      var b := w.bun.(versions := w.bun.versions - {doomed[0].key});
      BundleStep(w, b, |doomed[1..]| + 1 + n);
      hide Clear, RenameBundle;
      DeleteArrives(RenameBundle(w, b).w, doomed[1..], true, n);
    }
  }

  lemma PruneArrives(w: World, n: nat)
    requires !Bundle.LoadApplied(w.bun).Invalid? && !Bundle.LoadPending(w.bun).Invalid?
    requires Clear(w.fates, |w.bun.versions| + 1 + n)
    ensures Pruned(w, Bundle.Prune(w), n)
  {
    var entries, protected := Bundle.Entries(w.bun), Bundle.Protected(w.bun);
    var doomed := Doomed(entries, protected, Bundle.RETAINED_BUNDLES);
    ConfigSuccess.DeletionsBound(entries, w.bun.versions.Keys, protected, Bundle.RETAINED_BUNDLES);
    hide Clear, Bundle.Delete, Bundle.LoadApplied, Bundle.LoadPending;
    ClearShrinks(w.fates, |w.bun.versions| + 1 + n, |doomed| + 1 + n);
    DeleteArrives(w, doomed, false, n);
    var k := S.DeleteBundles(w, doomed, false);
    ConfigSuccess.FewerVersions(w.bun.versions, S.Keys(doomed[..k]));
  }

  // ---------------------------------------------------------------- the forward path

  /** Returned `r`, leaving the records of `b`, whatever is left of the store, and the process and log given. */
  predicate Leaves(w: World, flow: Flow<Bundle.Result>, r: Bundle.Result, b: BundleFiles, process: Process, starts: seq<Start>, n: nat) {
    && flow.Return? && flow.r == r && Clear(flow.w.fates, n)
    && flow.w == w.(bun := b.(versions := flow.w.bun.versions), process := process, starts := starts, fates := flow.w.fates)
  }

  lemma FinishSucceeds(w: World, next: AppliedBundle, n: nat)
    requires w.bun.applied == Some(next) && Bundle.ValidApplied(next) && Clear(w.fates, |w.bun.versions| + 3 + n)
    ensures Leaves(w, Bundle.Finish(w, next), Bundle.Installed(next), w.bun.(pending := None, failed := None), w.process, w.starts, n)
  {
    hide Clear, PutBundle, Bundle.Prune, Bundle.ValidVersion;
    var b1 := w.bun.(pending := None);
    BundleStep(w, b1, |w.bun.versions| + 2 + n);
    var w1 := PutBundle(w, b1).w;
    var b2 := b1.(failed := None);
    BundleStep(w1, b2, |w.bun.versions| + 1 + n);
    PruneArrives(PutBundle(w1, b2).w, n);
  }

  lemma RecordSucceeds(w: World, p: PendingBundle, hasConfig: bool, now: Clock, n: nat)
    requires Bundle.ValidApplied(B.Next(p, now)) && Clear(w.fates, |w.bun.versions| + 4 + n)
    ensures var next := B.Next(p, now);
            Leaves(w, Bundle.RecordNext(w, p, hasConfig, now), Bundle.Installed(next),
                   w.bun.(applied := Some(next), pending := None, failed := None), w.process, w.starts, n)
  {
    hide Clear, PutBundle, RenameBundle, Bundle.Finish, Bundle.ValidApplied;
    var b := w.bun.(applied := Some(B.Next(p, now)));
    BundleStep(w, b, |w.bun.versions| + 3 + n);
    FinishSucceeds(PutBundle(w, b).w, B.Next(p, now), n);
  }

  /** The link to the way back after attempt `p`. */
  function PreviousAfter(b: BundleFiles, p: PendingBundle): Option<BundleTarget> {
    if p.previousTarget.Some? then p.previousTarget else b.previous
  }

  lemma CommitSucceeds(w: World, p: PendingBundle, hasConfig: bool, now: Clock, n: nat)
    requires Bundle.ValidApplied(B.Next(p, now)) && Clear(w.fates, |w.bun.versions| + 5 + n)
    ensures var next := B.Next(p, now);
            Leaves(w, Bundle.Commit(w, p, hasConfig, now), Bundle.Installed(next),
                   w.bun.(previous := PreviousAfter(w.bun, p), applied := Some(next), pending := None, failed := None), w.process, w.starts, n)
  {
    hide Clear, PutBundle, Bundle.RecordNext, Bundle.ValidApplied;
    if p.previousTarget.Some? {
      var b := w.bun.(previous := p.previousTarget);
      BundleStep(w, b, |w.bun.versions| + 4 + n);
      RecordSucceeds(PutBundle(w, b).w, p, hasConfig, now, n);
    } else {
      ClearShrinks(w.fates, |w.bun.versions| + 5 + n, |w.bun.versions| + 4 + n);
      RecordSucceeds(w, p, hasConfig, now, n);
    }
  }

  /** What an undisturbed activation of `p` leaves of the records. */
  function ActivatedRecords(b: BundleFiles, p: PendingBundle, now: Clock): BundleFiles {
    b.(current := Some(p.target), previous := PreviousAfter(b, p), applied := Some(B.Next(p, now)), pending := None, failed := None)
  }

  /** The start of bundle `t` with the selected configuration. */
  function StartOf(w: World, t: BundleTarget): Start { Start(Managed(Some(t)), w.cfg.current) }

  /** With a configuration the new bundle was started last; without one nothing was. */
  predicate ActivateLeaves(w: World, flow: Flow<Bundle.Result>, p: PendingBundle, hasConfig: bool, now: Clock, n: nat) {
    Leaves(w, flow, Bundle.Installed(B.Next(p, now)), ActivatedRecords(w.bun, p, now),
           if hasConfig then Running(StartOf(w, p.target)) else w.process,
           if hasConfig then w.starts + [StartOf(w, p.target)] else w.starts, n)
  }

  lemma LaunchSucceeds(w: World, p: PendingBundle, hasConfig: bool, now: Clock, n: nat)
    requires Bundle.ValidApplied(B.Next(p, now)) && Clear(w.fates, |w.bun.versions| + 7 + n)
    ensures ActivateLeaves(w, Bundle.Launch(w, p, hasConfig, now), p, hasConfig, now, n)
  {
    hide Clear, PutBundle, Restart, Bundle.Commit, Bundle.ValidApplied;
    var k := |w.bun.versions| + n;
    var b := w.bun.(current := Some(p.target));
    BundleStep(w, b, k + 6);
    var w1 := PutBundle(w, b).w;
    OtherStep(w1, k + 5);
    ClearShrinks(w1.fates, k + 6, k + 5);
    CommitSucceeds(if hasConfig then Restart(w1).w else w1, p, hasConfig, now, n);
  }

  lemma ActivateSucceeds(w: World, p: PendingBundle, hasConfig: bool, now: Clock, n: nat)
    requires Bundle.ValidApplied(B.Next(p, now)) && Clear(w.fates, |w.bun.versions| + 9 + n)
    ensures ActivateLeaves(w, Bundle.Activate(w, p, hasConfig, now), p, hasConfig, now, n)
  {
    hide Clear, PutBundle, Stop, Bundle.Launch, Bundle.ValidApplied;
    var k := |w.bun.versions| + n;
    var b := w.bun.(pending := Some(p));
    BundleStep(w, b, k + 8);
    var w1 := PutBundle(w, b).w;
    OtherStep(w1, k + 7);
    ClearShrinks(w1.fates, k + 8, k + 7);
    LaunchSucceeds(if hasConfig then Stop(w1).w else w1, p, hasConfig, now, n);
  }

  // ---------------------------------------------------------------- preparing

  function Target(rel: Bundle.Release): BundleTarget { BundleTarget(rel.version, rel.digest) }

  /** No directory of another content stands under the release's name. */
  predicate NameIsFree(b: BundleFiles, rel: Bundle.Release) {
    Target(rel) in b.versions ==> Bundle.Verified(b, Target(rel)) && b.versions[Target(rel)].xrayVersion == rel.xrayVersion
  }

  lemma UnpackSucceeds(w: World, rel: Bundle.Release, now: Clock, n: nat)
    requires NameIsFree(w.bun, rel) && Clear(w.fates, n + 2)
    ensures var i := Bundle.InstallBundle(w, rel, now);
            && i.Unpacked? && i.target == Target(rel)
            && i.w == w.(bun := w.bun.(versions := i.w.bun.versions), fates := i.w.fates)
            && |i.w.bun.versions| <= |w.bun.versions| + 1 && Clear(i.w.fates, n)
  {
    hide Clear, Check, PutBundle, Bundle.Verified;
    var versions := w.bun.versions[Target(rel) := BundleDirectory(rel.version, rel.xrayVersion, rel.digest, true, now.mtime)];
    OtherStep(w, n + 1);
    BundleStep(Check(w).w, w.bun.(versions := versions), n);
    ClearShrinks(w.fates, n + 2, n);
    assert versions.Keys == w.bun.versions.Keys + {Target(rel)};
  }

  lemma BeginSucceeds(w: World, rel: Bundle.Release, pt: Option<BundleTarget>, pa: Option<AppliedBundle>, now: Clock, n: nat)
    requires B.ValidRelease(rel) && !Config.LoadCurrent(w.cfg).Invalid? && Clear(w.fates, |w.bun.versions| + 11 + n)
    ensures var p := PendingBundle(rel.commandId, pt, pa, Target(rel), rel.version, rel.xrayVersion, rel.digest, now.startedAt);
            ActivateLeaves(w, Bundle.Begin(w, rel, Target(rel), pt, pa, now), p, Config.InUse(w.cfg), now, n)
  {
    hide Clear, Check, Bundle.Activate, Config.LoadCurrent, Bundle.ValidVersion;
    var k := |w.bun.versions| + n;
    var p := PendingBundle(rel.commandId, pt, pa, Target(rel), rel.version, rel.xrayVersion, rel.digest, now.startedAt);
    OtherStep(w, k + 10);
    OtherStep(Check(w).w, k + 9);
    ClearShrinks(w.fates, k + 11, k + 9);
    var w2 := if Config.InUse(w.cfg) then Check(Check(w).w).w else w;
    ActivateSucceeds(w2, p, Config.InUse(w.cfg), now, n);
  }

  /** On any disk: a candidate that does not accept the configuration in use changes nothing and starts nothing. */
  lemma RejectedCandidateChangesNothing(w: World, rel: Bundle.Release, now: Clock)
    requires Config.InUse(w.cfg) && !B.Repeats(w.bun, rel) && Next(w) != Done
    ensures var flow := Bundle.InstallUnpacked(w, rel, Target(rel), now);
            && flow.Return? && flow.w == w.(fates := flow.w.fates)
            && (flow.r.Refused? || flow.r.Crashed?)
  {
    hide Bundle.Activate, Config.LoadCurrent, Bundle.VerifyApplied;
  }

  // ---------------------------------------------------------------- a release on a sound node

  /** A directory under the release's name belongs to this release, or is about to be deleted. */
  ghost predicate NameAvailable(b: BundleFiles, rel: Bundle.Release) {
    Target(rel) in b.versions && b.versions[Target(rel)].xrayVersion != rel.xrayVersion ==> S.BundleIsDoomed(b, Target(rel))
  }

  lemma PrunedNameIsFree(w: World, rel: Bundle.Release)
    requires Invariant(w) && Bundle.Prune(w).Ok?
    ensures NameIsFree(Bundle.Prune(w).w.bun, rel) <==> NameAvailable(w.bun, rel)
  {
    S.PruneBundlesExactly(w, Target(rel));
    WholeBundles(w, Target(rel));
    B.PruneKeeps(w);
    WholeBundles(Bundle.Prune(w).w, Target(rel));
    hide Invariant, Bundle.Prune, Bundle.Verified, S.BundleIsDoomed;
  }

  lemma WholeBundles(w: World, t: BundleTarget)
    requires Invariant(w)
    ensures t in w.bun.versions ==> Bundle.Verified(w.bun, t)
  {
  }

  lemma RecordsLoad(w: World)
    requires Invariant(w) && w.bun.pending.None?
    ensures Bundle.LoadPending(w.bun).Missing?
    ensures Bundle.LoadApplied(w.bun) == if w.bun.applied.None? then Missing else Found(w.bun.applied.value)
    ensures w.bun.current == if w.bun.applied.None? then None else Some(w.bun.applied.value.target)
    ensures w.bun.applied.Some? ==> Bundle.VerifyApplied(w.bun, w.bun.applied.value)
  {
  }

  /** Pruned, unpacked and asked for its version: still the same records, `k` steps left. */
  lemma CandidateArrives(w: World, rel: Bundle.Release, now: Clock, k: nat) returns (w3: World)
    requires Invariant(w) && w.bun.pending.None? && B.ValidRelease(rel) && NameAvailable(w.bun, rel)
    requires Clear(w.fates, |w.bun.versions| + 4 + k)
    ensures Invariant(w3) && w3 == w.(bun := w.bun.(versions := w3.bun.versions), fates := w3.fates)
    ensures |w3.bun.versions| <= |w.bun.versions| + 1 && Clear(w3.fates, k)
    ensures Bundle.Install(w, rel, now) == Bundle.InstallUnpacked(w3, rel, Target(rel), now)
  {
    hide Invariant, Clear, Check, Bundle.Prune, Bundle.InstallBundle, Bundle.InstallUnpacked, Bundle.ValidVersion, NameAvailable, NameIsFree,
      Bundle.LoadApplied, Bundle.LoadPending;
    RecordsLoad(w);
    PruneArrives(w, k + 3);
    B.PruneKeeps(w);
    PrunedNameIsFree(w, rel);
    var w1 := Bundle.Prune(w).w;
    UnpackSucceeds(w1, rel, now, k + 1);
    B.InstallBundleKeeps(w1, rel, now);
    var w2 := Bundle.InstallBundle(w1, rel, now).w;
    OtherStep(w2, k);
    B.StoreCheck(w2);
    w3 := Check(w2).w;
  }

  /**
   * Another release on a settled node, with or without a bundle applied: with no failing step it is
   * selected and recorded, the old bundle becomes the way back, and nothing is pending or failed.
   * With a configuration in use the new bundle was started last, without one nothing started.
   */
  lemma NewIsInstalled(w: World, rel: Bundle.Release, now: Clock, n: nat)
    requires Invariant(w) && w.bun.pending.None? && B.ValidRelease(rel) && !B.Repeats(w.bun, rel)
    requires NameAvailable(w.bun, rel) && !Config.LoadCurrent(w.cfg).Invalid?
    requires Clear(w.fates, 2 * |w.bun.versions| + 16 + n)
    ensures var flow := Bundle.Install(w, rel, now);
            var target := BundleTarget(rel.version, rel.digest);
            var next := AppliedBundle(rel.version, rel.xrayVersion, rel.digest, target, now.appliedAt);
            var start := Start(Managed(Some(target)), w.cfg.current);
            && flow.Return? && flow.r == Bundle.Installed(next)
            && flow.w.bun.current == Some(target) && flow.w.bun.applied == Some(next)
            && flow.w.bun.previous == (if w.bun.applied.Some? then Some(w.bun.applied.value.target) else w.bun.previous)
            && flow.w.bun.pending.None? && flow.w.bun.failed.None?
            && (if Config.InUse(w.cfg) then flow.w.process == Running(start) && flow.w.starts == w.starts + [start]
                else flow.w.process == w.process && flow.w.starts == w.starts)
            && flow.w.cfg == w.cfg && Clear(flow.w.fates, n)
  {
    hide Invariant, Clear, Config.LoadCurrent, Bundle.Install, Bundle.Begin, Bundle.ConfirmAgain, Bundle.VerifyApplied,
      Bundle.ValidVersion, NameAvailable, Bundle.LoadApplied, Bundle.LoadPending;
    var k := |w.bun.versions|;
    var w3 := CandidateArrives(w, rel, now, k + 12 + n);
    RecordsLoad(w3);
    ClearShrinks(w3.fates, k + 12 + n, |w3.bun.versions| + 11 + n);
    BeginSucceeds(w3, rel, w3.bun.current, w3.bun.applied, now, n);
  }

  lemma ConfirmSucceeds(w: World, a: AppliedBundle, n: nat)
    requires Invariant(w) && w.bun.pending.None? && Clear(w.fates, |w.bun.versions| + 2 + n)
    ensures var flow := Bundle.ConfirmAgain(w, a);
            && flow.Return? && flow.r == Bundle.Installed(a)
            && flow.w == w.(bun := w.bun.(versions := flow.w.bun.versions, failed := None), fates := flow.w.fates)
  {
    hide Invariant, Clear, PutBundle, Bundle.Prune, Bundle.VerifyApplied;
    RecordsLoad(w);
    var b := w.bun.(failed := None);
    BundleStep(w, b, |w.bun.versions| + 1 + n);
    PruneArrives(PutBundle(w, b).w, n);
  }

  lemma RepeatIsAvailable(w: World, rel: Bundle.Release)
    requires Invariant(w) && B.Repeats(w.bun, rel)
    ensures NameAvailable(w.bun, rel)
  {
  }

  /** The applied release again: nothing but the failure record and the store changes, and nothing restarts. */
  lemma RepeatIsInstalled(w: World, rel: Bundle.Release, now: Clock, n: nat)
    requires Invariant(w) && w.bun.pending.None? && B.ValidRelease(rel) && B.Repeats(w.bun, rel)
    requires Clear(w.fates, 2 * |w.bun.versions| + 16 + n)
    ensures var flow := Bundle.Install(w, rel, now);
            && flow.Return? && flow.r == Bundle.Installed(w.bun.applied.value)
            && B.SameRecords(w.bun.(failed := None), flow.w.bun)
            && flow.w.process == w.process && flow.w.starts == w.starts && flow.w.cfg == w.cfg
  {
    hide Invariant, Clear, Bundle.Install, Bundle.Begin, Bundle.ConfirmAgain, Bundle.VerifyApplied,
      Bundle.ValidVersion, NameAvailable, Bundle.LoadApplied, Bundle.LoadPending;
    RepeatIsAvailable(w, rel);
    var k := |w.bun.versions|;
    var w3 := CandidateArrives(w, rel, now, k + 12 + n);
    RecordsLoad(w3);
    ClearShrinks(w3.fates, k + 12 + n, |w3.bun.versions| + 2 + n);
    ConfirmSucceeds(w3, w3.bun.applied.value, n);
  }

  /** Every release the node is meant to take. */
  ghost predicate Acceptable(w: World, rel: Bundle.Release) {
    && B.ValidRelease(rel) && NameAvailable(w.bun, rel)
    && (B.Repeats(w.bun, rel) || !Config.LoadCurrent(w.cfg).Invalid?)
  }

  /** Any other release changes at most the store, whatever happens to its steps. */
  lemma UnacceptableIsIgnored(w: World, rel: Bundle.Release, now: Clock)
    requires Invariant(w) && w.bun.pending.None? && !Acceptable(w, rel)
    ensures var flow := Bundle.Install(w, rel, now);
            flow.Return? && !flow.r.Installed? && B.StoreMoved(w, flow.w)
  {
    hide Invariant, Check, Config.LoadCurrent, Bundle.Prune, Bundle.InstallBundle, Bundle.InstallUnpacked, Bundle.ValidVersion,
      B.StoreMoved, NameAvailable, Bundle.LoadApplied;
    B.StoreMovedReflexive(w);
    RecordsLoad(w);
    B.PruneKeeps(w);
    var w1 := Bundle.Prune(w).w;
    if B.ValidRelease(rel) && Bundle.Prune(w).Ok? {
      B.InstallBundleKeeps(w1, rel, now);
      var i := Bundle.InstallBundle(w1, rel, now);
      B.StoreMovedTransitive(w, w1, i.w);
      if i.Unpacked? {
        PrunedNameIsFree(w, rel);
        UnpackedIsFree(w1, rel, now);
        B.StoreCheck(i.w);
        var w3 := Check(i.w).w;
        B.StoreMovedTransitive(w, i.w, w3);
        if Check(i.w).Ok? { UnreadableIsIgnored(w, w3, rel, now); }
      }
    }
  }

  lemma UnpackedIsFree(w: World, rel: Bundle.Release, now: Clock)
    requires Bundle.InstallBundle(w, rel, now).Unpacked?
    ensures NameIsFree(w.bun, rel)
  {
  }

  lemma UnreadableIsIgnored(w: World, w3: World, rel: Bundle.Release, now: Clock)
    requires Invariant(w3) && B.StoreMoved(w, w3) && w.bun.pending.None?
    requires Config.LoadCurrent(w.cfg).Invalid? && !B.Repeats(w.bun, rel)
    ensures var flow := Bundle.InstallUnpacked(w3, rel, Target(rel), now);
            flow.Return? && !flow.r.Installed? && flow.w == w3
  {
    hide Invariant, Bundle.VerifyApplied, Config.LoadCurrent, Bundle.LoadApplied;
    RecordsLoad(w3);
  }

  /** On a settled node and with no failing step, a release takes effect exactly when it is acceptable. */
  lemma TakesEffectExactly(w: World, rel: Bundle.Release, now: Clock)
    requires Invariant(w) && w.bun.pending.None? && Clear(w.fates, 2 * |w.bun.versions| + 16)
    ensures Bundle.Install(w, rel, now).Return? && (Bundle.Install(w, rel, now).r.Installed? <==> Acceptable(w, rel))
  {
    hide Invariant, Clear, Bundle.Install, NameAvailable, B.ValidRelease, B.Repeats, Config.LoadCurrent;
    if !Acceptable(w, rel) {
      UnacceptableIsIgnored(w, rel, now);
    } else if B.Repeats(w.bun, rel) {
      RepeatIsInstalled(w, rel, now, 0);
    } else {
      NewIsInstalled(w, rel, now, 0);
    }
  }
}
