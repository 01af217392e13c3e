/**
 * Where a promise depends on how writes fail. Writing the bundle's applied record renames the
 * file and then syncs its directory; when the sync fails the record is there although an error
 * is reported, the rollback stops the candidate, and a crash at that point leaves a record that
 * the next start confirms although nothing runs.
 */
module NodeLimits {
  import opened Common
  import opened ConfigNames
  import opened NodeState
  import opened NodeInvariant
  import N = NodeRuns
  import L = NodeLives
  import P = NodeProgress
  import opened Retention
  import Config = ConfigActivation
  import Bundle = BundleActivation
  import B = BundleProofs
  import C = ConfigProofs

  /** The script `f` after `n` steps that succeed. */
  function Dones(n: nat, f: seq<Fate>): seq<Fate> { if n == 0 then f else [Done] + Dones(n - 1, f) }

  lemma Succeeds(w: World, n: nat, f: seq<Fate>)
    requires w.fates == Dones(n + 1, f)
    ensures Next(w) == Done && Rest(w) == Dones(n, f)
  {
  }

  lemma {:induction false} DonesAdd(m: nat, n: nat, f: seq<Fate>)
    ensures Dones(m, Dones(n, f)) == Dones(m + n, f)
  {
    if m > 0 { DonesAdd(m - 1, n, f); }
  }

  lemma NothingDoomed<T(!new)>(s: set<Entry<T>>, protected: set<T>, keep: nat)
    requires Listing(s) && forall e :: e in s ==> e.key in protected
    ensures Doomed(s, protected, keep) == []
  {
    if Doomed(s, protected, keep) != [] {
      var e := Doomed(s, protected, keep)[0];
      assert e in Doomed(s, protected, keep);
      DoomedExactly(s, protected, keep, e);
    }
  }

  lemma ConfigPruneIdle(w: World)
    requires forall t :: t in w.cfg.versions ==> t in Config.Protected(w.cfg)
    requires !Config.LoadApplied(w.cfg).Invalid? && !Config.LoadPending(w.cfg).Invalid?
    ensures Config.Prune(w) == Ok(w)
  {
    NothingDoomed(Config.Entries(w.cfg.versions), Config.Protected(w.cfg), Config.RETAINED_CONFIGS);
  }

  lemma BundlePruneIdle(w: World)
    requires forall t :: t in w.bun.versions ==> t in Bundle.Protected(w.bun)
    requires !Bundle.LoadApplied(w.bun).Invalid? && !Bundle.LoadPending(w.bun).Invalid?
    ensures Bundle.Prune(w) == Ok(w)
  {
    NothingDoomed(Bundle.Entries(w.bun), Bundle.Protected(w.bun), Bundle.RETAINED_BUNDLES);
  }

  // ---------------------------------------------------------------- one life of a lossy node

  function Target(req: Config.Request): ConfigTarget { ConfigTarget(req.version, req.digest, None) }

  /** A fresh node whose first configuration was applied without a hitch. */
  function Configured(lossy: bool, req: Config.Request, now: Clock, f: seq<Fate>): World {
    var t, start := Target(req), Start(Bootstrap, Some(Target(req)));
    var applied := AppliedConfig(req.version, req.digest, t, now.appliedAt);
    N.EmptyNode(lossy).(
      cfg := ConfigFiles(Some(t), None, Some(applied), None, None, map[t := VersionFile(req.config, true, now.mtime)],
                         Some(req.config), Some(Validation(req.version, req.digest, true, now.validatedAt))),
      process := Running(start), starts := [start], fates := f)
  }

  lemma FirstVerdict(w: World, req: Config.Request, now: Clock, f: seq<Fate>)
    requires w.cfg.validation.None? || w.cfg.validation.value.version < req.version
    requires Config.ValidRequest(req) && w.fates == Dones(3, f)
    ensures var v := Validation(req.version, req.digest, true, now.validatedAt);
            Config.Validate(w, req, now) ==
            Config.Verdict(w.(cfg := w.cfg.(candidate := Some(req.config), validation := Some(v)), fates := f), v)
  {
    Succeeds(w, 2, f);
    Succeeds(w.(fates := Dones(2, f)), 1, f);
    Succeeds(w.(fates := Dones(1, f)), 0, f);
  }

  /** An undisturbed first activation of an installed version. */
  lemma FirstActivation(w: World, p: PendingConfig, now: Clock, f: seq<Fate>)
    requires p.previousTarget.None? && w.fates == Dones(7, f) && w.cfg.applied.None? && w.cfg.previous.None? && p.version > 0
    requires w.cfg.versions.Keys == {p.command}
    ensures var next := AppliedConfig(p.version, p.digest, p.command, now.appliedAt);
            var start := Start(ActivePath(w.bun), Some(p.command));
            var c := w.cfg.(current := Some(p.command), applied := Some(next), pending := None, failed := None);
            Config.Activate(w, p, now) ==
            Return(w.(cfg := c, process := Running(start), starts := w.starts + [start], fates := f), Config.Applied(next))
  {
    hide Config.Prune;
    var next := AppliedConfig(p.version, p.digest, p.command, now.appliedAt);
    var start := Start(ActivePath(w.bun), Some(p.command));
    var w1 := w.(cfg := w.cfg.(pending := Some(p)), fates := Dones(6, f));
    Succeeds(w, 6, f);
    var w2 := w1.(cfg := w1.cfg.(current := Some(p.command)), fates := Dones(5, f));
    Succeeds(w1, 5, f);
    var w3 := w2.(fates := Dones(4, f));
    Succeeds(w2, 4, f);
    var w4 := w3.(process := Running(start), starts := w.starts + [start], fates := Dones(3, f));
    Succeeds(w3, 3, f);
    var w5 := w4.(cfg := w4.cfg.(applied := Some(next)), fates := Dones(2, f));
    Succeeds(w4, 2, f);
    var w6 := w5.(cfg := w5.cfg.(pending := None), fates := Dones(1, f));
    Succeeds(w5, 1, f);
    var w7 := w6.(cfg := w6.cfg.(failed := None), fates := f);
    Succeeds(w6, 0, f);
    ConfigPruneIdle(w7);
    assert Config.Finish(w5, next) == Return(w7, Config.Applied(next));
    assert Config.Commit(w4, p, now) == Return(w7, Config.Applied(next));
    assert Config.Activate(w, p, now) == Config.Switch(w1, p, now) == Config.Launch(w2, p, now);
  }

  lemma FirstConfig(lossy: bool, req: Config.Request, now: Clock, f: seq<Fate>)
    requires Config.ValidRequest(req)
    ensures N.Exec(N.EmptyNode(lossy), N.ApplyConfig(req, now, Dones(12, f))) == Configured(lossy, req, now, f)
  {
    hide Config.Activate, Config.Validate, Config.Prune;
    var v, t := Validation(req.version, req.digest, true, now.validatedAt), Target(req);
    var w := N.EmptyNode(lossy).(fates := Dones(12, f));
    DonesAdd(3, 9, f);
    FirstVerdict(w, req, now, Dones(9, f));
    var w1 := w.(cfg := w.cfg.(candidate := Some(req.config), validation := Some(v)), fates := Dones(9, f));
    var w2 := w1.(fates := Dones(8, f));
    Succeeds(w1, 8, f);
    ConfigPruneIdle(w2);
    var w3 := w2.(cfg := w2.cfg.(versions := map[t := VersionFile(req.config, true, now.mtime)]), fates := Dones(7, f));
    Succeeds(w2, 7, f);
    var p := PendingConfig(t, None, None, req.version, req.digest, now.startedAt);
    FirstActivation(w3, p, now, f);
    assert Config.InstallVersion(w2, req, false, now) == Config.Installed(w3, t);
    assert Config.Begin(w1, req, None, None, false, now) == Config.Activate(w3, p, now);
  }

  /** The applied record lands although its write fails; the rollback stops the candidate and dies. */
  lemma AbandonedLaunch(w: World, p: PendingBundle, now: Clock)
    requires w.lossy && p.previousTarget.None? && w.fates == Dones(4, [DoneButError, Done])
    requires w.bun.applied.None? && w.bun.current.None? && ValidBundlePending(p)
    requires Bundle.Verified(w.bun, p.target) && w.bun.versions[p.target].xrayVersion == p.xrayVersion && w.bun.versions[p.target].digest == p.digest
    requires p.target == BundleTarget(p.version, p.digest)
    ensures var next := AppliedBundle(p.version, p.xrayVersion, p.digest, p.target, now.appliedAt);
            var start := Start(Managed(Some(p.target)), w.cfg.current);
            var b := w.bun.(current := Some(p.target), applied := Some(next), pending := Some(p));
            Bundle.Activate(w, p, true, now).w == w.(bun := b, process := Stopped, starts := w.starts + [start], fates := [])
  {
    var f := [DoneButError, Done];
    var next := AppliedBundle(p.version, p.xrayVersion, p.digest, p.target, now.appliedAt);
    var start := Start(Managed(Some(p.target)), w.cfg.current);
    var w1 := w.(bun := w.bun.(pending := Some(p)), fates := Dones(3, f));
    Succeeds(w, 3, f);
    var w2 := w1.(process := Stopped, fates := Dones(2, f));
    Succeeds(w1, 2, f);
    var w3 := w2.(bun := w2.bun.(current := Some(p.target)), fates := Dones(1, f));
    Succeeds(w2, 1, f);
    var w4 := w3.(process := Running(start), starts := w.starts + [start], fates := f);
    Succeeds(w3, 0, f);
    var w5 := w4.(bun := w4.bun.(applied := Some(next)), fates := [Done]);
    assert Rest(w4) == [Done];
    var w6 := w5.(process := Stopped, fates := []);
    assert Rest(w5) == [];
    assert Bundle.PutApplied(w4, next) == Err(w5);
    assert Bundle.Rollback(w5, p, true, PersistenceFailed) == Dead(w6);
    assert Bundle.Commit(w4, p, true, now) == Bundle.RollbackResult(w5, p, true, PersistenceFailed);
    assert Bundle.Activate(w, p, true, now) == Bundle.Launch(w2, p, true, now) == Bundle.Commit(w4, p, true, now);
  }

  predicate ValidBundlePending(p: PendingBundle) { Bundle.ValidPending(p) && p.previousApplied.None? }

  function Attempt(rel: Bundle.Release, now: Clock): PendingBundle {
    PendingBundle(rel.commandId, None, None, BundleTarget(rel.version, rel.digest), rel.version, rel.xrayVersion, rel.digest, now.startedAt)
  }

  /** The node that install leaves behind. */
  function Abandoned(w: World, rel: Bundle.Release, now: Clock): World {
    var t := BundleTarget(rel.version, rel.digest);
    var next := AppliedBundle(rel.version, rel.xrayVersion, rel.digest, t, now.appliedAt);
    var d := BundleDirectory(rel.version, rel.xrayVersion, rel.digest, true, now.mtime);
    w.(bun := BundleFiles(Some(t), None, Some(next), Some(Attempt(rel, now)), None, map[t := d]),
       process := Stopped, starts := w.starts + [Start(Managed(Some(t)), w.cfg.current)], fates := [])
  }

  /** An undisturbed install up to the activation of its unpacked candidate. */
  function Candidate(w: World, rel: Bundle.Release, now: Clock, f: seq<Fate>): World {
    var d := BundleDirectory(rel.version, rel.xrayVersion, rel.digest, true, now.mtime);
    w.(bun := w.bun.(versions := map[BundleTarget(rel.version, rel.digest) := d]), fates := f)
  }

  /** From the unpacked candidate: its version, its configuration and the controller are checked. */
  lemma UnpackedActivates(w: World, rel: Bundle.Release, now: Clock, n: nat, f: seq<Fate>)
    requires Config.InUse(w.cfg) && w.bun.applied.None? && w.bun.current.None? && w.fates == Dones(n + 2, f)
    ensures Bundle.InstallUnpacked(w, rel, BundleTarget(rel.version, rel.digest), now) ==
            Bundle.Activate(w.(fates := Dones(n, f)), Attempt(rel, now), true, now)
  {
    hide Bundle.Activate, Config.LoadCurrent;
    Succeeds(w, n + 1, f);
    Succeeds(w.(fates := Dones(n + 1, f)), n, f);
  }

  lemma InstallActivates(w: World, rel: Bundle.Release, now: Clock, n: nat, f: seq<Fate>)
    requires B.ValidRelease(rel) && w.bun == N.EmptyNode(true).bun && Config.InUse(w.cfg)
    ensures N.Exec(w, N.InstallBundle(rel, now, Dones(n + 5, f))) ==
            Bundle.Activate(Candidate(w, rel, now, Dones(n, f)), Attempt(rel, now), true, now).w
  {
    hide Bundle.Activate, Bundle.InstallUnpacked, Bundle.Prune, Config.InUse;
    var t := BundleTarget(rel.version, rel.digest);
    var w0 := w.(fates := Dones(n + 5, f));
    BundlePruneIdle(w0);
    Succeeds(w0, n + 4, f);
    var w1 := w0.(fates := Dones(n + 4, f));
    Succeeds(w1, n + 3, f);
    var w2 := Candidate(w, rel, now, Dones(n + 3, f));
    Succeeds(w2, n + 2, f);
    assert Bundle.InstallBundle(w0, rel, now) == Bundle.Unpacked(w2, t);
    UnpackedActivates(w2.(fates := Dones(n + 2, f)), rel, now, n, f);
  }

  lemma AbandonedInstall(w: World, rel: Bundle.Release, now: Clock)
    requires w.lossy && B.ValidRelease(rel) && w.bun == N.EmptyNode(true).bun && Config.InUse(w.cfg)
    ensures N.Exec(w, N.InstallBundle(rel, now, Dones(9, [DoneButError, Done]))) == Abandoned(w, rel, now)
  {
    hide Bundle.Activate, N.Exec, Config.LoadCurrent;
    var f := [DoneButError, Done];
    InstallActivates(w, rel, now, 4, f);
    AbandonedLaunch(Candidate(w, rel, now, Dones(4, f)), Attempt(rel, now), now);
  }

  /** The next start takes the record at its word. */
  lemma BootConfirms(w: World, rel: Bundle.Release, now: Clock)
    requires B.ValidRelease(rel) && w.cfg.pending.None?
    ensures var v := Abandoned(w, rel, now);
            var b := v.bun.(pending := None);
            N.Exec(v, N.Boot(Dones(3, []))) == v.(bun := b, fates := [])
  {
    var v := Abandoned(w, rel, now).(fates := Dones(3, []));
    Succeeds(v, 2, []);
    var v1 := v.(fates := Dones(2, []));
    Succeeds(v1, 1, []);
    var v2 := v1.(bun := v1.bun.(pending := None), fates := Dones(1, []));
    Succeeds(v2, 0, []);
    assert Bundle.Confirm(v1) == Ok(v2.(fates := []));
    assert Bundle.RecoverPending(v1) == Return(v2.(fates := []), Bundle.Recovered);
    assert Bundle.Recover(v) == Return(v2.(fates := []), Bundle.Recovered);
    assert Config.Recover(v2.(fates := [])) == Return(v2.(fates := []), Config.Recovered);
  }

  /** A configuration is applied and nothing is pending, yet nothing runs. */
  lemma LossyNodeStopsServing(req: Config.Request, rel: Bundle.Release, now: Clock)
    requires Config.ValidRequest(req) && B.ValidRelease(rel)
    ensures exists ops :: var w := N.Run(N.EmptyNode(true), ops);
                          N.Quiescent(w) && w.cfg.applied.Some? && w.process == Stopped
  {
    hide N.Exec;
    var f := [DoneButError, Done];
    var op1, op2, op3 := N.ApplyConfig(req, now, Dones(12, [])), N.InstallBundle(rel, now, Dones(9, f)), N.Boot(Dones(3, []));
    var w := Configured(true, req, now, []);
    FirstConfig(true, req, now, []);
    AbandonedInstall(w, rel, now);
    BootConfirms(w, rel, now);
    var v := Abandoned(w, rel, now);
    RunThree(N.EmptyNode(true), op1, op2, op3);
    assert N.Run(N.EmptyNode(true), [op1, op2, op3]) == v.(bun := v.bun.(pending := None), fates := []);
  }

  lemma RunThree(w: World, a: N.Op, b: N.Op, c: N.Op)
    ensures N.Run(w, [a, b, c]) == N.Exec(N.Exec(N.Exec(w, a), b), c)
  {
    hide N.Exec;
    assert [a, b, c][1..] == [b, c] && [b, c][1..] == [c] && [c][1..] == [];
    var w1 := N.Exec(w, a);
    var w2 := N.Exec(w1, b);
    assert N.Run(w2, [c]) == N.Run(N.Exec(w2, c), []) == N.Exec(w2, c);
    assert N.Run(w1, [b, c]) == N.Run(w2, [c]);
  }

  ghost predicate AlwaysServes(lossy: bool) {
    forall ops :: N.Quiescent(N.Run(N.EmptyNode(lossy), ops)) ==> N.ServesRecords(N.Run(N.EmptyNode(lossy), ops))
  }

  /**
   * In every life of a node, whenever nothing is pending the process is the one the records
   * select: exactly when a reported error of the bundle's applied write means it was not written.
   */
  lemma ServesUnlessLossy(lossy: bool)
    ensures AlwaysServes(lossy) <==> !lossy
  {
    hide N.Run;
    if lossy {
      var sum: Digest :| true;
      var req := Config.Request(1, sum, Content(sum), true);
      LossyNodeStopsServing(req, Bundle.Release("c", "v", "x", sum), Clock(1, 1, 1, 1, 1));
      var ops :| var w := N.Run(N.EmptyNode(true), ops); N.Quiescent(w) && w.cfg.applied.Some? && w.process == Stopped;
      assert !N.ServesRecords(N.Run(N.EmptyNode(lossy), ops));
    } else {
      forall ops | N.Quiescent(N.Run(N.EmptyNode(lossy), ops)) ensures N.ServesRecords(N.Run(N.EmptyNode(lossy), ops)) {
        N.EmptyNodeIsInvariant(lossy);
        N.QuiescentServes(N.EmptyNode(lossy), ops);
      }
    }
  }

  // ---------------------------------------------------------------- a node that no start settles

  /** An install whose stop fails; so do the stop of its rollback and the record of its failure. */
  function HalfInstalled(w: World, rel: Bundle.Release, now: Clock): World {
    var t := BundleTarget(rel.version, rel.digest);
    var d := BundleDirectory(rel.version, rel.xrayVersion, rel.digest, true, now.mtime);
    w.(bun := BundleFiles(None, None, None, Some(Attempt(rel, now)), None, map[t := d]), process := Anything, fates := [])
  }

  lemma HalfInstall(w: World, rel: Bundle.Release, now: Clock)
    requires B.ValidRelease(rel) && w.bun == N.EmptyNode(true).bun && Config.InUse(w.cfg)
    ensures N.Exec(w, N.InstallBundle(rel, now, Dones(6, [NotDone, NotDone, NotDone]))) == HalfInstalled(w, rel, now)
  {
    hide Bundle.Activate, N.Exec, Config.LoadCurrent;
    var f := [NotDone, NotDone, NotDone];
    InstallActivates(w, rel, now, 1, f);
    FailedActivation(Candidate(w, rel, now, Dones(1, f)), Attempt(rel, now), now);
  }

  lemma FailedActivation(w: World, p: PendingBundle, now: Clock)
    requires w.fates == Dones(1, [NotDone, NotDone, NotDone]) && w.bun.applied.None?
    ensures Bundle.Activate(w, p, true, now).w == w.(bun := w.bun.(pending := Some(p)), process := Anything, fates := [])
  {
    var f := [NotDone, NotDone, NotDone];
    Succeeds(w, 0, f);
    var w1 := w.(bun := w.bun.(pending := Some(p)), fates := f);
    assert Rest(w1) == [NotDone, NotDone];
    var w2 := w1.(process := Anything, fates := [NotDone, NotDone]);
    assert Rest(w2) == [NotDone];
    var w3 := w2.(fates := [NotDone]);
    assert Rest(w3) == [];
    assert Bundle.Rollback(w2, p, true, ActivationFailed) == Err(w3);
    assert Bundle.Activate(w, p, true, now) == Bundle.RollbackResult(w2, p, true, ActivationFailed);
  }

  /** The next configuration, cut off right after its link was switched. */
  lemma CutAfterSwitch(w: World, req: Config.Request, now: Clock)
    requires Config.ValidRequest(req) && w.cfg.pending.None? && Config.InUse(w.cfg) && req.version > w.cfg.applied.value.version
    requires w.cfg.validation.Some? && w.cfg.validation.value.version < req.version
    requires w.cfg.versions.Keys == {w.cfg.applied.value.target} && w.cfg.applied.value.target != Target(req)
    ensures var w' := N.Exec(w, N.ApplyConfig(req, now, Dones(7, [])));
            w'.bun == w.bun && w'.cfg.current == Some(Target(req)) && w'.cfg.applied == w.cfg.applied
  {
    hide Config.Validate, Config.Prune, Config.Launch;
    var v, t := Validation(req.version, req.digest, true, now.validatedAt), Target(req);
    var w0 := w.(fates := Dones(7, []));
    DonesAdd(3, 4, []);
    FirstVerdict(w0, req, now, Dones(4, []));
    var w1 := w0.(cfg := w0.cfg.(candidate := Some(req.config), validation := Some(v)), fates := Dones(4, []));
    Succeeds(w1, 3, []);
    var w2 := w1.(fates := Dones(3, []));
    ConfigPruneIdle(w2);
    Succeeds(w2, 2, []);
    var w3 := w2.(cfg := w2.cfg.(versions := w2.cfg.versions[t := VersionFile(req.config, true, now.mtime)]), fates := Dones(2, []));
    var a := w.cfg.applied.value;
    var p := PendingConfig(t, Some(a.target), Some(a), req.version, req.digest, now.startedAt);
    CutActivation(w3, p, now);
    hide Config.Activate;
    assert Config.InstallVersion(w2, req, false, now) == Config.Installed(w3, t);
    assert Config.Begin(w1, req, Some(a.target), Some(a), false, now) == Config.Activate(w3, p, now);
    assert Config.ApplyValidated(w1, req, now) == Config.Begin(w1, req, Some(a.target), Some(a), false, now);
  }

  lemma CutActivation(w: World, p: PendingConfig, now: Clock)
    requires w.fates == Dones(2, [])
    ensures Config.Activate(w, p, now).w == w.(cfg := w.cfg.(pending := Some(p), current := Some(p.command)), fates := [])
  {
    Succeeds(w, 1, []);
    var w1 := w.(cfg := w.cfg.(pending := Some(p)), fates := Dones(1, []));
    Succeeds(w1, 0, []);
    var w2 := w1.(cfg := w1.cfg.(current := Some(p.command)), fates := []);
    assert Rest(w2) == [];
    assert Config.Launch(w2, p, now) == Return(w2, Config.Crashed);
    hide Config.Launch;
    assert Config.Activate(w, p, now) == Config.Switch(w1, p, now) == Config.Launch(w2, p, now);
  }

  /**
   * Apply a configuration; install a bundle while the controller fails; apply the next
   * configuration and lose power after the switch. No start settles this node, on any disk.
   */
  lemma StuckLife(lossy: bool, first: Config.Request, rel: Bundle.Release, second: Config.Request, now: Clock)
    requires Config.ValidRequest(first) && Config.ValidRequest(second) && first.version < second.version && B.ValidRelease(rel)
    ensures exists ops, states :: L.Life(lossy, ops, states) && P.Stuck(states[|ops|])
  {
    hide N.Exec, L.Happens;
    var op1 := N.ApplyConfig(first, now, Dones(12, []));
    var op2 := N.InstallBundle(rel, now, Dones(6, [NotDone, NotDone, NotDone]));
    var op3 := N.ApplyConfig(second, now, Dones(7, []));
    FirstConfig(lossy, first, now, []);
    var w := Configured(lossy, first, now, []);
    HalfInstall(w, rel, now);
    CutAfterSwitch(HalfInstalled(w, rel, now), second, now);
    RunThree(N.EmptyNode(lossy), op1, op2, op3);
    var states := L.RunIsLife(lossy, [op1, op2, op3]);
    assert states[3] == N.Exec(HalfInstalled(w, rel, now), op3);
    assert P.Stuck(states[|[op1, op2, op3]|]);
  }

  // ---------------------------------------------------------------- the status of an undone attempt

  /** The attempt was undone, yet the node does not say that it was rolled back. */
  predicate MisreportsRollback(c: ConfigFiles, p: PendingConfig) {
    && c.pending.None? && c.current == p.previousTarget && c.applied == p.previousApplied
    && !(c.failed.Some? && c.failed.value.version == p.version && c.failed.value.digest == p.digest && c.failed.value.recovery == RolledBack)
  }

  /** After `k` successes a step happens and reports an error. */
  predicate Loses(fates: seq<Fate>, k: nat) {
    |fates| > k && P.Clear(fates, k) && fates[k] == DoneButError
  }

  lemma LosesHead(fates: seq<Fate>, k: nat)
    requires k > 0
    ensures Loses(fates, k) <==> fates != [] && fates[0] == Done && Loses(fates[1..], k - 1)
    ensures Loses(fates, k) ==> fates[k + 1..] == fates[1..][k..]
  {
    if fates != [] && fates[0] == Done && Loses(fates[1..], k - 1) {
      assert forall i :: 0 <= i < k ==> fates[i] == if i == 0 then Done else fates[1..][i - 1];
    }
  }

  /** A step other than the removal of the pending record. */
  predicate Plain(w: World, s: Step) {
    && (s.Ok? <==> w.fates != [] && w.fates[0] == Done)
    && (s.Ok? ==> s.w.fates == w.fates[1..]) && s.w.cfg.pending == w.cfg.pending
  }

  lemma PlainSteps(w: World, c: ConfigFiles)
    requires c.pending == w.cfg.pending
    ensures Plain(w, Put(w, c)) && Plain(w, Rename(w, c)) && Plain(w, Check(w)) && Plain(w, Restart(w)) && Plain(w, Stop(w))
  {
  }

  /** The rollback fails with its record gone exactly when step `k`, the removal, is lost. */
  predicate FailsLate(w: World, s: Step, p: PendingConfig, k: nat) {
    && (s.Err? && s.w.cfg.pending.None? <==> Loses(w.fates, k))
    && (Loses(w.fates, k) ==> s.w.fates == w.fates[k + 1..])
    && (!s.Ok? ==> s.w.cfg.pending.None? || s.w.cfg.pending == Some(p))
    && (s.Dead? ==> s.w.cfg.pending.Some?)
  }

  lemma RecordFailsLate(w: World, p: PendingConfig, code: ErrorCode)
    requires w.cfg.pending == Some(p)
    ensures FailsLate(w, Config.RecordRollback(w, p, code), p, 1)
  {
    LosesHead(w.fates, 1);
  }

  /** A plain step first: the removal is one step further away. */
  lemma OneLater(w: World, first: Step, s: Step, p: PendingConfig, k: nat)
    requires w.cfg.pending == Some(p) && Plain(w, first)
    requires if first.Ok? then FailsLate(first.w, s, p, k) else s == first
    ensures FailsLate(w, s, p, k + 1)
  {
    LosesHead(w.fates, k + 1);
  }

  /** Steps before the removal: the pair, the process and the failure record. */
  function StepsToRemoval(p: PendingConfig): nat { if p.previousTarget.None? then 4 else 5 }

  lemma StopFailsLate(w: World, p: PendingConfig, code: ErrorCode)
    requires w.cfg.pending == Some(p)
    ensures var s := Stop(w);
            FailsLate(w, if s.Ok? then Config.RecordRollback(s.w, p, code) else s, p, 2)
  {
    hide Stop, FailsLate, Config.RecordRollback;
    PlainSteps(w, w.cfg);
    var s := Stop(w);
    if s.Ok? { RecordFailsLate(s.w, p, code); }
    OneLater(w, s, if s.Ok? then Config.RecordRollback(s.w, p, code) else s, p, 1);
  }

  lemma InitialFailsLate(w: World, p: PendingConfig, code: ErrorCode)
    requires w.cfg.pending == Some(p) && p.previousTarget.None?
    ensures FailsLate(w, Config.Rollback(w, p, code), p, 4)
  {
    hide Put, Stop, FailsLate, Config.RecordRollback;
    var c := w.cfg.(current := None);
    PlainSteps(w, c);
    var s1 := Put(w, c);
    var w1 := s1.w;
    var d := w1.cfg.(applied := None);
    PlainSteps(w1, d);
    var s2 := Put(w1, d);
    StopFailsLate(s2.w, p, code);
    var s3 := Stop(s2.w);
    var t2 := if !s2.Ok? then s2 else if s3.Ok? then Config.RecordRollback(s3.w, p, code) else s3;
    if s1.Ok? { OneLater(w1, s2, t2, p, 2); }
    OneLater(w, s1, if s1.Ok? then t2 else s1, p, 3);
  }

  lemma PreviousFailsLate(w: World, p: PendingConfig, a: AppliedConfig, code: ErrorCode)
    requires w.cfg.pending == Some(p) && p.previousTarget.Some? && Config.RollbackApplied(w.cfg, p) == Some(a)
    ensures FailsLate(w, Config.Rollback(w, p, code), p, 5)
  {
    hide Put, Rename, Check, Restart, FailsLate, Config.RecordRollback, Config.RollbackApplied;
    var c := w.cfg.(current := p.previousTarget);
    PlainSteps(w, c);
    var s1 := Rename(w, c);
    var w1 := s1.w;
    var d := w1.cfg.(applied := Some(a));
    PlainSteps(w1, d);
    var s2 := Put(w1, d);
    var w2 := s2.w;
    PlainSteps(w2, w2.cfg);
    var s3 := Check(w2);
    var w3 := s3.w;
    PlainSteps(w3, w3.cfg);
    var s4 := Restart(w3);
    if s1.Ok? && s2.Ok? && s3.Ok? && s4.Ok? { RecordFailsLate(s4.w, p, code); }
    var t4 := if s4.Ok? then Config.RecordRollback(s4.w, p, code) else s4;
    var t3 := if s3.Ok? then t4 else s3;
    var t2 := if s2.Ok? then t3 else s2;
    if s1.Ok? && s2.Ok? && s3.Ok? { OneLater(w3, s4, t4, p, 1); }
    if s1.Ok? && s2.Ok? { OneLater(w2, s3, t3, p, 2); }
    if s1.Ok? { OneLater(w1, s2, t2, p, 3); }
    OneLater(w, s1, if s1.Ok? then t2 else s1, p, 4);
  }

  lemma RollbackFailsLate(w: World, p: PendingConfig, code: ErrorCode)
    requires Invariant(w) && w.cfg.pending == Some(p)
    ensures FailsLate(w, Config.Rollback(w, p, code), p, StepsToRemoval(p))
  {
    if p.previousTarget.Some? {
      P.RollbackTargetIsThere(w, p);
      PreviousFailsLate(w, p, Config.RollbackApplied(w.cfg, p).value, code);
    } else {
      InitialFailsLate(w, p, code);
    }
  }

  /** The removal of the record is lost, and the failure record written after it lands. */
  predicate LosesRemoval(w: World, p: PendingConfig) {
    var k := StepsToRemoval(p);
    !P.ConfirmableConfig(w.cfg, p) && Loses(w.fates, k) && |w.fates| > k + 1 && (w.fates[k + 1] == Done || w.fates[k + 1] == DoneButError)
  }

  lemma ConfirmedIsNotUndone(w: World, c: ConfigFiles, p: PendingConfig, next: AppliedConfig)
    requires Invariant(w) && w.cfg.pending == Some(p) && Config.Matches(next, p) && C.Confirmed(c, p, next)
    ensures !C.Undone(c, p)
  {
  }

  /**
   * A recovery that undoes an attempt leaves a `failed` record that says so, except exactly when
   * the removal of `pending` happens and reports an error, and the record of that failure lands.
   */
  lemma MisreportsExactly(w: World, p: PendingConfig)
    requires Invariant(w) && w.cfg.pending == Some(p)
    ensures MisreportsRollback(Config.Recover(w).w.cfg, p) <==> LosesRemoval(w, p)
  {
    hide Invariant, Config.ConfirmApplied, Config.Rollback, Config.VerifyApplied, Config.LoadApplied, Config.LoadPending, Config.Matches, Loses;
    C.AnyPendingIsSafe(w, p);
    C.PendingVerify(w, p, C.NextOf(w, p), 0);
    var next := C.NextOf(w, p);
    if P.ConfirmableConfig(w.cfg, p) {
      C.ConfirmKeeps(w, p, next, 0);
      ConfirmedIsNotUndone(w, Config.ConfirmApplied(w, next).w.cfg, p, next);
    } else {
      assert Config.Recover(w).w == Config.RollbackResult(w, p, PreparationFailed).w;
      UndoMisreports(w, p, PreparationFailed, next);
    }
  }

  lemma UndoMisreports(w: World, p: PendingConfig, code: ErrorCode, next: AppliedConfig)
    requires C.Safe(w, p, next, 0) && w.cfg.pending == Some(p) && !P.ConfirmableConfig(w.cfg, p)
    ensures MisreportsRollback(Config.RollbackResult(w, p, code).w.cfg, p) <==> LosesRemoval(w, p)
  {
    hide Invariant, Config.Rollback, Loses, P.ConfirmableConfig;
    RollbackFailsLate(w, p, code);
    C.RollbackKeeps(w, p, code, next, 0);
    var s, k := Config.Rollback(w, p, code), StepsToRemoval(p);
    if Loses(w.fates, k) {
      AfterLoss(w.fates, k);
      assert s.Err? && s.w.fates == w.fates[k + 1..];
      assert s.w.cfg.failed.value.recovery == RolledBack;
    } else {
      assert s.Ok? || s.w.cfg.pending == Some(p);
    }
  }

  lemma AfterLoss(fates: seq<Fate>, k: nat)
    requires Loses(fates, k)
    ensures |fates| > k && |fates[k + 1..]| == |fates| - (k + 1)
    ensures |fates| > k + 1 ==> fates[k + 1..][0] == fates[k + 1]
  {
  }

  /** A first attempt, interrupted before anything was switched. */
  function Interrupted(req: Config.Request, now: Clock): World {
    var t := Target(req);
    var p := PendingConfig(t, None, None, req.version, req.digest, now.startedAt);
    var w := N.EmptyNode(false);
    w.(cfg := w.cfg.(pending := Some(p), versions := map[t := VersionFile(req.config, true, now.mtime)]),
       fates := Dones(4, [DoneButError, Done]))
  }

  lemma InterruptedIsSound(req: Config.Request, now: Clock)
    requires Config.ValidRequest(req)
    ensures Invariant(Interrupted(req, now)) && Config.LoadPending(Interrupted(req, now).cfg).Found?
  {
  }

  lemma LossyMisreports(req: Config.Request, now: Clock)
    requires Config.ValidRequest(req)
    ensures var w := Interrupted(req, now);
            Invariant(w) && MisreportsRollback(Config.Recover(w).w.cfg, w.cfg.pending.value)
  {
    InterruptedIsSound(req, now);
    hide Invariant, Config.Recover;
    var w := Interrupted(req, now);
    var f := [DoneButError, Done];
    FourDones(f);
    assert [Done, Done, Done, Done] + f == [Done, Done, Done, Done, DoneButError, Done];
    MisreportsExactly(w, w.cfg.pending.value);
  }

  lemma FourDones(f: seq<Fate>)
    ensures Dones(4, f) == [Done, Done, Done, Done] + f
  {
    assert Dones(1, f) == [Done] + Dones(0, f) == [Done] + f;
    assert Dones(2, f) == [Done] + ([Done] + f) == [Done, Done] + f;
    assert Dones(3, f) == [Done] + ([Done, Done] + f) == [Done, Done, Done] + f;
  }

  ghost predicate RollbacksAreReported(losses: bool) {
    forall w, p :: Invariant(w) && w.cfg.pending == Some(p) && (losses || DoneButError !in w.fates) ==>
                     !MisreportsRollback(Config.Recover(w).w.cfg, p)
  }

  /** Over all nodes: every undone attempt is reported as such exactly when no step can succeed and report an error. */
  lemma ReportedUnlessLosses(losses: bool)
    ensures RollbacksAreReported(losses) <==> !losses
  {
    hide Invariant, Config.Recover, MisreportsRollback;
    if losses {
      var sum: Digest :| true;
      var req, now := Config.Request(1, sum, Content(sum), true), Clock(1, 1, 1, 1, 1);
      LossyMisreports(req, now);
      var w := Interrupted(req, now);
      assert Invariant(w) && w.cfg.pending == Some(w.cfg.pending.value);
    } else {
      forall w, p | Invariant(w) && w.cfg.pending == Some(p) && DoneButError !in w.fates
        ensures !MisreportsRollback(Config.Recover(w).w.cfg, p)
      {
        MisreportsExactly(w, p);
      }
    }
  }
}
