/**
 * Nodes whose files were changed behind the agent's back: no invariant is assumed here. Whatever
 * it found, an apply that reports success leaves a configuration that verifies.
 */
module ConfigDrift {
  import opened Common
  import opened ConfigNames
  import opened NodeState
  import opened NodeProgress
  import opened ConfigSuccess
  import opened Retention
  import Config = ConfigActivation
  import C = ConfigProofs
  import S = NodeStores

  // ---------------------------------------------------------------- success verifies

  /** `a` is recorded and selected, its file has its digest, and nothing is left to do. */
  predicate Stands(c: ConfigFiles, a: AppliedConfig) {
    Config.VerifyApplied(c, a) && c.applied == Some(a) && c.pending.None? && c.failed.None?
  }

  /** If the operation reports an applied version, it is the requested one and it stands. */
  predicate Sound(flow: Flow<Config.Result>, version: Uint64, digest: Digest) {
    && flow.Return?
    && (flow.r.Applied? ==> Stands(flow.w.cfg, flow.r.state) && flow.r.state.version == version && flow.r.state.digest == digest)
  }

  lemma PruneKeepsApplied(w: World, a: AppliedConfig)
    requires Stands(w.cfg, a)
    ensures Stands(Config.Prune(w).w.cfg, a)
  {
    hide Config.Delete;
    S.PruneConfigsExactly(w, a.target);
    PruneMovesStore(w);
    hide Config.Prune;
    assert a.target in Config.Protected(w.cfg);
  }

  lemma PruneMovesStore(w: World)
    ensures var s := Config.Prune(w);
            s.w == w.(cfg := w.cfg.(versions := s.w.cfg.versions), fates := s.w.fates)
  {
    hide Config.Delete;
    var doomed := Doomed(Config.Entries(w.cfg.versions), Config.Protected(w.cfg), Config.RETAINED_CONFIGS);
    var k := S.DeleteConfigs(w, doomed, false);
  }

  lemma RollbackIsNoSuccess(w: World, p: PendingConfig, code: ErrorCode, version: Uint64, digest: Digest)
    ensures Config.RollbackResult(w, p, code).Return? && Sound(Config.RollbackResult(w, p, code), version, digest)
  {
    hide Config.Rollback;
  }

  lemma FinishVerifies(w: World, next: AppliedConfig)
    requires Config.VerifyApplied(w.cfg, next) && w.cfg.applied == Some(next)
    ensures Sound(Config.Finish(w, next), next.version, next.digest)
  {
    hide Put, Config.Prune, Config.VerifyAppliedTarget;
    var c1 := w.cfg.(pending := None);
    C.Writes(w, c1);
    var w1 := Put(w, c1).w;
    var c2 := w1.cfg.(failed := None);
    C.Writes(w1, c2);
    var w2 := Put(w1, c2).w;
    if Put(w, c1).Ok? && Put(w1, c2).Ok? {
      assert Config.VerifyAppliedTarget(w2.cfg, next) by { OnVersions(w.cfg, w2.cfg, next); }
      PruneKeepsApplied(w2, next);
    }
  }

  /** Verifying a record reads the version store only. */
  lemma OnVersions(c: ConfigFiles, d: ConfigFiles, a: AppliedConfig)
    requires c.versions == d.versions
    ensures Config.VerifyAppliedTarget(c, a) == Config.VerifyAppliedTarget(d, a)
  {
  }

  lemma RecordVerifies(w: World, p: PendingConfig, now: Clock)
    requires Config.VerifyApplied(w.cfg, C.Next(p, now))
    ensures Sound(Config.RecordNext(w, p, now), p.version, p.digest)
  {
    hide Put, Config.Finish, Config.RollbackResult, Config.VerifyAppliedTarget, Sound;
    var c := w.cfg.(applied := Some(C.Next(p, now)));
    C.Writes(w, c);
    RollbackIsNoSuccess(Put(w, c).w, p, PersistenceFailed, p.version, p.digest);
    if Put(w, c).Ok? {
      OnVersions(w.cfg, c, C.Next(p, now));
      FinishVerifies(Put(w, c).w, C.Next(p, now));
    } else if Put(w, c).Dead? {
      CrashIsNoSuccess(Put(w, c).w, p.version, p.digest);
    }
  }

  lemma CrashIsNoSuccess(w: World, version: Uint64, digest: Digest)
    ensures Sound(Return(w, Config.Crashed), version, digest)
  {
  }

  lemma CommitVerifies(w: World, p: PendingConfig, now: Clock)
    requires Config.VerifyApplied(w.cfg, C.Next(p, now))
    ensures Sound(Config.Commit(w, p, now), p.version, p.digest)
  {
    hide Rename, Config.RecordNext, Config.RollbackResult, Config.VerifyAppliedTarget, Sound;
    var c := w.cfg.(previous := p.previousTarget);
    C.Writes(w, c);
    var s := Rename(w, c);
    RollbackIsNoSuccess(s.w, p, PersistenceFailed, p.version, p.digest);
    CrashIsNoSuccess(s.w, p.version, p.digest);
    OnVersions(w.cfg, c, C.Next(p, now));
    if p.previousTarget.None? { RecordVerifies(w, p, now); } else if s.Ok? { RecordVerifies(s.w, p, now); }
  }

  lemma LaunchVerifies(w: World, p: PendingConfig, now: Clock)
    requires Config.VerifyApplied(w.cfg, C.Next(p, now))
    ensures Sound(Config.Launch(w, p, now), p.version, p.digest)
  {
    hide Config.Commit, Config.RollbackResult, Config.VerifyAppliedTarget, Sound;
    var s1 := Check(w);
    var s2 := Restart(s1.w);
    RollbackIsNoSuccess(s1.w, p, PersistenceFailed, p.version, p.digest);
    RollbackIsNoSuccess(s2.w, p, ActivationFailed, p.version, p.digest);
    CrashIsNoSuccess(s1.w, p.version, p.digest);
    CrashIsNoSuccess(s2.w, p.version, p.digest);
    if s1.Ok? && s2.Ok? { CommitVerifies(s2.w, p, now); }
  }

  lemma ActivateVerifies(w: World, p: PendingConfig, now: Clock)
    requires Config.VerifyAppliedTarget(w.cfg, C.Next(p, now))
    ensures Sound(Config.Activate(w, p, now), p.version, p.digest)
  {
    hide Put, Rename, Config.Launch, Config.VerifyAppliedTarget;
    var c1 := w.cfg.(pending := Some(p));
    C.Writes(w, c1);
    var w1 := Put(w, c1).w;
    var c2 := w1.cfg.(current := Some(p.command));
    C.Writes(w1, c2);
    var w2 := Rename(w1, c2).w;
    if Put(w, c1).Ok? && Rename(w1, c2).Ok? {
      OnVersions(w.cfg, w2.cfg, C.Next(p, now));
      LaunchVerifies(w2, p, now);
    }
  }

  lemma BeginVerifies(w: World, req: Config.Request, pt: Option<ConfigTarget>, pa: Option<AppliedConfig>, repair: bool, now: Clock)
    requires Config.ValidRequest(req)
    ensures Sound(Config.Begin(w, req, pt, pa, repair, now), req.version, req.digest)
  {
    hide Config.Prune, Config.InstallVersion, Config.Activate, Config.VerifyTarget;
    var w1 := Check(w).w;
    var w2 := Config.Prune(w1).w;
    S.InstalledIsRequested(w2, req, repair, now);
    var i := Config.InstallVersion(w2, req, repair, now);
    NotInstalledIsNoSuccess(w2, req, repair, now);
    if i.Installed? { ActivateVerifies(i.w, AttemptAt(req, i.target, pt, pa, now), now); }
  }

  lemma NotInstalledIsNoSuccess(w: World, req: Config.Request, repair: bool, now: Clock)
    ensures var i := Config.InstallVersion(w, req, repair, now);
            i.NotInstalled? ==> !i.r.Applied?
  {
  }

  lemma ConfirmVerifies(w: World, a: AppliedConfig)
    requires Config.VerifyApplied(w.cfg, a) && w.cfg.applied == Some(a)
    ensures Sound(Config.ConfirmAgain(w, a), a.version, a.digest)
  {
    hide Put, Config.Prune, Config.VerifyAppliedTarget, Config.LoadPending, Config.Matches;
    var c1 := if Config.LoadPending(w.cfg).Missing? then w.cfg.(failed := None) else w.cfg.(pending := None);
    C.Writes(w, c1);
    var w1 := Put(w, c1).w;
    var c2 := w1.cfg.(failed := None);
    C.Writes(w1, c2);
    assert Config.LoadPending(w.cfg).Missing? <==> w.cfg.pending.None? by { MissingIsNone(w.cfg); }
    var s := Config.ConfirmApplied(w, a);
    if s.Ok? {
      OnVersions(w.cfg, s.w.cfg, a);
      PruneKeepsApplied(s.w, a);
    }
  }

  lemma MissingIsNone(c: ConfigFiles)
    ensures Config.LoadPending(c).Missing? <==> c.pending.None?
    ensures Config.LoadApplied(c).Found? ==> c.applied == Some(Config.LoadApplied(c).value)
  {
  }

  lemma RepairVerifies(w: World, req: Config.Request, now: Clock)
    requires Config.ValidRequest(req)
    ensures Sound(Config.Repair(w, req, now), req.version, req.digest)
  {
    hide Config.Begin, Config.AppliedForTarget, Config.VerifyApplied;
    var pt := w.cfg.previous;
    BeginVerifies(w, req, pt, if pt.None? then None else Config.AppliedForTarget(w.cfg, pt.value), true, now);
  }

  lemma ValidatedVerifies(w: World, req: Config.Request, now: Clock)
    requires Config.ValidRequest(req)
    ensures Sound(Config.ApplyValidated(w, req, now), req.version, req.digest)
  {
    hide Config.Begin, Config.Repair, Config.ConfirmAgain, Config.VerifyApplied, Config.VerifyTarget, Config.LoadApplied;
    MissingIsNone(w.cfg);
    RepairVerifies(w, req, now);
    BeginVerifies(w, req, None, None, false, now);
    if w.cfg.applied.Some? {
      var a := w.cfg.applied.value;
      BeginVerifies(w, req, Some(a.target), Some(a), false, now);
      if Config.VerifyApplied(w.cfg, a) { ConfirmVerifies(w, a); }
    }
  }

  lemma Loads(c: ConfigFiles, a: AppliedConfig)
    requires Config.VerifyApplied(c, a) && c.applied == Some(a)
    ensures Config.LoadCurrent(c) == Found(a)
  {
  }

  /**
   * On any disk, with any failures: an apply that reports success leaves the requested version
   * recorded, selected and intact, also when it had to repair it.
   */
  lemma SuccessVerifies(w: World, req: Config.Request, now: Clock)
    ensures var flow := Config.Apply(w, req, now);
            && flow.Return?
            && (flow.r.Applied? ==>
                  && flow.r.state.version == req.version && flow.r.state.digest == req.digest
                  && Config.VerifyApplied(flow.w.cfg, flow.r.state) && Config.LoadCurrent(flow.w.cfg) == Found(flow.r.state)
                  && flow.w.cfg.pending.None? && flow.w.cfg.failed.None?)
  {
    hide Config.Validate, Config.ApplyValidated, Config.VerifyApplied, Config.LoadCurrent, Config.ValidRequest, OnlyVerdict, Admits;
    VerdictMoves(w, req, now);
    var g := Config.Validate(w, req, now);
    if g.Verdict? && g.v.passed {
      ValidatedVerifies(g.w, req, now);
      var flow := Config.ApplyValidated(g.w, req, now);
      if flow.r.Applied? { Loads(flow.w.cfg, flow.r.state); }
    }
  }

  // ---------------------------------------------------------------- drift

  /** There is a verified version to fall back to, or none at all. */
  predicate Repairable(c: ConfigFiles) {
    c.previous.Some? ==> Config.AppliedForTarget(c, c.previous.value).Some?
  }

  /**
   * The applied version's file or link was changed behind the node's back. Requesting that
   * version again, with no failing step, installs it anew, beside whatever stands under its name.
   */
  lemma DriftIsRepaired(w: World, req: Config.Request, now: Clock, n: nat)
    requires w.cfg.pending.None? && Config.LoadApplied(w.cfg).Found? && !Config.VerifyApplied(w.cfg, w.cfg.applied.value)
    requires Config.ValidRequest(req) && Admits(w.cfg, req) && Repairable(w.cfg)
    requires req.version == w.cfg.applied.value.version && req.digest == w.cfg.applied.value.digest
    requires Clear(w.fates, 2 * |w.cfg.versions| + 16 + n)
    ensures var flow := Config.Apply(w, req, now);
            && flow.Return? && flow.r.Applied? && NameFor(req, true, now, flow.r.state.target)
            && flow.r.state == AppliedConfig(req.version, req.digest, flow.r.state.target, now.appliedAt)
            && flow.w.cfg.current == Some(flow.r.state.target) && flow.w.cfg.applied == Some(flow.r.state)
            && flow.w.cfg.pending.None? && flow.w.cfg.failed.None?
            && flow.w.process == Running(Start(ActivePath(w.bun), flow.w.cfg.current))
  {
    hide Clear, Config.Validate, Config.Begin, Config.ConfirmAgain, Config.VerifyApplied, Config.AppliedForTarget, Admits, Config.ValidApplied;
    ValidateSucceeds(w, req, now, 2 * |w.cfg.versions| + 13 + n);
    var w1 := Config.Validate(w, req, now).w;
    VerdictIsNotRead(w, w1);
    var pt := w1.cfg.previous;
    var pa := if pt.None? then None else Config.AppliedForTarget(w1.cfg, pt.value);
    var t := BeginSucceeds(w1, req, pt, pa, true, now, n);
  }
}
