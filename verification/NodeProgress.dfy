/** Recovery gets there: whatever a crash left behind, a start in which every step succeeds settles the node. */
module NodeProgress {
  import opened Common
  import opened ConfigNames
  import opened NodeState
  import opened NodeInvariant
  import N = NodeRuns
  import Config = ConfigActivation
  import Bundle = BundleActivation
  import C = ConfigProofs
  import B = BundleProofs

  /** The next `n` steps succeed. */
  predicate Clear(fates: seq<Fate>, n: int) {
    n <= |fates| && forall i :: 0 <= i < n ==> fates[i] == Done
  }

  lemma ConfigStep(w: World, c: ConfigFiles, n: nat)
    requires Clear(w.fates, n + 1)
    ensures Clear(Rest(w), n)
    ensures Put(w, c) == Ok(w.(cfg := c, fates := Rest(w))) && Rename(w, c) == Ok(w.(cfg := c, fates := Rest(w)))
  {
  }

  lemma BundleStep(w: World, b: BundleFiles, n: nat)
    requires Clear(w.fates, n + 1)
    ensures Clear(Rest(w), n)
    ensures PutBundle(w, b) == Ok(w.(bun := b, fates := Rest(w))) && RenameBundle(w, b) == Ok(w.(bun := b, fates := Rest(w)))
  {
  }

  lemma OtherStep(w: World, n: nat)
    requires Clear(w.fates, n + 1)
    ensures Clear(Rest(w), n)
    ensures Check(w) == Ok(w.(fates := Rest(w)))
    ensures Stop(w) == Ok(w.(process := Stopped, fates := Rest(w)))
    ensures var start := Start(ActivePath(w.bun), w.cfg.current);
            Restart(w) == Ok(w.(process := Running(start), starts := w.starts + [start], fates := Rest(w)))
  {
  }

  /** The steps after this one that are still known to succeed. */
  predicate Arrived(s: Step, n: nat) { s.Ok? && Clear(s.w.fates, n) }

  // ---------------------------------------------------------------- configuration

  lemma RecordArrives(w: World, p: PendingConfig, code: ErrorCode, n: nat)
    requires Clear(w.fates, n + 2)
    ensures Arrived(Config.RecordRollback(w, p, code), n)
  {
    hide Put, Clear;
    var c := w.cfg.(failed := Some(ConfigFailure(p.version, p.digest, code, RolledBack)));
    ConfigStep(w, c, n + 1);
    ConfigStep(Put(w, c).w, Put(w, c).w.cfg.(pending := None), n);
  }

  lemma ClearShrinks(fates: seq<Fate>, m: nat, n: nat)
    requires Clear(fates, m) && n <= m
    ensures Clear(fates, n)
  {
  }

  lemma RollbackArrives(w: World, p: PendingConfig, code: ErrorCode, n: nat)
    requires Clear(w.fates, n + 6) && (p.previousTarget.Some? ==> Config.RollbackApplied(w.cfg, p).Some?)
    ensures Arrived(Config.Rollback(w, p, code), n)
  {
    hide Put, Rename, Check, Restart, Stop, Clear, Config.RecordRollback, Config.RollbackApplied;
    var c := w.cfg.(current := p.previousTarget);
    ConfigStep(w, c, n + 5);
    var w1 := Put(w, c).w;
    assert Rename(w, c).w == w1;
    var d := w1.cfg.(applied := if p.previousTarget.None? then None else Config.RollbackApplied(w.cfg, p));
    ConfigStep(w1, d, n + 4);
    var w2 := Put(w1, d).w;
    OtherStep(w2, n + 3);
    if p.previousTarget.None? {
      ClearShrinks(Stop(w2).w.fates, n + 3, n + 2);
      RecordArrives(Stop(w2).w, p, code, n);
    } else {
      var w3 := Check(w2).w;
      OtherStep(w3, n + 2);
      RecordArrives(Restart(w3).w, p, code, n);
    }
  }

  lemma ConfirmArrives(w: World, a: AppliedConfig, n: nat)
    requires Clear(w.fates, n + 2) && Config.LoadPending(w.cfg).Found? && Config.Matches(a, Config.LoadPending(w.cfg).value)
    ensures Arrived(Config.ConfirmApplied(w, a), n)
  {
    hide Put, Clear, Config.Matches, Config.LoadPending;
    var c := w.cfg.(pending := None);
    ConfigStep(w, c, n + 1);
    ConfigStep(Put(w, c).w, Put(w, c).w.cfg.(failed := None), n);
  }

  lemma RollbackTargetIsThere(w: World, p: PendingConfig)
    requires Invariant(w) && w.cfg.pending == Some(p) && p.previousTarget.Some?
    ensures Config.RollbackApplied(w.cfg, p).Some?
  {
  }

  lemma ConfigRecovers(w: World, n: nat)
    requires Invariant(w) && Clear(w.fates, n + 6)
    ensures Config.Recover(w).Return? && Config.Recover(w).r.Recovered? && Clear(Config.Recover(w).w.fates, n)
  {
    hide Clear, Config.Rollback, Config.ConfirmApplied, Config.Matches, Config.VerifyApplied, Config.LoadApplied, Config.LoadPending;
    if w.cfg.pending.Some? {
      var p := w.cfg.pending.value;
      C.AnyPendingIsSafe(w, p);
      C.PendingVerify(w, p, C.NextOf(w, p), 0);
      if p.previousTarget.Some? { RollbackTargetIsThere(w, p); }
      hide Invariant;
      RollbackArrives(w, p, PreparationFailed, n);
      ClearShrinks(w.fates, n + 6, n + 2);
      if Config.LoadApplied(w.cfg).Found? && Config.Matches(Config.LoadApplied(w.cfg).value, p) {
        ConfirmArrives(w, Config.LoadApplied(w.cfg).value, n);
      }
    } else {
      C.NothingPending(w);
      ClearShrinks(w.fates, n + 6, n);
    }
  }

  /** The attempt only waits to be confirmed. */
  predicate ConfirmableConfig(c: ConfigFiles, p: PendingConfig) {
    c.applied.Some? && Config.Matches(c.applied.value, p) && Config.VerifyApplied(c, c.applied.value)
  }

  /** Which end a recovery that returns nil takes: the new one exactly when the attempt only waited to be confirmed. */
  lemma ConfigDecides(w: World, p: PendingConfig)
    requires Invariant(w) && w.cfg.pending == Some(p) && Config.Recover(w).Return? && Config.Recover(w).r.Recovered?
    ensures var c := Config.Recover(w).w.cfg;
            && c.pending.None?
            && (if ConfirmableConfig(w.cfg, p) then c.current == Some(p.command) && c.applied == w.cfg.applied && c.failed.None?
                else C.Undone(c, p) && C.FailureOf(c, p) && c.failed.value.recovery == RolledBack)
  {
    hide Invariant, C.Framed, Config.Rollback, Config.ConfirmApplied, Config.Matches, Config.VerifyApplied, Config.LoadApplied, Config.LoadPending;
    var next := C.NextOf(w, p);
    C.AnyPendingIsSafe(w, p);
    C.PendingVerify(w, p, next, 0);
    hide C.Safe;
    if ConfirmableConfig(w.cfg, p) {
      C.ConfirmKeeps(w, p, next, 0);
    } else {
      C.RollbackResultKeeps(w, p, PreparationFailed, next, 0);
    }
  }

  // ---------------------------------------------------------------- bundles

  lemma PrepareArrives(w: World, p: PendingBundle, n: nat)
    requires Invariant(w) && w.bun.pending == Some(p) && Clear(w.fates, n + 1)
    ensures Arrived(Bundle.PrepareRollbackController(w, p), n)
  {
    BundleStep(w, w.bun.(current := Some(p.target)), n);
    ClearShrinks(w.fates, n + 1, n);
    hide Clear, RenameBundle;
  }

  lemma RestoreArrives(w: World, p: PendingBundle, n: nat)
    requires Clear(w.fates, n + 2) && (p.previousTarget.Some? ==> Bundle.RollbackApplied(w.bun, p).Some?)
    ensures Arrived(Bundle.RestoreFiles(w, p), n)
  {
    hide PutBundle, RenameBundle, Clear, Bundle.RollbackApplied;
    var b := w.bun.(current := p.previousTarget);
    BundleStep(w, b, n + 1);
    var w1 := PutBundle(w, b).w;
    BundleStep(w1, w1.bun.(applied := if p.previousTarget.None? then None else Bundle.RollbackApplied(w.bun, p)), n);
  }

  lemma ReviveArrives(w: World, p: PendingBundle, hasConfig: bool, code: ErrorCode, n: nat)
    requires Clear(w.fates, n + 3)
    ensures Arrived(Bundle.Revive(w, p, hasConfig, code), n)
  {
    hide PutBundle, Restart, Clear;
    OtherStep(w, n + 2);
    ClearShrinks(w.fates, n + 3, n + 2);
    var w1 := if hasConfig then Restart(w).w else w;
    var b := w1.bun.(failed := Some(BundleFailure(p.version, code, RolledBack)));
    BundleStep(w1, b, n + 1);
    BundleStep(PutBundle(w1, b).w, PutBundle(w1, b).w.bun.(pending := None), n);
  }

  /** Preparing a rollback and stopping leave the records that the rollback reads. */
  lemma PrepareKeepsTarget(w: World, p: PendingBundle)
    requires Invariant(w) && w.bun.pending == Some(p) && p.previousTarget.Some?
    ensures Bundle.RollbackApplied(w.bun, p).Some? && Bundle.RollbackApplied(Bundle.PrepareRollbackController(w, p).w.bun, p).Some?
  {
  }

  lemma BundleRollbackArrives(w: World, p: PendingBundle, hasConfig: bool, code: ErrorCode, n: nat)
    requires Invariant(w) && w.bun.pending == Some(p) && Clear(w.fates, n + 7)
    ensures Arrived(Bundle.Rollback(w, p, hasConfig, code), n)
  {
    if p.previousTarget.Some? { PrepareKeepsTarget(w, p); }
    PrepareArrives(w, p, n + 6);
    hide Invariant, Clear, Stop, Bundle.PrepareRollbackController, Bundle.RestoreFiles, Bundle.Revive, Bundle.RollbackApplied;
    ClearShrinks(w.fates, n + 7, n + 5);
    var w1 := if hasConfig then Bundle.PrepareRollbackController(w, p).w else w;
    if hasConfig { OtherStep(w1, n + 5); }
    var w2 := if hasConfig then Stop(w1).w else w1;
    RestoreArrives(w2, p, n + 3);
    ReviveArrives(Bundle.RestoreFiles(w2, p).w, p, hasConfig, code, n);
  }

  lemma BundleConfirmArrives(w: World, n: nat)
    requires Clear(w.fates, n + 2)
    ensures Arrived(Bundle.Confirm(w), n)
  {
    hide PutBundle, Clear;
    var b := w.bun.(pending := None);
    BundleStep(w, b, n + 1);
    BundleStep(PutBundle(w, b).w, PutBundle(w, b).w.bun.(failed := None), n);
  }

  /** The pending update only waits for its removal. */
  predicate Confirmable(b: BundleFiles) {
    && b.pending.Some? && b.applied.Some?
    && Bundle.Matches(b.applied.value, b.pending.value) && Bundle.VerifyApplied(b, b.applied.value)
  }

  /** An update has to be rolled back, but the configuration's link and record disagree. */
  predicate Stuck(w: World) {
    w.bun.pending.Some? && !Confirmable(w.bun) && Config.LoadCurrent(w.cfg).Invalid?
  }

  lemma PendingRecovers(w: World, p: PendingBundle, n: nat)
    requires Invariant(w) && w.bun.pending == Some(p) && !Stuck(w) && Clear(w.fates, n + 7)
    ensures var flow := Bundle.RecoverPending(w);
            flow.Return? && flow.r.Recovered? && Clear(flow.w.fates, n)
  {
    hide Clear, Bundle.Rollback, Bundle.Confirm, Bundle.Matches, Bundle.VerifyApplied, Bundle.LoadApplied,
      Bundle.LoadPending, Config.LoadCurrent, B.Unconfirmed;
    B.AnyPendingIsSafe(w, p);
    B.PendingVerify(w, p, B.NextOf(w, p), None);
    hide Invariant;
    BundleRollbackArrives(w, p, Config.LoadCurrent(w.cfg).Found?, PreparationFailed, n);
    ClearShrinks(w.fates, n + 7, n + 2);
    BundleConfirmArrives(w, n);
  }

  lemma BundleDecides(w: World, p: PendingBundle)
    requires Invariant(w) && w.bun.pending == Some(p) && Bundle.Recover(w).Return? && Bundle.Recover(w).r.Recovered?
    ensures var b := Bundle.Recover(w).w.bun;
            && b.pending.None?
            && (if Confirmable(w.bun) then b.current == Some(p.target) && b.applied == w.bun.applied && b.failed.None?
                else B.Undone(b, p) && B.FailureOf(b, p) && b.failed.value.recovery == RolledBack)
  {
    hide Invariant, Check, B.Framed, Bundle.RecoverPending, Confirmable;
    var v := Check(w).w;
    B.FatesIrrelevant(w, v.fates);
    assert Bundle.Recover(w) == Bundle.RecoverPending(v) && v == w.(fates := v.fates) by { CheckedFirst(w); }
    PendingDecides(v, p);
  }

  lemma CheckedFirst(w: World)
    requires Bundle.Recover(w).Return? && Bundle.Recover(w).r.Recovered?
    ensures Check(w).w == w.(fates := Rest(w)) && Bundle.Recover(w) == Bundle.RecoverPending(Check(w).w)
  {
    hide Bundle.RecoverPending;
  }

  lemma PendingDecides(w: World, p: PendingBundle)
    requires Invariant(w) && w.bun.pending == Some(p) && Bundle.RecoverPending(w).Return? && Bundle.RecoverPending(w).r.Recovered?
    ensures var b := Bundle.RecoverPending(w).w.bun;
            && b.pending.None?
            && (if Confirmable(w.bun) then b.current == Some(p.target) && b.applied == w.bun.applied && b.failed.None?
                else B.Undone(b, p) && B.FailureOf(b, p) && b.failed.value.recovery == RolledBack)
  {
    hide Invariant, B.Framed, Bundle.Rollback, Bundle.Confirm, Bundle.Matches, Bundle.VerifyApplied, Bundle.LoadApplied,
      Bundle.LoadPending, Config.LoadCurrent, B.Unconfirmed;
    var next := B.NextOf(w, p);
    B.AnyPendingIsSafe(w, p);
    B.PendingVerify(w, p, next, None);
    hide B.Safe;
    if Confirmable(w.bun) {
      B.ConfirmKeeps(w, p, next, None);
    } else {
      B.RollbackResultKeeps(w, p, PreparationFailed, next, None);
    }
  }

  /** Recovering the bundle then fails before it touches anything, whatever its steps would do. */
  lemma StuckRefuses(w: World)
    requires Invariant(w) && Stuck(w)
    ensures var flow := Bundle.Recover(w);
            flow.Return? && !flow.r.Recovered? && flow.w == w.(fates := Rest(w))
  {
    hide Bundle.RollbackResult, Bundle.Confirm, Config.LoadCurrent, B.Unconfirmed;
    B.FatesIrrelevant(w, Rest(w));
    var v := w.(fates := Rest(w));
    B.AnyPendingIsSafe(v, w.bun.pending.value);
    B.PendingVerify(v, w.bun.pending.value, B.NextOf(v, w.bun.pending.value), None);
    hide Invariant;
  }

  lemma BundleRecovers(w: World, n: nat)
    requires Invariant(w) && Clear(w.fates, n + 8)
    ensures var flow := Bundle.Recover(w);
            flow.Return? && (flow.r.Recovered? <==> !Stuck(w)) && (!Stuck(w) ==> Clear(flow.w.fates, n))
  {
    hide Invariant, Clear, Check, Bundle.RecoverPending, Confirmable, Config.LoadCurrent;
    OtherStep(w, n + 7);
    var w1 := Check(w).w;
    B.FatesIrrelevant(w, Rest(w));
    if Stuck(w) {
      StuckRefuses(w);
    } else if w1.bun.pending.Some? {
      PendingRecovers(w1, w1.bun.pending.value, n);
    } else {
      NothingPending(w1);
      ClearShrinks(w1.fates, n + 7, n);
    }
  }

  lemma NothingPending(w: World)
    requires w.bun.pending.None?
    ensures Bundle.RecoverPending(w) == Return(w, Bundle.Recovered)
  {
  }

  // ---------------------------------------------------------------- starting

  /** A start whose fourteen steps succeed leaves nothing pending on either side, exactly when the node is not stuck. */
  lemma BootSettlesFrom(w: World, fates: seq<Fate>)
    requires Invariant(w) && Clear(fates, 14)
    ensures N.Quiescent(N.Exec(w, N.Boot(fates))) <==> !Stuck(w)
  {
    hide Invariant, Clear, Bundle.Recover, Config.Recover, C.Framed, B.Framed, Confirmable, Config.LoadCurrent;
    var v := w.(fates := fates);
    C.FatesIrrelevant(w, fates);
    BundleRecovers(v, 6);
    B.RecoverInvariant(v);
    if Stuck(w) {
      StuckRefuses(v);
    } else {
      var u := Bundle.Recover(v).w;
      ConfigRecovers(u, 0);
      C.RecoverInvariant(u);
      N.ConfigFrame(u, Config.Recover(u).w);
      B.FramedParts(v, u);
    }
  }

  /** No start, whatever becomes of its steps, gets a stuck node anywhere. */
  lemma StuckStays(w: World, fates: seq<Fate>)
    requires Invariant(w) && Stuck(w)
    ensures var after := N.Exec(w, N.Boot(fates));
            after == w.(fates := after.fates) && Stuck(after)
  {
    hide Invariant, Bundle.Recover, Config.Recover, Confirmable, Config.LoadCurrent;
    C.FatesIrrelevant(w, fates);
    StuckRefuses(w.(fates := fates));
  }
}
