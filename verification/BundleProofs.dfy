/** The bundle side keeps the invariant, and an install is all-or-nothing. */
module BundleProofs {
  import opened Common
  import opened ConfigNames
  import opened NodeState
  import opened BundleActivation
  import opened NodeInvariant
  import opened Retention
  import Config = ConfigActivation

  // ---------------------------------------------------------------- what a transaction may leave

  predicate Undone(b: BundleFiles, p: PendingBundle) {
    b.current == p.previousTarget && b.applied == p.previousApplied
  }

  predicate Confirmed(b: BundleFiles, p: PendingBundle, next: AppliedBundle) {
    b.current == Some(p.target) && b.applied == Some(next)
  }

  predicate FailureOf(b: BundleFiles, p: PendingBundle) {
    b.failed.Some? && b.failed.value.version == p.version
  }

  /** A healthy start of this bundle at or after entry `since`, if that is asked for. */
  ghost predicate LaunchedSince(starts: seq<Start>, t: BundleTarget, since: Option<nat>) {
    since.Some? ==> exists k :: since.value <= k < |starts| && starts[k].binary == Managed(Some(t))
  }

  /** Attempt `p` is still pending, or it left one of its two ends, the new one only after a healthy start. */
  ghost predicate Txn(w: World, p: PendingBundle, next: AppliedBundle, since: Option<nat>) {
    && Matches(next, p)
    && (match w.bun.pending
        case Some(q) => q == p && (w.bun.applied == p.previousApplied || w.bun.applied == Some(next))
        case None => Undone(w.bun, p) || Confirmed(w.bun, p, next))
    && (w.bun.applied == Some(next) && Config.InUse(w.cfg) ==> LaunchedSince(w.starts, p.target, since))
  }

  ghost predicate Safe(w: World, p: PendingBundle, next: AppliedBundle, since: Option<nat>) {
    Invariant(w) && Txn(w, p, next, since)
  }

  /** The bundle operations never touch configuration files, and only extend the start log. */
  predicate Framed(w: World, w': World) {
    w'.cfg == w.cfg && w'.lossy == w.lossy && w.starts <= w'.starts
  }

  lemma FramedTransitive(a: World, b: World, c: World)
    requires Framed(a, b) && Framed(b, c)
    ensures Framed(a, c)
  {
  }

  lemma FramedReflexive(w: World)
    ensures Framed(w, w)
  {
  }

  // ---------------------------------------------------------------- steps

  lemma FatesIrrelevant(w: World, f: seq<Fate>)
    requires Invariant(w)
    ensures Invariant(w.(fates := f))
  {
  }

  predicate Wrote(w: World, b: BundleFiles, s: Step) {
    && (s.w == w.(fates := s.w.fates) || s.w == w.(bun := b, fates := s.w.fates))
    && (s.Ok? ==> s.w == w.(bun := b, fates := s.w.fates))
  }

  lemma Writes(w: World, b: BundleFiles)
    ensures Wrote(w, b, PutBundle(w, b)) && Wrote(w, b, RenameBundle(w, b))
    ensures Framed(w, PutBundle(w, b).w) && Framed(w, RenameBundle(w, b).w)
    ensures !RenameBundle(w, b).Ok? ==> RenameBundle(w, b).w == w.(fates := RenameBundle(w, b).w.fates)
  {
  }

  lemma Keeps(w: World, b: BundleFiles)
    requires Invariant(w) && Invariant(w.(bun := b))
    ensures Invariant(PutBundle(w, b).w) && Invariant(RenameBundle(w, b).w)
  {
    hide Invariant;
    FatesIrrelevant(w, Rest(w));
    FatesIrrelevant(w.(bun := b), Rest(w));
  }

  lemma PutKeeps(w: World, b: BundleFiles, p: PendingBundle, next: AppliedBundle, since: Option<nat>)
    requires Safe(w, p, next, since) && Safe(w.(bun := b), p, next, since)
    ensures Safe(PutBundle(w, b).w, p, next, since) && Wrote(w, b, PutBundle(w, b)) && Framed(w, PutBundle(w, b).w)
  {
    hide Invariant;
    Writes(w, b);
    Keeps(w, b);
  }

  /** The attempt cannot be mistaken for a confirmable one while its process is being replaced. */
  predicate Unconfirmed(w: World) {
    && w.bun.pending.Some?
    && (!w.lossy ==> !(w.bun.applied.Some? && Matches(w.bun.applied.value, w.bun.pending.value)))
  }

  lemma ProcessMoves(w: World, process: Process, starts: seq<Start>)
    requires Invariant(w) && w.starts <= starts && Unconfirmed(w) && Config.InUse(w.cfg)
    requires process.Running? ==> |starts| > 0 && starts[|starts| - 1] == process.start
    ensures Invariant(w.(process := process, starts := starts))
  {
    forall t, since: nat | StartedSince(w.starts, t, since) ensures StartedSince(starts, t, since) {
      var k :| since <= k < |w.starts| && w.starts[k].config == Some(t);
      assert starts[k] == w.starts[k];
    }
  }

  lemma StartsGrow(a: seq<Start>, b: seq<Start>, t: BundleTarget, since: Option<nat>)
    requires a <= b && LaunchedSince(a, t, since)
    ensures LaunchedSince(b, t, since)
  {
    if since.Some? {
      var k :| since.value <= k < |a| && a[k].binary == Managed(Some(t));
      assert b[k] == a[k];
    }
  }

  lemma StopKeeps(w: World, p: PendingBundle, next: AppliedBundle, since: Option<nat>)
    requires Safe(w, p, next, since) && Unconfirmed(w) && Config.InUse(w.cfg)
    ensures var s := Stop(w);
            Safe(s.w, p, next, since) && Framed(w, s.w) && s.w.bun == w.bun
  {
    var s := Stop(w);
    ProcessMoves(w, s.w.process, s.w.starts);
    hide Invariant;
    FatesIrrelevant(w.(process := s.w.process), s.w.fates);
  }

  lemma RestartKeeps(w: World, p: PendingBundle, next: AppliedBundle, since: Option<nat>)
    requires Safe(w, p, next, since) && Unconfirmed(w) && Config.InUse(w.cfg)
    ensures var s := Restart(w);
            && Safe(s.w, p, next, since) && Framed(w, s.w) && s.w.bun == w.bun
            && (s.Ok? ==> s.w.process == Running(Start(ActivePath(w.bun), w.cfg.current)))
            && (s.Ok? ==> s.w.starts == w.starts + [Start(ActivePath(w.bun), w.cfg.current)])
  {
    var s := Restart(w);
    ProcessMoves(w, s.w.process, s.w.starts);
    hide Invariant;
    FatesIrrelevant(w.(process := s.w.process, starts := s.w.starts), s.w.fates);
    if w.bun.applied == Some(next) {
      StartsGrow(w.starts, s.w.starts, p.target, since);
    }
  }

  /** The node reads the bundle side through its pair, its pending record and its soundness. */
  lemma RecordsDecide(w: World, b: BundleFiles)
    requires Invariant(w) && BundleSound(b)
    requires b.current == w.bun.current && b.applied == w.bun.applied && b.pending == w.bun.pending
    ensures Invariant(w.(bun := b))
  {
  }

  lemma RecordFailure(w: World, f: Option<BundleFailure>, p: PendingBundle, next: AppliedBundle, since: Option<nat>)
    requires Safe(w, p, next, since)
    ensures Safe(w.(bun := w.bun.(failed := f)), p, next, since)
  {
    RecordsDecide(w, w.bun.(failed := f));
    hide Invariant;
  }

  // ---------------------------------------------------------------- transitions of a rollback

  lemma Select(w: World, p: PendingBundle, next: AppliedBundle, since: Option<nat>)
    requires Safe(w, p, next, since) && w.bun.pending == Some(p) && Unconfirmed(w)
    ensures Safe(w.(bun := w.bun.(current := Some(p.target))), p, next, since)
  {
  }

  lemma Deselect(w: World, p: PendingBundle, next: AppliedBundle, since: Option<nat>)
    requires Safe(w, p, next, since) && w.bun.pending == Some(p) && Unconfirmed(w)
    ensures Safe(w.(bun := w.bun.(current := p.previousTarget)), p, next, since)
  {
  }

  lemma RestoreApplied(w: World, p: PendingBundle, next: AppliedBundle, since: Option<nat>)
    requires Safe(w, p, next, since) && w.bun.pending == Some(p) && w.bun.current == p.previousTarget
    ensures Safe(w.(bun := w.bun.(applied := p.previousApplied)), p, next, since)
    ensures Unconfirmed(w.(bun := w.bun.(applied := p.previousApplied)))
  {
  }

  /** With a configuration applied, the selected pair runs. */
  predicate Serving(w: World) {
    Config.InUse(w.cfg) ==> w.process == Running(Start(ActivePath(w.bun), w.cfg.current))
  }

  lemma CloseRolledBack(w: World, p: PendingBundle, next: AppliedBundle, since: Option<nat>)
    requires Safe(w, p, next, since) && w.bun.pending == Some(p) && Undone(w.bun, p) && Serving(w)
    ensures Safe(w.(bun := w.bun.(pending := None)), p, next, since)
  {
  }

  // ---------------------------------------------------------------- rollback

  lemma PrepareKeeps(w: World, p: PendingBundle, next: AppliedBundle, since: Option<nat>)
    requires Safe(w, p, next, since) && w.bun.pending == Some(p) && Unconfirmed(w)
    ensures var s := PrepareRollbackController(w, p);
            && Safe(s.w, p, next, since) && Framed(w, s.w) && s.w.bun.pending == Some(p) && Unconfirmed(s.w)
            && s.w.bun.applied == w.bun.applied
  {
    hide Safe, PutBundle, VerifyAppliedTarget, Framed;
    FramedReflexive(w);
    Select(w, p, next, since);
    var b := w.bun.(current := Some(p.target));
    PutKeeps(w, b, p, next, since);
    UnconfirmedFates(w, PutBundle(w, b).w.fates);
    UnconfirmedFates(w.(bun := b), PutBundle(w, b).w.fates);
  }

  lemma RollbackAppliedFound(w: World, p: PendingBundle)
    requires Invariant(w) && w.bun.pending == Some(p) && p.previousTarget.Some?
    ensures RollbackApplied(w.bun, p) == p.previousApplied && p.previousApplied.Some?
  {
  }

  lemma InitialHasNoApplied(w: World, p: PendingBundle)
    requires Invariant(w) && w.bun.pending == Some(p)
    ensures p.previousTarget.None? ==> p.previousApplied.None?
  {
  }

  lemma RestoreKeeps(w: World, p: PendingBundle, next: AppliedBundle, since: Option<nat>)
    requires Safe(w, p, next, since) && w.bun.pending == Some(p) && Unconfirmed(w)
    ensures var s := RestoreFiles(w, p);
            && Safe(s.w, p, next, since) && Framed(w, s.w) && s.w.bun.pending == Some(p)
            && (s.Ok? ==> Undone(s.w.bun, p) && Unconfirmed(s.w))
  {
    hide Invariant, Txn, PutBundle, RollbackApplied, Framed, Unconfirmed;
    InitialHasNoApplied(w, p);
    if p.previousTarget.Some? { RollbackAppliedFound(w, p); }
    var b1 := w.bun.(current := p.previousTarget);
    Deselect(w, p, next, since);
    PutKeeps(w, b1, p, next, since);
    var s1 := PutBundle(w, b1);
    if s1.Ok? {
      var b2 := s1.w.bun.(applied := p.previousApplied);
      RestoreApplied(s1.w, p, next, since);
      PutKeeps(s1.w, b2, p, next, since);
      FramedTransitive(w, s1.w, PutBundle(s1.w, b2).w);
      UnconfirmedFates(s1.w.(bun := b2), PutBundle(s1.w, b2).w.fates);
    }
  }

  lemma UnconfirmedFates(w: World, f: seq<Fate>)
    requires Unconfirmed(w)
    ensures Unconfirmed(w.(fates := f))
  {
  }

  /** Rolling back ends with the record still there, or with the old pair and a failure record. */
  predicate RolledBackOrPending(s: Step, p: PendingBundle) {
    && (s.w.bun.pending == Some(p) ||
        (s.w.bun.pending.None? && Undone(s.w.bun, p) && FailureOf(s.w.bun, p) && s.w.bun.failed.value.recovery == RolledBack))
    && (s.Ok? ==> s.w.bun.pending.None?)
  }

  lemma RecordKeeps(w: World, p: PendingBundle, code: ErrorCode, next: AppliedBundle, since: Option<nat>)
    requires Safe(w, p, next, since) && w.bun.pending == Some(p) && Undone(w.bun, p) && Serving(w)
    ensures var s := RecordRollback(w, p, code);
            Safe(s.w, p, next, since) && Framed(w, s.w) && RolledBackOrPending(s, p)
  {
    hide Safe, PutBundle, Framed;
    var f := Some(BundleFailure(p.version, code, RolledBack));
    RecordFailure(w, f, p, next, since);
    PutKeeps(w, w.bun.(failed := f), p, next, since);
    var s := PutBundle(w, w.bun.(failed := f));
    if s.Ok? {
      CloseRolledBack(s.w, p, next, since);
      PutKeeps(s.w, s.w.bun.(pending := None), p, next, since);
      FramedTransitive(w, s.w, RecordRollback(w, p, code).w);
    }
  }

  /** From restored files to the restarted previous bundle. */
  lemma ReviveKeeps(w: World, p: PendingBundle, code: ErrorCode, next: AppliedBundle, since: Option<nat>)
    requires Safe(w, p, next, since) && w.bun.pending == Some(p) && Undone(w.bun, p) && Unconfirmed(w)
    ensures var s := Revive(w, p, Config.InUse(w.cfg), code);
            Safe(s.w, p, next, since) && Framed(w, s.w) && RolledBackOrPending(s, p)
  {
    hide Safe, Restart, RecordRollback, Framed, Unconfirmed;
    if Config.InUse(w.cfg) {
      RestartKeeps(w, p, next, since);
      var s := Restart(w);
      FramedParts(w, s.w);
      if s.Ok? {
        RecordKeeps(s.w, p, code, next, since);
        FramedTransitive(w, s.w, RecordRollback(s.w, p, code).w);
      }
    } else {
      RecordKeeps(w, p, code, next, since);
    }
  }

  lemma FramedParts(w: World, w': World)
    requires Framed(w, w')
    ensures w'.cfg == w.cfg && w'.lossy == w.lossy
  {
  }

  lemma RollbackKeeps(w: World, p: PendingBundle, code: ErrorCode, next: AppliedBundle, since: Option<nat>)
    requires Safe(w, p, next, since) && w.bun.pending == Some(p) && Unconfirmed(w)
    ensures var s := Rollback(w, p, Config.InUse(w.cfg), code);
            Safe(s.w, p, next, since) && Framed(w, s.w) && RolledBackOrPending(s, p)
  {
    hide Safe, PrepareRollbackController, Stop, RestoreFiles, Revive, Framed, Undone;
    FramedReflexive(w);
    var hasConfig := Config.InUse(w.cfg);
    var s1 := if hasConfig then PrepareRollbackController(w, p) else Ok(w);
    PrepareKeeps(w, p, next, since);
    FramedParts(w, s1.w);
    if s1.Ok? {
      if hasConfig { StopKeeps(s1.w, p, next, since); }
      FramedReflexive(s1.w);
      var s2 := if hasConfig then Stop(s1.w) else Ok(s1.w);
      FramedTransitive(w, s1.w, s2.w);
      FramedParts(s1.w, s2.w);
      if s2.Ok? {
        RestoreKeeps(s2.w, p, next, since);
        var s3 := RestoreFiles(s2.w, p);
        FramedTransitive(w, s2.w, s3.w);
        FramedParts(s2.w, s3.w);
        if s3.Ok? {
          ReviveKeeps(s3.w, p, code, next, since);
          FramedTransitive(w, s3.w, Revive(s3.w, p, hasConfig, code).w);
        }
      }
    }
  }

  lemma RollbackResultKeeps(w: World, p: PendingBundle, code: ErrorCode, next: AppliedBundle, since: Option<nat>)
    requires Safe(w, p, next, since) && w.bun.pending == Some(p) && Unconfirmed(w)
    ensures var flow := RollbackResult(w, p, Config.InUse(w.cfg), code);
            && flow.Return? && Safe(flow.w, p, next, since) && Framed(w, flow.w)
            && (flow.w.bun.pending == Some(p) || (flow.w.bun.pending.None? && Undone(flow.w.bun, p) && FailureOf(flow.w.bun, p)))
            && (flow.r.RolledBackTo? ==> flow.w.bun.pending.None? && flow.w.bun.failed.value.recovery == RolledBack)
            && (flow.r.RolledBackTo? || flow.r.Crashed? || flow.r == Refused(RecoveryFailed, Failed))
  {
    hide Safe, Rollback, PutBundle, Framed, Unconfirmed;
    RollbackKeeps(w, p, code, next, since);
    var s := Rollback(w, p, Config.InUse(w.cfg), code);
    if s.Err? {
      var f := Some(BundleFailure(p.version, code, Failed));
      RecordFailure(s.w, f, p, next, since);
      PutKeeps(s.w, s.w.bun.(failed := f), p, next, since);
      FramedTransitive(w, s.w, PutBundle(s.w, s.w.bun.(failed := f)).w);
    }
  }

  // ---------------------------------------------------------------- recover

  lemma ClearPending(w: World, p: PendingBundle, next: AppliedBundle, since: Option<nat>)
    requires Safe(w, p, next, since) && w.bun.pending == Some(p) && Confirmed(w.bun, p, next)
    ensures Safe(w.(bun := w.bun.(pending := None)), p, next, since)
  {
  }

  /** With attempt `p` pending: either its record verifies and can be confirmed, or it cannot be mistaken for confirmed. */
  lemma PendingVerify(w: World, p: PendingBundle, next: AppliedBundle, since: Option<nat>)
    requires Safe(w, p, next, since) && w.bun.pending.Some?
    ensures w.bun.pending == Some(p) && LoadPending(w.bun) == Found(p)
    ensures LoadApplied(w.bun) == if w.bun.applied.Some? then Found(w.bun.applied.value) else Missing
    ensures if w.bun.applied.Some? && Matches(w.bun.applied.value, p) && VerifyApplied(w.bun, w.bun.applied.value)
            then w.bun.applied == Some(next) && Confirmed(w.bun, p, next) else Unconfirmed(w)
  {
  }

  lemma ConfirmKeeps(w: World, p: PendingBundle, next: AppliedBundle, since: Option<nat>)
    requires Safe(w, p, next, since) && w.bun.pending == Some(p) && Confirmed(w.bun, p, next)
    ensures var s := Confirm(w);
            && Safe(s.w, p, next, since) && Framed(w, s.w) && Confirmed(s.w.bun, p, next)
            && (s.w.bun.pending == Some(p) || s.w.bun.pending.None?)
            && (s.Ok? ==> s.w.bun.pending.None? && s.w.bun.failed.None? && s.w.bun.previous == w.bun.previous)
  {
    hide Safe, PutBundle, Framed;
    ClearPending(w, p, next, since);
    PutKeeps(w, w.bun.(pending := None), p, next, since);
    var s := PutBundle(w, w.bun.(pending := None));
    if s.Ok? {
      RecordFailure(s.w, None, p, next, since);
      PutKeeps(s.w, s.w.bun.(failed := None), p, next, since);
      FramedTransitive(w, s.w, Confirm(w).w);
    }
  }

  lemma CheckKeeps(w: World, p: PendingBundle, next: AppliedBundle, since: Option<nat>)
    requires Safe(w, p, next, since)
    ensures var s := Check(w);
            Safe(s.w, p, next, since) && Framed(w, s.w) && s.w == w.(fates := s.w.fates)
  {
    FatesIrrelevant(w, Check(w).w.fates);
    hide Invariant;
  }

  lemma RecoverPendingKeeps(w: World, p: PendingBundle, next: AppliedBundle, since: Option<nat>)
    requires Safe(w, p, next, since)
    ensures var flow := RecoverPending(w);
            && flow.Return? && Safe(flow.w, p, next, since) && Framed(w, flow.w)
            && (flow.r.Recovered? ==> flow.w.bun.pending.None?)
            && (w.bun.pending.None? ==> flow.w == w)
            && (w.bun.pending.Some? && flow.w.bun.pending.None? ==>
                  Confirmed(flow.w.bun, p, next) || (Undone(flow.w.bun, p) && FailureOf(flow.w.bun, p)))
  {
    hide Safe, Framed, Confirm, RollbackResult, LoadApplied, Matches, VerifyApplied, Unconfirmed;
    FramedReflexive(w);
    if w.bun.pending.Some? {
      PendingVerify(w, p, next, since);
      var applied := LoadApplied(w.bun);
      if applied.Found? && Matches(applied.value, p) && VerifyApplied(w.bun, applied.value) {
        ConfirmKeeps(w, p, next, since);
      } else {
        RollbackResultKeeps(w, p, PreparationFailed, next, since);
      }
    }
  }

  /** An interrupted install recovers to one of its ends; nil means it got there. */
  lemma RecoverKeeps(w: World, p: PendingBundle, next: AppliedBundle, since: Option<nat>)
    requires Safe(w, p, next, since)
    ensures var flow := Recover(w);
            && flow.Return? && Safe(flow.w, p, next, since) && Framed(w, flow.w)
            && (flow.r.Recovered? ==> flow.w.bun.pending.None?)
            && (w.bun.pending.None? ==> flow.w.bun == w.bun)
            && (w.bun.pending.Some? && flow.w.bun.pending.None? ==>
                  Confirmed(flow.w.bun, p, next) || (Undone(flow.w.bun, p) && FailureOf(flow.w.bun, p)))
  {
    hide Safe, Framed, Check, RecoverPending;
    CheckKeeps(w, p, next, since);
    if Check(w).Ok? {
      RecoverPendingKeeps(Check(w).w, p, next, since);
      FramedTransitive(w, Check(w).w, RecoverPending(Check(w).w).w);
    }
  }

  /** Any pending attempt of an invariant node is a transaction of its own, up to the start it needed. */
  function NextOf(w: World, p: PendingBundle): AppliedBundle {
    if w.bun.applied.Some? && Matches(w.bun.applied.value, p) then w.bun.applied.value
    else AppliedBundle(p.version, p.xrayVersion, p.digest, p.target, 1)
  }

  lemma AnyPendingIsSafe(w: World, p: PendingBundle)
    requires Invariant(w) && w.bun.pending == Some(p)
    ensures Safe(w, p, NextOf(w, p), None)
  {
  }

  lemma RecoverInvariant(w: World)
    requires Invariant(w)
    ensures var flow := Recover(w);
            && flow.Return? && Invariant(flow.w) && Framed(w, flow.w)
            && (flow.r.Recovered? ==> flow.w.bun.pending.None?)
  {
    if w.bun.pending.Some? {
      hide Invariant, Framed, Recover;
      var p := w.bun.pending.value;
      AnyPendingIsSafe(w, p);
      RecoverKeeps(w, p, NextOf(w, p), None);
    } else {
      hide Invariant;
      StoreCheck(w);
    }
  }

  // ---------------------------------------------------------------- retention and new versions

  predicate SameRecords(b: BundleFiles, d: BundleFiles) {
    b.current == d.current && b.previous == d.previous && b.applied == d.applied && b.pending == d.pending && b.failed == d.failed
  }

  predicate StoreMoved(w: World, w': World) {
    w'.cfg == w.cfg && w'.lossy == w.lossy && w'.starts == w.starts && w'.process == w.process && SameRecords(w.bun, w'.bun)
  }

  lemma StoreMovedTransitive(a: World, b: World, c: World)
    requires StoreMoved(a, b) && StoreMoved(b, c)
    ensures StoreMoved(a, c) && Protected(a.bun) == Protected(c.bun)
  {
  }

  lemma MovedFacts(w: World, w': World)
    requires StoreMoved(w, w')
    ensures Framed(w, w') && |w'.starts| == |w.starts| && SameRecords(w.bun, w'.bun) && w'.cfg == w.cfg
    ensures Protected(w.bun) == Protected(w'.bun)
  {
  }

  lemma StoreMovedReflexive(w: World)
    ensures StoreMoved(w, w)
  {
  }

  lemma ForgetSound(b: BundleFiles, t: BundleTarget)
    requires BundleSound(b) && t !in Protected(b)
    ensures BundleSound(b.(versions := b.versions - {t}))
  {
  }

  lemma RememberSound(b: BundleFiles, t: BundleTarget, d: BundleDirectory)
    requires BundleSound(b) && t !in b.versions && Verified(b.(versions := b.versions[t := d]), t)
    ensures BundleSound(b.(versions := b.versions[t := d]))
  {
  }

  lemma StoreStep(w: World, b: BundleFiles)
    requires Invariant(w) && BundleSound(b) && SameRecords(w.bun, b)
    ensures Invariant(PutBundle(w, b).w) && StoreMoved(w, PutBundle(w, b).w) && (PutBundle(w, b).Ok? ==> PutBundle(w, b).w.bun == b)
    ensures Invariant(RenameBundle(w, b).w) && StoreMoved(w, RenameBundle(w, b).w)
  {
    RecordsDecide(w, b);
    hide Invariant, BundleSound;
    Keeps(w, b);
    Writes(w, b);
  }

  lemma StoreCheck(w: World)
    requires Invariant(w)
    ensures Invariant(Check(w).w) && StoreMoved(w, Check(w).w) && Check(w).w.bun == w.bun
  {
    FatesIrrelevant(w, Check(w).w.fates);
    hide Invariant;
  }

  lemma {:induction false} DeleteKeeps(w: World, doomed: seq<Entry<BundleTarget>>, removed: bool)
    requires Invariant(w)
    requires forall e <- doomed :: e.key !in Protected(w.bun)
    ensures Invariant(Delete(w, doomed, removed).w) && StoreMoved(w, Delete(w, doomed, removed).w)
    decreases |doomed|
  {
    if doomed == [] {
      StoreCheck(w);
    } else {
      var t := doomed[0].key;
      assert doomed[0] in doomed;
      ForgetSound(w.bun, t);
      var b := w.bun.(versions := w.bun.versions - {t});
      StoreStep(w, b);
      hide Invariant, RenameBundle, StoreMoved, Protected;
      var s := RenameBundle(w, b);
      if s.Ok? {
        MovedFacts(w, s.w);
        DeleteKeeps(s.w, doomed[1..], true);
        StoreMovedTransitive(w, s.w, Delete(s.w, doomed[1..], true).w);
      }
    }
  }

  lemma PruneKeeps(w: World)
    requires Invariant(w)
    ensures Invariant(Prune(w).w) && StoreMoved(w, Prune(w).w)
  {
    hide Invariant;
    var doomed := Doomed(Entries(w.bun), Protected(w.bun), RETAINED_BUNDLES);
    forall e | e in doomed ensures e.key !in Protected(w.bun) {
      DoomedExactly(Entries(w.bun), Protected(w.bun), RETAINED_BUNDLES, e);
    }
    DeleteKeeps(w, doomed, false);
  }

  lemma TxnOnRecords(w: World, w': World, p: PendingBundle, next: AppliedBundle, since: Option<nat>)
    requires Txn(w, p, next, since) && StoreMoved(w, w')
    ensures Txn(w', p, next, since)
  {
  }

  lemma PruneSafe(w: World, p: PendingBundle, next: AppliedBundle, since: Option<nat>)
    requires Safe(w, p, next, since)
    ensures Safe(Prune(w).w, p, next, since) && Framed(w, Prune(w).w) && SameRecords(w.bun, Prune(w).w.bun)
  {
    hide Invariant, Prune;
    PruneKeeps(w);
    TxnOnRecords(w, Prune(w).w, p, next, since);
  }

  // ---------------------------------------------------------------- the forward path

  function Next(p: PendingBundle, now: Clock): AppliedBundle {
    AppliedBundle(p.version, p.xrayVersion, p.digest, p.target, now.appliedAt)
  }

  /** The candidate is selected, and serves if there is a configuration to serve. */
  ghost predicate Launched(w: World, p: PendingBundle, next: AppliedBundle, since: Option<nat>) {
    && Safe(w, p, next, since) && w.bun.pending == Some(p) && w.bun.current == Some(p.target) && Serving(w)
    && (Config.InUse(w.cfg) ==> LaunchedSince(w.starts, p.target, since))
  }

  lemma RecordPrevious(w: World, p: PendingBundle, next: AppliedBundle, since: Option<nat>)
    requires Launched(w, p, next, since) && p.previousTarget.Some?
    ensures Launched(w.(bun := w.bun.(previous := p.previousTarget)), p, next, since)
  {
  }

  lemma RecordApplied(w: World, p: PendingBundle, next: AppliedBundle, since: Option<nat>)
    requires Launched(w, p, next, since)
    ensures Launched(w.(bun := w.bun.(applied := Some(next))), p, next, since)
  {
  }

  lemma LaunchedFates(w: World, f: seq<Fate>, p: PendingBundle, next: AppliedBundle, since: Option<nat>)
    requires Launched(w, p, next, since)
    ensures Launched(w.(fates := f), p, next, since)
  {
    FatesIrrelevant(w, f);
    hide Invariant;
  }

  lemma PutLaunched(w: World, b: BundleFiles, p: PendingBundle, next: AppliedBundle, since: Option<nat>)
    requires Launched(w, p, next, since) && Launched(w.(bun := b), p, next, since)
    ensures Launched(PutBundle(w, b).w, p, next, since) && Framed(w, PutBundle(w, b).w) && Wrote(w, b, PutBundle(w, b))
    ensures Launched(RenameBundle(w, b).w, p, next, since) && Framed(w, RenameBundle(w, b).w) && Wrote(w, b, RenameBundle(w, b))
    ensures !RenameBundle(w, b).Ok? ==> RenameBundle(w, b).w == w.(fates := RenameBundle(w, b).w.fates)
  {
    hide Launched;
    Writes(w, b);
    LaunchedFates(w, Rest(w), p, next, since);
    LaunchedFates(w.(bun := b), Rest(w), p, next, since);
  }

  /** How an install ended once its record was written. */
  predicate Ended(flow: Flow<Result>, p: PendingBundle, next: AppliedBundle) {
    && flow.Return?
    && (flow.w.bun.pending == Some(p) ||
        (&& flow.w.bun.pending.None?
         && (Confirmed(flow.w.bun, p, next) || (Undone(flow.w.bun, p) && FailureOf(flow.w.bun, p)))))
    && (flow.r.Installed? ==> flow.r.state == next && flow.w.bun.pending.None? && flow.w.bun.failed.None? && Confirmed(flow.w.bun, p, next))
    && (flow.r.Installed? && p.previousTarget.Some? ==> flow.w.bun.previous == p.previousTarget)
    && (flow.r.RolledBackTo? ==>
          && flow.w.bun.pending.None? && Undone(flow.w.bun, p)
          && FailureOf(flow.w.bun, p) && flow.w.bun.failed.value.recovery == RolledBack)
    && !flow.r.Recovered?
  }

  lemma FinishKeeps(w: World, p: PendingBundle, next: AppliedBundle, since: Option<nat>)
    requires Safe(w, p, next, since) && w.bun.pending == Some(p) && Confirmed(w.bun, p, next)
    requires p.previousTarget.Some? ==> w.bun.previous == p.previousTarget
    ensures var flow := Finish(w, next);
            && Safe(flow.w, p, next, since) && Framed(w, flow.w) && Ended(flow, p, next)
  {
    hide Safe, PutBundle, Prune, Framed;
    ClearPending(w, p, next, since);
    PutKeeps(w, w.bun.(pending := None), p, next, since);
    var s1 := PutBundle(w, w.bun.(pending := None));
    if s1.Ok? {
      RecordFailure(s1.w, None, p, next, since);
      PutKeeps(s1.w, s1.w.bun.(failed := None), p, next, since);
      var s2 := PutBundle(s1.w, s1.w.bun.(failed := None));
      FramedTransitive(w, s1.w, s2.w);
      if s2.Ok? {
        PruneSafe(s2.w, p, next, since);
        FramedTransitive(w, s2.w, Prune(s2.w).w);
      }
    }
  }

  lemma RolledBackEnds(w: World, s: Step, p: PendingBundle, code: ErrorCode, next: AppliedBundle, since: Option<nat>)
    requires s.Err? && Framed(w, s.w) && Safe(s.w, p, next, since) && s.w.bun.pending == Some(p) && Unconfirmed(s.w)
    ensures var flow := OrRollback(s, p, Config.InUse(w.cfg), code);
            && Safe(flow.w, p, next, since) && Framed(w, flow.w) && Ended(flow, p, next)
  {
    FramedParts(w, s.w);
    hide Safe, Framed, RollbackResult, Unconfirmed;
    RollbackResultKeeps(s.w, p, code, next, since);
    FramedTransitive(w, s.w, RollbackResult(s.w, p, Config.InUse(s.w.cfg), code).w);
  }

  lemma RecordNextKeeps(w: World, p: PendingBundle, now: Clock, since: Option<nat>)
    requires Launched(w, p, Next(p, now), since) && Unconfirmed(w)
    requires p.previousTarget.Some? ==> w.bun.previous == p.previousTarget
    ensures var flow := RecordNext(w, p, Config.InUse(w.cfg), now);
            && Safe(flow.w, p, Next(p, now), since) && Framed(w, flow.w) && Ended(flow, p, Next(p, now))
  {
    var next := Next(p, now);
    hide Safe, PutBundle, RenameBundle, Finish, RollbackResult, Framed;
    var b := w.bun.(applied := Some(next));
    RecordApplied(w, p, next, since);
    PutLaunched(w, b, p, next, since);
    var s := PutApplied(w, next);
    if s.Ok? {
      FinishKeeps(s.w, p, next, since);
      FramedTransitive(w, s.w, Finish(s.w, next).w);
    } else if s.Err? {
      assert s.w.lossy == w.lossy by { FramedParts(w, s.w); }
      RolledBackEnds(w, s, p, PersistenceFailed, next, since);
    }
  }

  lemma CommitKeeps(w: World, p: PendingBundle, now: Clock, since: Option<nat>)
    requires Launched(w, p, Next(p, now), since) && Unconfirmed(w)
    ensures var flow := Commit(w, p, Config.InUse(w.cfg), now);
            && Safe(flow.w, p, Next(p, now), since) && Framed(w, flow.w) && Ended(flow, p, Next(p, now))
  {
    var next := Next(p, now);
    hide Safe, PutBundle, RecordNext, RollbackResult, Framed;
    if p.previousTarget.Some? {
      var b := w.bun.(previous := p.previousTarget);
      RecordPrevious(w, p, next, since);
      PutLaunched(w, b, p, next, since);
      var s := PutBundle(w, b);
      FramedParts(w, s.w);
      if s.Ok? {
        RecordNextKeeps(s.w, p, now, since);
        FramedTransitive(w, s.w, RecordNext(s.w, p, Config.InUse(w.cfg), now).w);
      } else if s.Err? {
        RolledBackEnds(w, s, p, PersistenceFailed, next, since);
      }
    } else {
      RecordNextKeeps(w, p, now, since);
    }
  }

  /** The restarted candidate, or the selected one when there is nothing to serve. */
  lemma StartedIsLaunched(w: World, p: PendingBundle, next: AppliedBundle, since: Option<nat>)
    requires Safe(w, p, next, since) && w.bun.pending == Some(p) && w.bun.current == Some(p.target)
    requires Config.InUse(w.cfg) ==>
               var start := Start(ActivePath(w.bun), w.cfg.current);
               w.process == Running(start) && |w.starts| > 0 && (since.Some? ==> |w.starts| > since.value) && w.starts[|w.starts| - 1] == start
    ensures Launched(w, p, next, since)
  {
    hide Invariant, Txn;
    if Config.InUse(w.cfg) {
      assert w.starts[|w.starts| - 1].binary == Managed(Some(p.target));
    }
  }

  lemma LaunchKeeps(w: World, p: PendingBundle, now: Clock, since: Option<nat>)
    requires Safe(w, p, Next(p, now), since) && w.bun.pending == Some(p) && Unconfirmed(w) && (since.Some? ==> since.value <= |w.starts|)
    ensures var flow := Launch(w, p, Config.InUse(w.cfg), now);
            && Safe(flow.w, p, Next(p, now), since) && Framed(w, flow.w) && Ended(flow, p, Next(p, now))
  {
    var next, hasConfig := Next(p, now), Config.InUse(w.cfg);
    hide Safe, PutBundle, Restart, Commit, RollbackResult, Framed;
    var b := w.bun.(current := Some(p.target));
    Select(w, p, next, since);
    PutKeeps(w, b, p, next, since);
    var s1 := PutBundle(w, b);
    FramedParts(w, s1.w);
    if s1.Ok? {
      if hasConfig {
        RestartKeeps(s1.w, p, next, since);
        var s2 := Restart(s1.w);
        FramedParts(s1.w, s2.w);
        FramedTransitive(w, s1.w, s2.w);
        if s2.Ok? {
          StartedIsLaunched(s2.w, p, next, since);
          CommitKeeps(s2.w, p, now, since);
          FramedTransitive(w, s2.w, Commit(s2.w, p, hasConfig, now).w);
        } else if s2.Err? {
          RolledBackEnds(w, s2, p, ActivationFailed, next, since);
        }
      } else {
        StartedIsLaunched(s1.w, p, next, since);
        CommitKeeps(s1.w, p, now, since);
        FramedTransitive(w, s1.w, Commit(s1.w, p, hasConfig, now).w);
      }
    } else if s1.Err? {
      RolledBackEnds(w, s1, p, PersistenceFailed, next, since);
    }
  }

  // ---------------------------------------------------------------- from a settled node

  /** The attempt fits the settled node; in particular it never replaces a bundle by itself. */
  ghost predicate Prepared(w: World, p: PendingBundle, next: AppliedBundle) {
    && Invariant(w) && w.bun.pending.None? && Undone(w.bun, p) && SoundPendingBundle(w.bun, p) && Matches(next, p)
  }

  lemma PreparedIsSafe(w: World, p: PendingBundle, next: AppliedBundle)
    requires Prepared(w, p, next)
    ensures Safe(w, p, next, Some(|w.starts|))
    ensures Safe(w.(bun := w.bun.(pending := Some(p))), p, next, Some(|w.starts|))
    ensures Unconfirmed(w.(bun := w.bun.(pending := Some(p))))
  {
  }

  /** How an install ended, counting the ways it can end before anything is selected. */
  predicate Concluded(before: BundleFiles, flow: Flow<Result>, p: PendingBundle, next: AppliedBundle) {
    Ended(flow, p, next) ||
    (flow.Return? && (flow.r.Refused? || flow.r.Crashed?) && SameRecords(before, flow.w.bun))
  }

  lemma ActivateKeeps(w: World, p: PendingBundle, now: Clock)
    requires Prepared(w, p, Next(p, now))
    ensures var flow := Activate(w, p, Config.InUse(w.cfg), now);
            && Safe(flow.w, p, Next(p, now), Some(|w.starts|)) && Framed(w, flow.w) && Concluded(w.bun, flow, p, Next(p, now))
  {
    var next, since, hasConfig := Next(p, now), Some(|w.starts|), Config.InUse(w.cfg);
    hide Prepared, Safe, PutBundle, Stop, Launch, RollbackResult, Framed;
    PreparedIsSafe(w, p, next);
    var b := w.bun.(pending := Some(p));
    PutKeeps(w, b, p, next, since);
    var s1 := PutBundle(w, b);
    FramedParts(w, s1.w);
    if s1.Ok? {
      FramedReflexive(s1.w);
      if hasConfig { StopKeeps(s1.w, p, next, since); }
      var s2 := if hasConfig then Stop(s1.w) else s1;
      FramedTransitive(w, s1.w, s2.w);
      FramedParts(s1.w, s2.w);
      if s2.Ok? {
        StartsNotFewer(w, s2.w);
        LaunchKeeps(s2.w, p, now, since);
        FramedTransitive(w, s2.w, Launch(s2.w, p, hasConfig, now).w);
      } else if s2.Err? {
        RolledBackEnds(w, s2, p, ActivationFailed, next, since);
      }
    }
  }

  lemma StartsNotFewer(w: World, w': World)
    requires Framed(w, w')
    ensures |w.starts| <= |w'.starts|
  {
  }

  // ---------------------------------------------------------------- install

  /** The attempt that a release makes on a settled node. */
  function AttemptOf(b: BundleFiles, rel: Release, now: Clock): PendingBundle {
    PendingBundle(rel.commandId, b.current, b.applied, BundleTarget(rel.version, rel.digest),
                  rel.version, rel.xrayVersion, rel.digest, now.startedAt)
  }

  /** The release is already the applied one. */
  predicate Repeats(b: BundleFiles, rel: Release) {
    && b.applied.Some? && b.applied.value.version == rel.version && b.applied.value.xrayVersion == rel.xrayVersion
    && b.applied.value.digest == rel.digest && b.applied.value.target == BundleTarget(rel.version, rel.digest)
  }

  predicate ValidRelease(rel: Release) {
    rel.commandId != "" && |rel.commandId| <= 256 && ValidVersion(rel.version) && ValidVersion(rel.xrayVersion)
  }

  lemma SettledFacts(w: World)
    requires Invariant(w) && w.bun.pending.None?
    ensures BundleSettled(w.bun)
    ensures w.bun.applied.Some? ==> LoadApplied(w.bun) == Found(w.bun.applied.value) && VerifyApplied(w.bun, w.bun.applied.value)
  {
  }

  /** With a settled configuration side the applied configuration is the one in use. */
  lemma SettledConfig(w: World)
    requires Invariant(w) && w.cfg.pending.None?
    ensures Config.InUse(w.cfg) <==> w.cfg.applied.Some?
    ensures !Config.LoadCurrent(w.cfg).Invalid?
  {
  }

  lemma InstallBundleKeeps(w: World, rel: Release, now: Clock)
    requires Invariant(w) && ValidRelease(rel)
    ensures var i := InstallBundle(w, rel, now);
            && Invariant(i.w) && StoreMoved(w, i.w)
            && (i.Unpacked? ==>
                  && i.target == BundleTarget(rel.version, rel.digest) && i.target in i.w.bun.versions
                  && i.w.bun.versions[i.target].xrayVersion == rel.xrayVersion)
            && (i.NotUnpacked? ==> i.r.Refused? || i.r.Crashed?)
  {
    var t := BundleTarget(rel.version, rel.digest);
    StoreMovedReflexive(w);
    if t !in w.bun.versions {
      var d := BundleDirectory(rel.version, rel.xrayVersion, rel.digest, true, now.mtime);
      var w1 := Check(w).w;
      StoreCheck(w);
      RememberSound(w1.bun, t, d);
      hide Invariant, BundleSound, PutBundle, Check, StoreMoved;
      var b := w1.bun.(versions := w1.bun.versions[t := d]);
      StoreStep(w1, b);
      StoreMovedTransitive(w, w1, PutBundle(w1, b).w);
    }
  }

  lemma SettledIsSafe(w: World, w': World, rel: Release, now: Clock)
    requires Invariant(w') && StoreMoved(w, w') && w.bun.pending.None? && BundleSettled(w.bun) && !Repeats(w.bun, rel)
    ensures var p := AttemptOf(w.bun, rel, now);
            Safe(w', p, Next(p, now), Some(|w.starts|)) && Framed(w, w') && SameRecords(w.bun, w'.bun)
  {
  }

  /** A whole bundle under the target's name is the applied one only if the release repeats it. */
  lemma AttemptIsPrepared(w: World, w': World, rel: Release, now: Clock)
    requires Invariant(w') && StoreMoved(w, w') && w.bun.pending.None? && ValidRelease(rel) && !Repeats(w.bun, rel)
    requires var t := BundleTarget(rel.version, rel.digest);
             t in w'.bun.versions && w'.bun.versions[t].xrayVersion == rel.xrayVersion
    ensures Prepared(w', AttemptOf(w.bun, rel, now), Next(AttemptOf(w.bun, rel, now), now))
  {
  }

  lemma BeginKeeps(w: World, rel: Release, now: Clock)
    requires Invariant(w) && w.bun.pending.None? && ValidRelease(rel) && !Repeats(w.bun, rel)
    requires var t := BundleTarget(rel.version, rel.digest);
             t in w.bun.versions && w.bun.versions[t].xrayVersion == rel.xrayVersion
    ensures var p := AttemptOf(w.bun, rel, now);
            var flow := Begin(w, rel, p.target, w.bun.current, w.bun.applied, now);
            && Safe(flow.w, p, Next(p, now), Some(|w.starts|)) && Framed(w, flow.w) && Concluded(w.bun, flow, p, Next(p, now))
  {
    var p, hasConfig := AttemptOf(w.bun, rel, now), Config.InUse(w.cfg);
    hide Invariant, Safe, Prepared, StoreMoved, Framed, Check, Activate, Ended, BundleSettled, Repeats;
    SettledFacts(w);
    StoreMovedReflexive(w);
    StoreCheck(w);
    var w1 := if hasConfig then Check(w).w else w;
    MovedFacts(w, w1);
    SettledIsSafe(w, w1, rel, now);
    StoreCheck(w1);
    var w2 := if hasConfig then Check(w1).w else w1;
    StoreMovedTransitive(w, if hasConfig then w1 else w, w2);
    MovedFacts(w, w2);
    SettledIsSafe(w, w2, rel, now);
    AttemptIsPrepared(w, w2, rel, now);
    ActivateKeeps(w2, p, now);
    FramedTransitive(w, w2, Activate(w2, p, hasConfig, now).w);
  }

  lemma ConfirmAgainKeeps(w: World, a: AppliedBundle)
    requires Invariant(w) && w.bun.pending.None?
    ensures var flow := ConfirmAgain(w, a);
            && flow.Return? && Invariant(flow.w) && Framed(w, flow.w)
            && SameRecords(w.bun.(failed := flow.w.bun.failed), flow.w.bun)
            && (flow.r.Installed? ==> flow.r.state == a) && !flow.r.RolledBackTo?
  {
    hide Invariant, PutBundle, Prune, Framed, StoreMoved, BundleSound;
    var b := w.bun.(failed := None);
    FailureStep(w, b);
    var s := PutBundle(w, b);
    if s.Ok? {
      PruneKeeps(s.w);
      MovedFacts(s.w, Prune(s.w).w);
      FramedTransitive(w, s.w, Prune(s.w).w);
    }
  }

  lemma FailureStep(w: World, b: BundleFiles)
    requires Invariant(w) && b == w.bun.(failed := None)
    ensures Invariant(PutBundle(w, b).w) && Wrote(w, b, PutBundle(w, b)) && Framed(w, PutBundle(w, b).w)
  {
    assert BundleSound(b);
    hide Invariant, BundleSound;
    RecordsDecide(w, b);
    Keeps(w, b);
    Writes(w, b);
  }

  /** From the unpacked candidate of a settled node. */
  lemma UnpackedKeeps(w: World, rel: Release, now: Clock)
    requires Invariant(w) && w.bun.pending.None? && ValidRelease(rel) && !Repeats(w.bun, rel)
    requires var t := BundleTarget(rel.version, rel.digest);
             t in w.bun.versions && w.bun.versions[t].xrayVersion == rel.xrayVersion
    ensures var p := AttemptOf(w.bun, rel, now);
            var flow := InstallUnpacked(w, rel, p.target, now);
            && Safe(flow.w, p, Next(p, now), Some(|w.starts|)) && Framed(w, flow.w) && Concluded(w.bun, flow, p, Next(p, now))
  {
    hide Invariant, Safe, StoreMoved, Framed, Begin, Ended, VerifyApplied;
    SettledFacts(w);
    StoreMovedReflexive(w);
    SettledIsSafe(w, w, rel, now);
    BeginKeeps(w, rel, now);
  }

  /** A release that is not already applied, on a settled node: all or nothing, whatever happens. */
  lemma InstallFresh(w: World, rel: Release, now: Clock)
    requires Invariant(w) && w.bun.pending.None? && !Repeats(w.bun, rel)
    ensures var p := AttemptOf(w.bun, rel, now);
            var flow := Install(w, rel, now);
            && Safe(flow.w, p, Next(p, now), Some(|w.starts|)) && Framed(w, flow.w) && Concluded(w.bun, flow, p, Next(p, now))
  {
    var p := AttemptOf(w.bun, rel, now);
    hide Invariant, Safe, StoreMoved, Framed, Prune, InstallBundle, Check, InstallUnpacked, Ended, BundleSettled, Repeats;
    SettledFacts(w);
    StoreMovedReflexive(w);
    SettledIsSafe(w, w, rel, now);
    PruneKeeps(w);
    var w1 := Prune(w).w;
    SettledIsSafe(w, w1, rel, now);
    if Prune(w).Ok? && ValidRelease(rel) {
      InstallBundleKeeps(w1, rel, now);
      var i := InstallBundle(w1, rel, now);
      StoreMovedTransitive(w, w1, i.w);
      SettledIsSafe(w, i.w, rel, now);
      if i.Unpacked? {
        StoreCheck(i.w);
        var w3 := Check(i.w).w;
        StoreMovedTransitive(w, i.w, w3);
        SettledIsSafe(w, w3, rel, now);
        MovedFacts(w, w3);
        if Check(i.w).Ok? {
          RepeatsOnRecords(w.bun, w3.bun, rel);
          UnpackedKeeps(w3, rel, now);
          FramedTransitive(w, w3, InstallUnpacked(w3, rel, p.target, now).w);
        }
      }
    }
  }

  lemma RepeatsOnRecords(b: BundleFiles, d: BundleFiles, rel: Release)
    requires SameRecords(b, d)
    ensures Repeats(b, rel) == Repeats(d, rel)
  {
  }

  /** Installing the applied release again changes at most the failure record and the store. */
  lemma InstallRepeat(w: World, rel: Release, now: Clock)
    requires Invariant(w) && w.bun.pending.None? && Repeats(w.bun, rel)
    ensures var flow := Install(w, rel, now);
            && flow.Return? && Invariant(flow.w) && Framed(w, flow.w)
            && SameRecords(w.bun.(failed := flow.w.bun.failed), flow.w.bun)
            && (flow.r.Installed? ==> flow.r.state == w.bun.applied.value) && !flow.r.RolledBackTo?
  {
    hide Invariant, StoreMoved, Framed, Prune, InstallBundle, Check, ConfirmAgain, BundleSettled, VerifyApplied, ValidApplied;
    FramedReflexive(w);
    PruneKeeps(w);
    var w1 := Prune(w).w;
    MovedFacts(w, w1);
    if Prune(w).Ok? && ValidRelease(rel) {
      InstallBundleKeeps(w1, rel, now);
      var i := InstallBundle(w1, rel, now);
      StoreMovedTransitive(w, w1, i.w);
      MovedFacts(w, i.w);
      if i.Unpacked? {
        StoreCheck(i.w);
        var w3 := Check(i.w).w;
        StoreMovedTransitive(w, i.w, w3);
        MovedFacts(w, w3);
        if Check(i.w).Ok? {
          SettledFacts(w3);
          ConfirmAgainKeeps(w3, w3.bun.applied.value);
          FramedTransitive(w, w3, ConfirmAgain(w3, w3.bun.applied.value).w);
        }
      }
    }
  }

  /** While an update is pending an install changes nothing at all. */
  lemma InstallBlocked(w: World, rel: Release, now: Clock)
    requires w.bun.pending.Some?
    ensures Install(w, rel, now).Return? && Install(w, rel, now).w == w && Install(w, rel, now).r.Refused?
  {
    hide Prune, InstallBundle;
  }

  lemma InstallKeeps(w: World, rel: Release, now: Clock)
    requires Invariant(w)
    ensures var flow := Install(w, rel, now);
            flow.Return? && Invariant(flow.w) && Framed(w, flow.w)
  {
    hide Invariant, Framed, Install, Repeats;
    FramedReflexive(w);
    if w.bun.pending.Some? { InstallBlocked(w, rel, now); }
    else if Repeats(w.bun, rel) { InstallRepeat(w, rel, now); }
    else { InstallFresh(w, rel, now); }
  }
}
