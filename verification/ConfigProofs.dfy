/** The configuration side keeps the invariant, and an apply is all-or-nothing. */
module ConfigProofs {
  import opened Common
  import opened ConfigNames
  import opened NodeState
  import opened ConfigActivation
  import opened NodeInvariant
  import opened Retention

  // ---------------------------------------------------------------- what a transaction may leave

  predicate Undone(c: ConfigFiles, p: PendingConfig) {
    c.current == p.previousTarget && c.applied == p.previousApplied
  }

  predicate Confirmed(c: ConfigFiles, p: PendingConfig, next: AppliedConfig) {
    c.current == Some(p.command) && c.applied == Some(next)
  }

  /** `failed` describes the attempt `p`. */
  predicate FailureOf(c: ConfigFiles, p: PendingConfig) {
    c.failed.Some? && c.failed.value.version == p.version && c.failed.value.digest == p.digest
  }

  /** Attempt `p` is still pending, or it left one of its two ends, the new one only after a healthy start. */
  ghost predicate Txn(w: World, p: PendingConfig, next: AppliedConfig, since: nat) {
    && Matches(next, p)
    && (match w.cfg.pending
        case Some(q) => q == p && (w.cfg.applied == p.previousApplied || w.cfg.applied == Some(next))
        case None => Undone(w.cfg, p) || Confirmed(w.cfg, p, next))
    && (w.cfg.applied == Some(next) ==> StartedSince(w.starts, p.command, since))
  }

  ghost predicate Safe(w: World, p: PendingConfig, next: AppliedConfig, since: nat) {
    Invariant(w) && Txn(w, p, next, since)
  }

  /** The configuration operations never touch bundle files, and only extend the start log. */
  predicate Framed(w: World, w': World) {
    w'.bun == w.bun && w'.lossy == w.lossy && w.starts <= w'.starts
  }

  lemma FramedTransitive(a: World, b: World, c: World)
    requires Framed(a, b) && Framed(b, c)
    ensures Framed(a, c)
  {
  }

  // ---------------------------------------------------------------- steps

  lemma FatesIrrelevant(w: World, f: seq<Fate>)
    requires Invariant(w)
    ensures Invariant(w.(fates := f))
  {
  }

  /** A writing step leaves the old files or the new ones, and nothing else changes. */
  predicate Wrote(w: World, c: ConfigFiles, s: Step) {
    && (s.w == w.(fates := s.w.fates) || s.w == w.(cfg := c, fates := s.w.fates))
    && (s.Ok? ==> s.w == w.(cfg := c, fates := s.w.fates))
  }

  lemma Writes(w: World, c: ConfigFiles)
    ensures Wrote(w, c, Put(w, c)) && Wrote(w, c, Rename(w, c))
    ensures Framed(w, Put(w, c).w) && Framed(w, Rename(w, c).w)
    ensures !Rename(w, c).Ok? ==> Rename(w, c).w == w.(fates := Rename(w, c).w.fates)
  {
  }

  lemma Keeps(w: World, c: ConfigFiles)
    requires Invariant(w) && Invariant(w.(cfg := c))
    ensures Invariant(Put(w, c).w) && Invariant(Rename(w, c).w)
  {
    Writes(w, c);
    FatesIrrelevant(w, Put(w, c).w.fates);
    FatesIrrelevant(w.(cfg := c), Put(w, c).w.fates);
    FatesIrrelevant(w, Rename(w, c).w.fates);
    FatesIrrelevant(w.(cfg := c), Rename(w, c).w.fates);
  }

  lemma PutKeeps(w: World, c: ConfigFiles, p: PendingConfig, next: AppliedConfig, since: nat)
    requires Safe(w, p, next, since) && Safe(w.(cfg := c), p, next, since)
    ensures Safe(Put(w, c).w, p, next, since) && Wrote(w, c, Put(w, c)) && Framed(w, Put(w, c).w)
  {
    Writes(w, c);
    Keeps(w, c);
  }

  lemma RenameKeeps(w: World, c: ConfigFiles, p: PendingConfig, next: AppliedConfig, since: nat)
    requires Safe(w, p, next, since) && Safe(w.(cfg := c), p, next, since)
    ensures Safe(Rename(w, c).w, p, next, since) && Wrote(w, c, Rename(w, c)) && Framed(w, Rename(w, c).w)
  {
    Writes(w, c);
    Keeps(w, c);
  }

  /** A check changes nothing but the script. */
  predicate Same(w: World, s: Step) { s.w == w.(fates := s.w.fates) }

  lemma CheckKeeps(w: World, p: PendingConfig, next: AppliedConfig, since: nat)
    requires Safe(w, p, next, since)
    ensures Safe(Check(w).w, p, next, since) && Framed(w, Check(w).w) && Same(w, Check(w))
  {
    FatesIrrelevant(w, Check(w).w.fates);
    hide Invariant;
  }

  lemma ProcessMoves(w: World, process: Process, starts: seq<Start>)
    requires Invariant(w) && w.starts <= starts
    requires w.cfg.pending.Some? && !ConfigReady(w.cfg)
    requires process.Running? ==> |starts| > 0 && starts[|starts| - 1] == process.start
    ensures Invariant(w.(process := process, starts := starts))
  {
    forall t, since: nat | StartedSince(w.starts, t, since) ensures StartedSince(starts, t, since) {
      var k :| since <= k < |w.starts| && w.starts[k].config == Some(t);
      assert starts[k] == w.starts[k];
    }
  }

  lemma StopKeeps(w: World, p: PendingConfig, next: AppliedConfig, since: nat)
    requires Safe(w, p, next, since) && w.cfg.pending.Some? && !ConfigReady(w.cfg)
    ensures var s := Stop(w);
            && Safe(s.w, p, next, since) && Framed(w, s.w) && s.w.cfg == w.cfg
            && (s.Ok? ==> s.w.process == Stopped)
  {
    var s := Stop(w);
    ProcessMoves(w, s.w.process, s.w.starts);
    FatesIrrelevant(w.(process := s.w.process), s.w.fates);
  }

  lemma StartsGrow(a: seq<Start>, b: seq<Start>, t: ConfigTarget, since: nat)
    requires a <= b && StartedSince(a, t, since)
    ensures StartedSince(b, t, since)
  {
    var k :| since <= k < |a| && a[k].config == Some(t);
    assert b[k] == a[k];
  }

  lemma RestartKeeps(w: World, p: PendingConfig, next: AppliedConfig, since: nat)
    requires Safe(w, p, next, since) && w.cfg.pending.Some? && !ConfigReady(w.cfg)
    ensures var s := Restart(w);
            && Safe(s.w, p, next, since) && Framed(w, s.w) && s.w.cfg == w.cfg
            && (s.Ok? ==> s.w.process == Running(Start(ActivePath(w.bun), w.cfg.current)))
            && (s.Ok? ==> s.w.starts == w.starts + [Start(ActivePath(w.bun), w.cfg.current)])
  {
    var s := Restart(w);
    ProcessMoves(w, s.w.process, s.w.starts);
    FatesIrrelevant(w.(process := s.w.process, starts := s.w.starts), s.w.fates);
    if w.cfg.applied == Some(next) {
      StartsGrow(w.starts, s.w.starts, p.command, since);
    }
  }

  // ---------------------------------------------------------------- transitions of a rollback

  lemma Deselect(w: World, p: PendingConfig, next: AppliedConfig, since: nat)
    requires Safe(w, p, next, since) && w.cfg.pending == Some(p)
    ensures Safe(w.(cfg := w.cfg.(current := p.previousTarget)), p, next, since)
    ensures !ConfigReady(w.cfg.(current := p.previousTarget))
  {
  }

  lemma RestoreApplied(w: World, p: PendingConfig, next: AppliedConfig, since: nat)
    requires Safe(w, p, next, since) && w.cfg.pending == Some(p) && w.cfg.current == p.previousTarget
    ensures Safe(w.(cfg := w.cfg.(applied := p.previousApplied)), p, next, since)
    ensures !ConfigReady(w.cfg.(applied := p.previousApplied))
  {
  }

  /** The invariant of the node reads the configuration through its pair, its pending record and its soundness. */
  lemma RecordsDecide(w: World, c: ConfigFiles)
    requires Invariant(w) && ConfigSound(c)
    requires c.current == w.cfg.current && c.applied == w.cfg.applied && c.pending == w.cfg.pending
    ensures Invariant(w.(cfg := c))
  {
  }

  lemma FailureIrrelevant(w: World, f: Option<ConfigFailure>)
    requires Invariant(w)
    ensures Invariant(w.(cfg := w.cfg.(failed := f)))
  {
    RecordsDecide(w, w.cfg.(failed := f));
  }

  lemma RecordFailure(w: World, f: Option<ConfigFailure>, p: PendingConfig, next: AppliedConfig, since: nat)
    requires Safe(w, p, next, since)
    ensures Safe(w.(cfg := w.cfg.(failed := f)), p, next, since)
  {
    FailureIrrelevant(w, f);
    hide Invariant;
  }

  /** The process a rolled-back configuration leaves running. */
  function Restored(w: World, p: PendingConfig): Process {
    if p.previousTarget.None? then Stopped else Running(Start(ActivePath(w.bun), p.previousTarget))
  }

  lemma CloseRolledBack(w: World, p: PendingConfig, next: AppliedConfig, since: nat)
    requires Safe(w, p, next, since) && w.cfg.pending == Some(p) && Undone(w.cfg, p)
    requires w.process == Restored(w, p)
    ensures Safe(w.(cfg := w.cfg.(pending := None)), p, next, since)
  {
  }

  // ---------------------------------------------------------------- rollback

  /** Rolling back ends with the record still there, or with the old pair and a failure record. */
  predicate RolledBackOrPending(s: Step, p: PendingConfig) {
    && (s.w.cfg.pending == Some(p) ||
        (s.w.cfg.pending.None? && Undone(s.w.cfg, p) && FailureOf(s.w.cfg, p) && s.w.cfg.failed.value.recovery == RolledBack))
    && (s.Ok? ==> s.w.cfg.pending.None?)
  }

  lemma RecordKeeps(w: World, p: PendingConfig, code: ErrorCode, next: AppliedConfig, since: nat)
    requires Safe(w, p, next, since) && w.cfg.pending == Some(p) && Undone(w.cfg, p)
    requires w.process == Restored(w, p)
    ensures var s := RecordRollback(w, p, code);
            Safe(s.w, p, next, since) && Framed(w, s.w) && RolledBackOrPending(s, p)
  {
    hide Safe, Put, Framed;
    var f := Some(ConfigFailure(p.version, p.digest, code, RolledBack));
    RecordFailure(w, f, p, next, since);
    PutKeeps(w, w.cfg.(failed := f), p, next, since);
    var s := Put(w, w.cfg.(failed := f));
    if s.Ok? {
      CloseRolledBack(s.w, p, next, since);
      PutKeeps(s.w, s.w.cfg.(pending := None), p, next, since);
      FramedTransitive(w, s.w, RecordRollback(w, p, code).w);
    }
  }

  lemma RollbackInitialKeeps(w: World, p: PendingConfig, code: ErrorCode, next: AppliedConfig, since: nat)
    requires Safe(w, p, next, since) && w.cfg.pending == Some(p) && p.previousTarget.None? && p.previousApplied.None?
    ensures var s := Rollback(w, p, code);
            Safe(s.w, p, next, since) && Framed(w, s.w) && RolledBackOrPending(s, p)
  {
    hide Safe, RecordRollback, RollbackApplied, Put, Stop, Framed, ConfigReady;
    Deselect(w, p, next, since);
    PutKeeps(w, w.cfg.(current := None), p, next, since);
    var s1 := Put(w, w.cfg.(current := None));
    if s1.Ok? {
      RestoreApplied(s1.w, p, next, since);
      PutKeeps(s1.w, s1.w.cfg.(applied := None), p, next, since);
      var s2 := Put(s1.w, s1.w.cfg.(applied := None));
      FramedTransitive(w, s1.w, s2.w);
      if s2.Ok? {
        StopKeeps(s2.w, p, next, since);
        var s3 := Stop(s2.w);
        FramedTransitive(w, s2.w, s3.w);
        if s3.Ok? {
          RecordKeeps(s3.w, p, code, next, since);
          FramedTransitive(w, s3.w, RecordRollback(s3.w, p, code).w);
        }
      }
    }
  }

  lemma RollbackPreviousKeeps(w: World, p: PendingConfig, a: AppliedConfig, code: ErrorCode, next: AppliedConfig, since: nat)
    requires Safe(w, p, next, since) && w.cfg.pending == Some(p) && p.previousTarget.Some?
    requires RollbackApplied(w.cfg, p) == Some(a) == p.previousApplied
    ensures var s := Rollback(w, p, code);
            Safe(s.w, p, next, since) && Framed(w, s.w) && RolledBackOrPending(s, p)
  {
    hide Safe, RecordRollback, RollbackApplied, Put, Rename, Check, Restart, Framed, ConfigReady;
    Deselect(w, p, next, since);
    RenameKeeps(w, w.cfg.(current := p.previousTarget), p, next, since);
    var s1 := Rename(w, w.cfg.(current := p.previousTarget));
    if s1.Ok? {
      RestoreApplied(s1.w, p, next, since);
      PutKeeps(s1.w, s1.w.cfg.(applied := Some(a)), p, next, since);
      var s2 := Put(s1.w, s1.w.cfg.(applied := Some(a)));
      FramedTransitive(w, s1.w, s2.w);
      if s2.Ok? {
        CheckKeeps(s2.w, p, next, since);
        var s3 := Check(s2.w);
        FramedTransitive(w, s2.w, s3.w);
        if s3.Ok? {
          RestartKeeps(s3.w, p, next, since);
          var s4 := Restart(s3.w);
          FramedTransitive(w, s3.w, s4.w);
          if s4.Ok? {
            RecordKeeps(s4.w, p, code, next, since);
            FramedTransitive(w, s4.w, RecordRollback(s4.w, p, code).w);
          }
        }
      }
    }
  }

  lemma RollbackKeeps(w: World, p: PendingConfig, code: ErrorCode, next: AppliedConfig, since: nat)
    requires Safe(w, p, next, since) && w.cfg.pending == Some(p)
    ensures var s := Rollback(w, p, code);
            Safe(s.w, p, next, since) && Framed(w, s.w) && RolledBackOrPending(s, p)
  {
    if p.previousTarget.None? {
      assert p.previousApplied.None?;
      RollbackInitialKeeps(w, p, code, next, since);
    } else {
      assert RollbackApplied(w.cfg, p) == p.previousApplied && p.previousApplied.Some?;
      RollbackPreviousKeeps(w, p, p.previousApplied.value, code, next, since);
    }
  }

  /** The failed status is overwritten only when removing the record succeeded and was reported as an error. */
  lemma RollbackResultKeeps(w: World, p: PendingConfig, code: ErrorCode, next: AppliedConfig, since: nat)
    requires Safe(w, p, next, since) && w.cfg.pending == Some(p)
    ensures var flow := RollbackResult(w, p, code);
            && flow.Return? && Safe(flow.w, p, next, since) && Framed(w, flow.w)
            && (flow.w.cfg.pending == Some(p) || (flow.w.cfg.pending.None? && Undone(flow.w.cfg, p) && FailureOf(flow.w.cfg, p)))
            && (flow.r.RolledBackTo? ==> flow.w.cfg.pending.None? && flow.w.cfg.failed.value.recovery == RolledBack)
            && (flow.r.RolledBackTo? || flow.r.Crashed? || flow.r == Refused(RecoveryFailed, Failed))
  {
    RollbackKeeps(w, p, code, next, since);
    hide Safe, Rollback, Put, Framed;
    var s := Rollback(w, p, code);
    if s.Err? {
      var f := Some(ConfigFailure(p.version, p.digest, code, Failed));
      RecordFailure(s.w, f, p, next, since);
      PutKeeps(s.w, s.w.cfg.(failed := f), p, next, since);
      FramedTransitive(w, s.w, Put(s.w, s.w.cfg.(failed := f)).w);
    }
  }

  // ---------------------------------------------------------------- confirming

  lemma ClearPending(w: World, p: PendingConfig, next: AppliedConfig, since: nat)
    requires Safe(w, p, next, since) && w.cfg.pending == Some(p) && Confirmed(w.cfg, p, next)
    ensures Safe(w.(cfg := w.cfg.(pending := None)), p, next, since)
  {
  }

  /** The two removals that confirm an attempt. */
  lemma ConfirmKeeps(w: World, p: PendingConfig, next: AppliedConfig, since: nat)
    requires Safe(w, p, next, since) && w.cfg.pending == Some(p) && Confirmed(w.cfg, p, next)
    requires LoadPending(w.cfg) == Found(p)
    ensures var s := ConfirmApplied(w, next);
            && Safe(s.w, p, next, since) && Framed(w, s.w) && Confirmed(s.w.cfg, p, next)
            && (s.w.cfg.pending == Some(p) || s.w.cfg.pending.None?)
            && (s.Ok? ==> s.w.cfg.pending.None? && s.w.cfg.failed.None?)
  {
    assert Matches(next, p);
    hide Safe, Put, Framed, LoadPending, Matches;
    ClearPending(w, p, next, since);
    PutKeeps(w, w.cfg.(pending := None), p, next, since);
    var s := Put(w, w.cfg.(pending := None));
    if s.Ok? {
      RecordFailure(s.w, None, p, next, since);
      PutKeeps(s.w, s.w.cfg.(failed := None), p, next, since);
      FramedTransitive(w, s.w, ConfirmApplied(w, next).w);
    }
  }

  /** An interrupted attempt recovers to one of its ends; nil means it got there. */
  lemma RecoverKeeps(w: World, p: PendingConfig, next: AppliedConfig, since: nat)
    requires Safe(w, p, next, since)
    ensures var flow := Recover(w);
            && flow.Return? && Safe(flow.w, p, next, since) && Framed(w, flow.w)
            && (flow.r.Recovered? ==> flow.w.cfg.pending.None?)
            && (w.cfg.pending.None? ==> flow.w == w)
            && (w.cfg.pending.Some? && flow.w.cfg.pending.None? ==>
                  Confirmed(flow.w.cfg, p, next) || (Undone(flow.w.cfg, p) && FailureOf(flow.w.cfg, p)))
  {
    hide Safe, Framed, ConfirmApplied, RollbackResult, LoadPending, LoadApplied, Matches, VerifyApplied;
    FramedReflexive(w);
    if w.cfg.pending.Some? {
      PendingVerify(w, p, next, since);
      var applied := LoadApplied(w.cfg);
      if applied.Found? && Matches(applied.value, p) && VerifyApplied(w.cfg, applied.value) {
        ConfirmKeeps(w, p, next, since);
      } else {
        RollbackResultKeeps(w, p, PreparationFailed, next, since);
      }
    } else {
      NothingPending(w);
    }
  }

  lemma NothingPending(w: World)
    requires w.cfg.pending.None?
    ensures Recover(w) == Return(w, Recovered)
  {
  }

  /** With attempt `p` pending, the applied record that verifies is the one `p` would confirm, or it does not match `p`. */
  lemma PendingVerify(w: World, p: PendingConfig, next: AppliedConfig, since: nat)
    requires Safe(w, p, next, since) && w.cfg.pending.Some?
    ensures w.cfg.pending == Some(p) && LoadPending(w.cfg) == Found(p)
    ensures LoadApplied(w.cfg) == if w.cfg.applied.Some? then Found(w.cfg.applied.value) else Missing
    ensures w.cfg.applied.Some? && Matches(w.cfg.applied.value, p) ==> w.cfg.applied == Some(next)
    ensures w.cfg.applied.Some? && Matches(w.cfg.applied.value, p) && VerifyApplied(w.cfg, w.cfg.applied.value) ==> Confirmed(w.cfg, p, next)
  {
  }

  /** Any pending attempt of an invariant world is a transaction of its own. */
  function NextOf(w: World, p: PendingConfig): AppliedConfig {
    if w.cfg.applied.Some? && Matches(w.cfg.applied.value, p) then w.cfg.applied.value
    else AppliedConfig(p.version, p.digest, p.command, 1)
  }

  lemma AnyPendingIsSafe(w: World, p: PendingConfig)
    requires Invariant(w) && w.cfg.pending == Some(p)
    ensures Safe(w, p, NextOf(w, p), 0)
  {
  }

  // ---------------------------------------------------------------- retention and new versions

  /** Only the version store, the candidate and the verdict may differ. */
  predicate SameRecords(c: ConfigFiles, d: ConfigFiles) {
    c.current == d.current && c.previous == d.previous && c.applied == d.applied && c.pending == d.pending && c.failed == d.failed
  }

  lemma TxnOnRecords(w: World, w': World, p: PendingConfig, next: AppliedConfig, since: nat)
    requires Txn(w, p, next, since) && SameRecords(w.cfg, w'.cfg) && w'.starts == w.starts
    ensures Txn(w', p, next, since)
  {
  }

  lemma ForgetSound(c: ConfigFiles, t: ConfigTarget)
    requires ConfigSound(c) && t !in Protected(c)
    ensures ConfigSound(c.(versions := c.versions - {t}))
  {
  }

  lemma RememberSound(c: ConfigFiles, t: ConfigTarget, f: VersionFile)
    requires ConfigSound(c) && t.version > 0 && f.safe && f.content.sha == t.digest
    ensures ConfigSound(c.(versions := c.versions[t := f]))
  {
  }

  /** `w` became `w'` by reading, deleting and adding versions only. */
  predicate StoreMoved(w: World, w': World) {
    w'.bun == w.bun && w'.lossy == w.lossy && w'.starts == w.starts && w'.process == w.process && SameRecords(w.cfg, w'.cfg)
  }

  lemma StoreMovedTransitive(a: World, b: World, c: World)
    requires StoreMoved(a, b) && StoreMoved(b, c)
    ensures StoreMoved(a, c) && Protected(a.cfg) == Protected(c.cfg)
  {
  }

  lemma StoreMovedRefl(w: World)
    ensures StoreMoved(w, w)
  {
  }

  lemma StoreStep(w: World, c: ConfigFiles)
    requires Invariant(w) && ConfigSound(c) && SameRecords(w.cfg, c)
    ensures Invariant(Put(w, c).w) && StoreMoved(w, Put(w, c).w) && (Put(w, c).Ok? ==> Put(w, c).w.cfg == c)
    ensures Invariant(Rename(w, c).w) && StoreMoved(w, Rename(w, c).w) && (Rename(w, c).Ok? ==> Rename(w, c).w.cfg == c)
    ensures Rename(w, c).w.cfg == w.cfg || Rename(w, c).w.cfg == c
  {
    RecordsDecide(w, c);
    Keeps(w, c);
    Writes(w, c);
    hide Invariant, ConfigSound;
  }

  lemma StoreCheck(w: World)
    requires Invariant(w)
    ensures Invariant(Check(w).w) && StoreMoved(w, Check(w).w) && Same(w, Check(w))
  {
    FatesIrrelevant(w, Check(w).w.fates);
    hide Invariant;
  }

  lemma {:induction false} DeleteKeeps(w: World, doomed: seq<Entry<ConfigTarget>>, removed: bool)
    requires Invariant(w)
    requires forall e <- doomed :: e.key !in Protected(w.cfg)
    ensures var s := Delete(w, doomed, removed);
            Invariant(s.w) && StoreMoved(w, s.w)
    decreases |doomed|
  {
    if doomed == [] {
      StoreCheck(w);
    } else {
      var t := doomed[0].key;
      assert doomed[0] in doomed;
      ForgetSound(w.cfg, t);
      var c := w.cfg.(versions := w.cfg.versions - {t});
      StoreStep(w, c);
      hide Invariant, Rename, StoreMoved, Protected;
      var s := Rename(w, c);
      if s.Ok? {
        StoreMovedTransitive(w, w, s.w) by { assert StoreMoved(w, w) by { StoreMovedRefl(w); } }
        DeleteKeeps(s.w, doomed[1..], true);
        StoreMovedTransitive(w, s.w, Delete(s.w, doomed[1..], true).w);
      }
    }
  }

  lemma PruneKeeps(w: World)
    requires Invariant(w)
    ensures Invariant(Prune(w).w) && StoreMoved(w, Prune(w).w)
  {
    var doomed := Doomed(Entries(w.cfg.versions), Protected(w.cfg), RETAINED_CONFIGS);
    forall e | e in doomed ensures e.key !in Protected(w.cfg) {
      DoomedExactly(Entries(w.cfg.versions), Protected(w.cfg), RETAINED_CONFIGS, e);
    }
    DeleteKeeps(w, doomed, false);
  }

  lemma WriteVersionKeeps(w: World, t: ConfigTarget, req: Request, now: Clock)
    requires Invariant(w) && t.version > 0 && req.config.sha == t.digest
    ensures var i := WriteVersion(w, t, req, now);
            && Invariant(i.w) && StoreMoved(w, i.w)
            && (i.Installed? ==> i.target == t && t in i.w.cfg.versions)
            && (i.NotInstalled? ==> i.r.Refused? || i.r.Crashed?)
  {
    var f := VersionFile(req.config, true, now.mtime);
    RememberSound(w.cfg, t, f);
    hide Invariant, ConfigSound, Put;
    StoreStep(w, w.cfg.(versions := w.cfg.versions[t := f]));
  }

  lemma InstallKeeps(w: World, req: Request, now: Clock)
    requires Invariant(w) && ValidRequest(req)
    ensures var i := InstallVersion(w, req, false, now);
            && Invariant(i.w) && StoreMoved(w, i.w)
            && (i.Installed? ==> i.target == ConfigTarget(req.version, req.digest, None) && i.target in i.w.cfg.versions)
            && (i.NotInstalled? ==> i.r.Refused? || i.r.Crashed?)
  {
    hide Invariant, StoreMoved, WriteVersion;
    StoreMovedRefl(w);
    WriteVersionKeeps(w, ConfigTarget(req.version, req.digest, None), req, now);
  }

  // ---------------------------------------------------------------- the forward path

  /** The candidate was restarted and nothing happened since. */
  ghost predicate Launched(w: World, p: PendingConfig, next: AppliedConfig, since: nat) {
    && Safe(w, p, next, since) && w.cfg.pending == Some(p) && w.cfg.current == Some(p.command)
    && w.process == Running(Start(ActivePath(w.bun), Some(p.command)))
    && StartedSince(w.starts, p.command, since)
  }

  lemma RecordPrevious(w: World, p: PendingConfig, next: AppliedConfig, since: nat)
    requires Launched(w, p, next, since) && p.previousTarget.Some?
    ensures Launched(w.(cfg := w.cfg.(previous := p.previousTarget)), p, next, since)
  {
  }

  lemma RecordApplied(w: World, p: PendingConfig, next: AppliedConfig, since: nat)
    requires Launched(w, p, next, since) && next.appliedAt > 0
    ensures Launched(w.(cfg := w.cfg.(applied := Some(next))), p, next, since)
  {
    assert StartedSince(w.starts, p.command, 0);
  }

  lemma LaunchedFates(w: World, f: seq<Fate>, p: PendingConfig, next: AppliedConfig, since: nat)
    requires Launched(w, p, next, since)
    ensures Launched(w.(fates := f), p, next, since)
  {
    FatesIrrelevant(w, f);
    hide Invariant;
  }

  lemma PutLaunched(w: World, c: ConfigFiles, p: PendingConfig, next: AppliedConfig, since: nat)
    requires Launched(w, p, next, since) && Launched(w.(cfg := c), p, next, since)
    ensures Launched(Put(w, c).w, p, next, since) && Wrote(w, c, Put(w, c)) && Framed(w, Put(w, c).w)
    ensures Launched(Rename(w, c).w, p, next, since) && Wrote(w, c, Rename(w, c)) && Framed(w, Rename(w, c).w)
  {
    Writes(w, c);
    hide Launched, Put, Rename;
    LaunchedFates(w, Put(w, c).w.fates, p, next, since);
    LaunchedFates(w.(cfg := c), Put(w, c).w.fates, p, next, since);
    LaunchedFates(w, Rename(w, c).w.fates, p, next, since);
    LaunchedFates(w.(cfg := c), Rename(w, c).w.fates, p, next, since);
  }

  /** How an operation on attempt `p` ended. */
  predicate Ended(flow: Flow<Result>, p: PendingConfig, next: AppliedConfig) {
    && flow.Return?
    && (flow.w.cfg.pending == Some(p) ||
        (&& flow.w.cfg.pending.None?
         && (Confirmed(flow.w.cfg, p, next) || (Undone(flow.w.cfg, p) && FailureOf(flow.w.cfg, p)))))
    && (flow.r.Applied? ==> flow.r.state == next && flow.w.cfg.pending.None? && flow.w.cfg.failed.None? && Confirmed(flow.w.cfg, p, next))
    && (flow.r.Applied? && p.previousTarget.Some? ==> flow.w.cfg.previous == p.previousTarget)
    && (flow.r.RolledBackTo? ==>
          && flow.w.cfg.pending.None? && Undone(flow.w.cfg, p)
          && FailureOf(flow.w.cfg, p) && flow.w.cfg.failed.value.recovery == RolledBack)
    && !flow.r.Recovered? && !flow.r.NotValidated?
  }

  lemma FinishKeeps(w: World, p: PendingConfig, next: AppliedConfig, since: nat)
    requires Safe(w, p, next, since) && w.cfg.pending == Some(p) && Confirmed(w.cfg, p, next)
    requires p.previousTarget.Some? ==> w.cfg.previous == p.previousTarget
    ensures var flow := Finish(w, next);
            && Safe(flow.w, p, next, since) && Framed(w, flow.w) && Ended(flow, p, next)
  {
    hide Safe, Put, Prune, Framed;
    ClearPending(w, p, next, since);
    PutKeeps(w, w.cfg.(pending := None), p, next, since);
    var s1 := Put(w, w.cfg.(pending := None));
    if s1.Ok? {
      RecordFailure(s1.w, None, p, next, since);
      PutKeeps(s1.w, s1.w.cfg.(failed := None), p, next, since);
      var s2 := Put(s1.w, s1.w.cfg.(failed := None));
      FramedTransitive(w, s1.w, s2.w);
      if s2.Ok? {
        PruneSafe(s2.w, p, next, since);
        FramedTransitive(w, s2.w, Prune(s2.w).w);
      }
    }
  }

  lemma PruneSafe(w: World, p: PendingConfig, next: AppliedConfig, since: nat)
    requires Safe(w, p, next, since)
    ensures Safe(Prune(w).w, p, next, since) && Framed(w, Prune(w).w) && StoreMoved(w, Prune(w).w)
  {
    PruneKeeps(w);
    hide Invariant, Prune;
    TxnOnRecords(w, Prune(w).w, p, next, since);
  }

  lemma FramedReflexive(w: World)
    ensures Framed(w, w)
  {
  }

  function Next(p: PendingConfig, now: Clock): AppliedConfig {
    AppliedConfig(p.version, p.digest, p.command, now.appliedAt)
  }

  lemma RecordNextKeeps(w: World, p: PendingConfig, now: Clock, since: nat)
    requires Launched(w, p, Next(p, now), since)
    requires p.previousTarget.Some? ==> w.cfg.previous == p.previousTarget
    ensures var flow := RecordNext(w, p, now);
            && Safe(flow.w, p, Next(p, now), since) && Framed(w, flow.w) && Ended(flow, p, Next(p, now))
  {
    var next := Next(p, now);
    hide Safe, Put, Rename, Finish, RollbackResult, Framed;
    var c := w.cfg.(applied := Some(next));
    RecordApplied(w, p, next, since);
    PutLaunched(w, c, p, next, since);
    var s := Put(w, c);
    if s.Ok? {
      FinishKeeps(s.w, p, next, since);
      FramedTransitive(w, s.w, Finish(s.w, next).w);
    } else if s.Err? {
      RollbackResultKeeps(s.w, p, PersistenceFailed, next, since);
      FramedTransitive(w, s.w, RollbackResult(s.w, p, PersistenceFailed).w);
    }
  }

  lemma CommitKeeps(w: World, p: PendingConfig, now: Clock, since: nat)
    requires Launched(w, p, Next(p, now), since)
    ensures var flow := Commit(w, p, now);
            && Safe(flow.w, p, Next(p, now), since) && Framed(w, flow.w) && Ended(flow, p, Next(p, now))
  {
    var next := Next(p, now);
    hide Safe, Put, Rename, RecordNext, RollbackResult, Framed;
    if p.previousTarget.Some? {
      var c := w.cfg.(previous := p.previousTarget);
      RecordPrevious(w, p, next, since);
      PutLaunched(w, c, p, next, since);
      var s := Rename(w, c);
      if s.Ok? {
        RecordNextKeeps(s.w, p, now, since);
        FramedTransitive(w, s.w, RecordNext(s.w, p, now).w);
      } else if s.Err? {
        RollbackResultKeeps(s.w, p, PersistenceFailed, next, since);
        FramedTransitive(w, s.w, RollbackResult(s.w, p, PersistenceFailed).w);
      }
    } else {
      RecordNextKeeps(w, p, now, since);
    }
  }

  // ---------------------------------------------------------------- from a settled node

  /** The attempt fits the settled node: its files are installed and it names the current pair as its way back. */
  ghost predicate Prepared(w: World, p: PendingConfig, next: AppliedConfig) {
    && Invariant(w) && w.cfg.pending.None? && Undone(w.cfg, p) && SoundPendingConfig(w.cfg, p) && Matches(next, p)
  }

  lemma PreparedIsSafe(w: World, p: PendingConfig, next: AppliedConfig)
    requires Prepared(w, p, next)
    ensures Safe(w, p, next, |w.starts|)
    ensures Safe(w.(cfg := w.cfg.(pending := Some(p))), p, next, |w.starts|)
  {
  }

  lemma SwitchCurrent(w: World, p: PendingConfig, next: AppliedConfig, since: nat)
    requires Safe(w, p, next, since) && w.cfg.pending == Some(p) && Undone(w.cfg, p)
    ensures Safe(w.(cfg := w.cfg.(current := Some(p.command))), p, next, since)
    ensures !ConfigReady(w.cfg.(current := Some(p.command)))
  {
  }

  /** Withdraw an attempt whose link was never switched. */
  lemma WithdrawPending(w: World, p: PendingConfig, next: AppliedConfig, before: World)
    requires Prepared(before, p, next) && Safe(w, p, next, |before.starts|)
    requires w == before.(cfg := before.cfg.(pending := Some(p)), fates := w.fates)
    ensures Safe(w.(cfg := w.cfg.(pending := None)), p, next, |before.starts|)
  {
    assert w.(cfg := w.cfg.(pending := None)) == before.(fates := w.fates);
    FatesIrrelevant(before, w.fates);
  }

  lemma LaunchKeeps(w: World, p: PendingConfig, now: Clock, since: nat)
    requires Safe(w, p, Next(p, now), since) && w.cfg.pending == Some(p)
    requires w.cfg.current == Some(p.command) && !ConfigReady(w.cfg) && since <= |w.starts|
    ensures var flow := Launch(w, p, now);
            && Safe(flow.w, p, Next(p, now), since) && Framed(w, flow.w) && Ended(flow, p, Next(p, now))
  {
    var next := Next(p, now);
    hide Safe, Check, Restart, Commit, RollbackResult, Framed, ConfigReady;
    CheckKeeps(w, p, next, since);
    var s1 := Check(w);
    if s1.Ok? {
      RestartKeeps(s1.w, p, next, since);
      var s2 := Restart(s1.w);
      FramedTransitive(w, s1.w, s2.w);
      if s2.Ok? {
        assert s2.w.starts[|s1.w.starts|].config == Some(p.command);
        CommitKeeps(s2.w, p, now, since);
        FramedTransitive(w, s2.w, Commit(s2.w, p, now).w);
      } else if s2.Err? {
        RollbackResultKeeps(s2.w, p, ActivationFailed, next, since);
        FramedTransitive(w, s2.w, RollbackResult(s2.w, p, ActivationFailed).w);
      }
    } else if s1.Err? {
      RollbackResultKeeps(s1.w, p, PersistenceFailed, next, since);
      FramedTransitive(w, s1.w, RollbackResult(s1.w, p, PersistenceFailed).w);
    }
  }

  /** How an apply ended, counting the ways it can end before the link is switched. */
  predicate Concluded(before: ConfigFiles, flow: Flow<Result>, p: PendingConfig, next: AppliedConfig) {
    Ended(flow, p, next) ||
    (&& flow.Return? && (flow.r.Refused? || flow.r.Crashed? || flow.r.NotValidated?)
     && SameRecords(before, flow.w.cfg))
  }

  lemma WithdrawKeeps(w: World, p: PendingConfig, next: AppliedConfig, before: World)
    requires Prepared(before, p, next) && Safe(w, p, next, |before.starts|)
    requires w == before.(cfg := before.cfg.(pending := Some(p)), fates := w.fates)
    ensures var flow := Withdraw(w);
            && Safe(flow.w, p, next, |before.starts|) && Framed(before, flow.w) && Concluded(before.cfg, flow, p, next)
  {
    WithdrawPending(w, p, next, before);
    PutKeeps(w, w.cfg.(pending := None), p, next, |before.starts|);
    hide Safe, Put;
  }

  lemma SwitchKeeps(w: World, p: PendingConfig, now: Clock, before: World)
    requires Prepared(before, p, Next(p, now)) && Safe(w, p, Next(p, now), |before.starts|)
    requires w == before.(cfg := before.cfg.(pending := Some(p)), fates := w.fates)
    ensures var flow := Switch(w, p, now);
            && Safe(flow.w, p, Next(p, now), |before.starts|) && Framed(before, flow.w)
            && Concluded(before.cfg, flow, p, Next(p, now))
  {
    var next, since := Next(p, now), |before.starts|;
    assert Undone(w.cfg, p) && Framed(before, w);
    hide Prepared, Safe, Rename, Launch, Withdraw, Framed, ConfigReady;
    var c := w.cfg.(current := Some(p.command));
    SwitchCurrent(w, p, next, since);
    RenameKeeps(w, c, p, next, since);
    Writes(w, c);
    var s := Rename(w, c);
    FramedTransitive(before, w, s.w);
    if s.Ok? {
      LaunchKeeps(s.w, p, now, since);
      FramedTransitive(before, s.w, Launch(s.w, p, now).w);
    } else if s.Err? {
      WithdrawKeeps(s.w, p, next, before);
    }
  }

  lemma ActivateKeeps(w: World, p: PendingConfig, now: Clock)
    requires Prepared(w, p, Next(p, now))
    ensures var flow := Activate(w, p, now);
            && Safe(flow.w, p, Next(p, now), |w.starts|) && Framed(w, flow.w) && Concluded(w.cfg, flow, p, Next(p, now))
  {
    var next, since := Next(p, now), |w.starts|;
    var c := w.cfg.(pending := Some(p));
    PreparedIsSafe(w, p, next);
    hide Prepared, Safe, Put, Switch, Framed;
    PutKeeps(w, c, p, next, since);
    if Put(w, c).Ok? {
      SwitchKeeps(Put(w, c).w, p, now, w);
    }
  }

  // ---------------------------------------------------------------- apply

  lemma CandidateStep(w: World, c: ConfigFiles)
    requires Invariant(w) && SameRecords(w.cfg, c) && c.versions == w.cfg.versions
    ensures Invariant(Put(w, c).w) && StoreMoved(w, Put(w, c).w)
  {
    assert ConfigSound(c);
    StoreStep(w, c);
  }

  lemma RunValidatorKeeps(w: World, req: Request, now: Clock)
    requires Invariant(w)
    ensures var g := RunValidator(w, req, now);
            && Invariant(g.w) && StoreMoved(w, g.w)
            && (g.Verdict? ==> g.v.version == req.version && g.v.digest == req.digest)
            && (g.Closed? ==> g.r.Refused? || g.r.Crashed?)
  {
    hide Invariant, StoreMoved, Put, Check;
    var c := w.cfg.(candidate := Some(req.config));
    CandidateStep(w, c);
    var s1 := Put(w, c);
    if s1.Ok? {
      StoreCheck(s1.w);
      var s2 := Check(s1.w);
      StoreMovedTransitive(w, s1.w, s2.w);
      if !s2.Dead? {
        var d := s2.w.cfg.(validation := Some(Validation(req.version, req.digest, s2.Ok?, now.validatedAt)));
        CandidateStep(s2.w, d);
        StoreMovedTransitive(w, s2.w, Put(s2.w, d).w);
      }
    }
  }

  lemma ValidateKeeps(w: World, req: Request, now: Clock)
    requires Invariant(w)
    ensures var g := Validate(w, req, now);
            && Invariant(g.w) && StoreMoved(w, g.w)
            && (g.Verdict? ==> ValidRequest(req) && g.v.version == req.version && g.v.digest == req.digest)
            && (g.Closed? ==> g.r.Refused? || g.r.Crashed?)
  {
    StoreMovedRefl(w);
    RunValidatorKeeps(w, req, now);
    hide Invariant, StoreMoved, RunValidator;
  }

  /** The attempt that a request for a newer version makes on a settled node. */
  function AttemptOf(c: ConfigFiles, req: Request, now: Clock): PendingConfig {
    PendingConfig(ConfigTarget(req.version, req.digest, None), c.current, c.applied, req.version, req.digest, now.startedAt)
  }

  predicate Newer(c: ConfigFiles, req: Request) {
    c.applied.Some? ==> req.version > c.applied.value.version
  }

  lemma SettledIsSafe(w: World, p: PendingConfig, next: AppliedConfig)
    requires Invariant(w) && w.cfg.pending.None? && Undone(w.cfg, p) && Matches(next, p)
    requires p.previousApplied.Some? ==> p.previousApplied.value.version < p.version
    ensures Safe(w, p, next, |w.starts|)
  {
  }

  /** What installing the requested version on a settled node prepares. */
  lemma AttemptIsPrepared(w: World, w': World, req: Request, now: Clock)
    requires Invariant(w') && StoreMoved(w, w') && w.cfg.pending.None?
    requires ValidRequest(req) && Newer(w.cfg, req) && AttemptOf(w.cfg, req, now).command in w'.cfg.versions
    ensures Prepared(w', AttemptOf(w.cfg, req, now), Next(AttemptOf(w.cfg, req, now), now))
  {
  }

  lemma SettledPair(w: World)
    requires Invariant(w) && w.cfg.pending.None?
    ensures ConfigSettled(w.cfg)
    ensures w.cfg.applied.Some? ==>
              LoadApplied(w.cfg) == Found(w.cfg.applied.value) && VerifyApplied(w.cfg, w.cfg.applied.value)
  {
  }

  /** Preparing a request leaves a settled node settled. */
  lemma StillSettled(w: World, w': World, req: Request, now: Clock)
    requires Invariant(w') && StoreMoved(w, w') && w.cfg.pending.None? && Newer(w.cfg, req)
    requires ConfigSettled(w.cfg)
    ensures var p := AttemptOf(w.cfg, req, now);
            Safe(w', p, Next(p, now), |w.starts|) && Framed(w, w') && SameRecords(w.cfg, w'.cfg)
  {
    var p := AttemptOf(w.cfg, req, now);
    SettledIsSafe(w', p, Next(p, now));
  }

  lemma BeginKeeps(w: World, req: Request, now: Clock)
    requires Invariant(w) && w.cfg.pending.None? && ValidRequest(req) && Newer(w.cfg, req)
    ensures var p := AttemptOf(w.cfg, req, now);
            var flow := Begin(w, req, w.cfg.current, w.cfg.applied, false, now);
            && Safe(flow.w, p, Next(p, now), |w.starts|) && Framed(w, flow.w) && Concluded(w.cfg, flow, p, Next(p, now))
  {
    var p := AttemptOf(w.cfg, req, now);
    var next := Next(p, now);
    hide Invariant, Safe, Prepared, StoreMoved, Framed, Check, Prune, InstallVersion, Activate, Ended, ConfigSettled;
    SettledPair(w);
    StoreCheck(w);
    var w1 := Check(w).w;
    StillSettled(w, w1, req, now);
    if Check(w).Ok? {
      PruneKeeps(w1);
      var w2 := Prune(w1).w;
      StoreMovedTransitive(w, w1, w2);
      StillSettled(w, w2, req, now);
      if Prune(w1).Ok? {
        InstallKeeps(w2, req, now);
        var i := InstallVersion(w2, req, false, now);
        StoreMovedTransitive(w, w2, i.w);
        StillSettled(w, i.w, req, now);
        if i.Installed? {
          AttemptIsPrepared(w, i.w, req, now);
          ActivateKeeps(i.w, p, now);
          FramedTransitive(w, i.w, Activate(i.w, p, now).w);
          MovedStarts(w, i.w);
        }
      }
    }
  }

  lemma MovedStarts(w: World, w': World)
    requires StoreMoved(w, w')
    ensures |w'.starts| == |w.starts|
  {
  }

  lemma MovedIsFramed(w: World, w': World)
    requires StoreMoved(w, w')
    ensures Framed(w, w')
  {
  }

  /** A request for a newer version on a settled node: all or nothing, whatever happens. */
  lemma ApplyFresh(w: World, req: Request, now: Clock)
    requires Invariant(w) && w.cfg.pending.None? && Newer(w.cfg, req)
    ensures var p := AttemptOf(w.cfg, req, now);
            var flow := Apply(w, req, now);
            && Safe(flow.w, p, Next(p, now), |w.starts|) && Framed(w, flow.w) && Concluded(w.cfg, flow, p, Next(p, now))
  {
    hide Invariant, Safe, StoreMoved, Framed, Validate, Begin, ConfirmAgain, Repair, Ended, ConfigSettled, VerifyTarget, ValidApplied;
    var g := Validate(w, req, now);
    ValidateKeeps(w, req, now);
    SettledPair(w);
    StillSettled(w, g.w, req, now);
    MovedStarts(w, g.w);
    if g.Verdict? {
      SettledPair(g.w);
      BeginKeeps(g.w, req, now);
      FramedTransitive(w, g.w, Begin(g.w, req, g.w.cfg.current, g.w.cfg.applied, false, now).w);
    }
  }

  // ---------------------------------------------------------------- requests that start no attempt

  predicate BlockedFlow(w: World, flow: Flow<Result>) {
    flow.Return? && flow.w == Check(w).w && (flow.r.Refused? || flow.r.Crashed?)
  }

  /** While an attempt is pending nothing else begins. */
  lemma BeginBlocked(w: World, req: Request, t: Option<ConfigTarget>, a: Option<AppliedConfig>, repair: bool, now: Clock)
    requires LoadPending(w.cfg).Found?
    ensures BlockedFlow(w, Begin(w, req, t, a, repair, now))
  {
  }

  /** Repeating the applied version changes at most the failure record and a confirmable pending record. */
  lemma ConfirmAgainSettled(w: World, a: AppliedConfig)
    requires Invariant(w) && w.cfg.pending.None?
    ensures var flow := ConfirmAgain(w, a);
            && flow.Return? && Invariant(flow.w) && Framed(w, flow.w)
            && SameRecords(w.cfg.(failed := flow.w.cfg.failed), flow.w.cfg)
            && (flow.r.Applied? ==> flow.r.state == a) && !flow.r.RolledBackTo?
  {
    hide Invariant, Put, Prune, Framed;
    var c := w.cfg.(failed := None);
    FailureIrrelevant(w, None);
    Keeps(w, c);
    Writes(w, c);
    var s := Put(w, c);
    if s.Ok? {
      PruneKeeps(s.w);
      MovedIsFramed(s.w, Prune(s.w).w);
      FramedTransitive(w, s.w, Prune(s.w).w);
    }
  }

  lemma ConfirmAgainPending(w: World, p: PendingConfig, next: AppliedConfig, since: nat)
    requires Safe(w, p, next, since) && w.cfg.pending == Some(p) && Confirmed(w.cfg, p, next)
    ensures var flow := ConfirmAgain(w, next);
            && flow.Return? && Safe(flow.w, p, next, since) && Framed(w, flow.w) && Confirmed(flow.w.cfg, p, next)
            && (flow.r.Applied? ==> flow.r.state == next) && !flow.r.RolledBackTo?
  {
    assert LoadPending(w.cfg) == Found(p);
    hide Safe, ConfirmApplied, Prune, Framed, LoadPending;
    ConfirmKeeps(w, p, next, since);
    var s := ConfirmApplied(w, next);
    if s.Ok? {
      PruneSafe(s.w, p, next, since);
      FramedTransitive(w, s.w, Prune(s.w).w);
    }
  }

  /** A request that does not name a newer version leaves a settled node's pair alone. */
  lemma ApplyRepeat(w: World, req: Request, now: Clock)
    requires Invariant(w) && w.cfg.pending.None? && !Newer(w.cfg, req)
    ensures var flow := Apply(w, req, now);
            && flow.Return? && Invariant(flow.w) && Framed(w, flow.w)
            && SameRecords(w.cfg.(failed := flow.w.cfg.failed), flow.w.cfg)
            && (flow.r.Applied? ==> flow.r.state == w.cfg.applied.value) && !flow.r.RolledBackTo?
  {
    hide Invariant, StoreMoved, Framed, Validate, Begin, ConfirmAgain, Repair, ConfigSettled, VerifyTarget, ValidApplied, VerifyApplied;
    var g := Validate(w, req, now);
    ValidateKeeps(w, req, now);
    SettledPair(w);
    MovedIsFramed(w, g.w);
    MovedRecords(w, g.w);
    if g.Verdict? {
      SettledPair(g.w);
      ConfirmAgainSettled(g.w, g.w.cfg.applied.value);
      FramedTransitive(w, g.w, ConfirmAgain(g.w, g.w.cfg.applied.value).w);
    }
  }

  lemma MovedRecords(w: World, w': World)
    requires StoreMoved(w, w')
    ensures SameRecords(w.cfg, w'.cfg)
  {
  }

  /** A request while attempt `p` is pending either confirms `p` or changes no record. */
  lemma ApplyValidatedBlocked(w: World, req: Request, now: Clock, p: PendingConfig, next: AppliedConfig, since: nat)
    requires Safe(w, p, next, since) && w.cfg.pending == Some(p)
    ensures var flow := ApplyValidated(w, req, now);
            && flow.Return? && Safe(flow.w, p, next, since) && Framed(w, flow.w)
            && (flow.w.cfg.pending.None? ==> Confirmed(flow.w.cfg, p, next))
            && (flow.r.Applied? ==> Confirmed(flow.w.cfg, p, next) && flow.r.state == next) && !flow.r.RolledBackTo?
  {
    hide Safe, Framed, Check, Begin, VerifyApplied, VerifyTarget, ValidApplied, AppliedForTarget, Prune, Put;
    CheckKeeps(w, p, next, since);
    FramedReflexive(w);
    PendingVerify(w, p, next, since);
    forall t, a, repair ensures BlockedFlow(w, Begin(w, req, t, a, repair, now)) { BeginBlocked(w, req, t, a, repair, now); }
    if w.cfg.applied.Some? {
      var a := w.cfg.applied.value;
      if VerifyApplied(w.cfg, a) && Matches(a, p) {
        ConfirmAgainPending(w, p, next, since);
      }
    }
  }

  lemma ApplyBlocked(w: World, req: Request, now: Clock, p: PendingConfig, next: AppliedConfig, since: nat)
    requires Safe(w, p, next, since) && w.cfg.pending == Some(p)
    ensures var flow := Apply(w, req, now);
            && flow.Return? && Safe(flow.w, p, next, since) && Framed(w, flow.w)
            && (flow.w.cfg.pending.None? ==> Confirmed(flow.w.cfg, p, next))
            && (flow.r.Applied? ==> Confirmed(flow.w.cfg, p, next) && flow.r.state == next) && !flow.r.RolledBackTo?
  {
    hide Invariant, Txn, StoreMoved, Framed, Validate, ApplyValidated;
    var g := Validate(w, req, now);
    ValidateKeeps(w, req, now);
    MovedIsFramed(w, g.w);
    MovedRecords(w, g.w);
    MovedTxn(w, g.w, p, next, since);
    if g.Verdict? {
      ApplyValidatedBlocked(g.w, req, now, p, next, since);
      FramedTransitive(w, g.w, ApplyValidated(g.w, req, now).w);
    }
  }

  lemma MovedTxn(w: World, w': World, p: PendingConfig, next: AppliedConfig, since: nat)
    requires StoreMoved(w, w') && Txn(w, p, next, since)
    ensures Txn(w', p, next, since)
  {
    TxnOnRecords(w, w', p, next, since);
  }

  /** The invariant survives every request, wherever it stops. */
  lemma ApplyKeeps(w: World, req: Request, now: Clock)
    requires Invariant(w)
    ensures var flow := Apply(w, req, now);
            flow.Return? && Invariant(flow.w) && Framed(w, flow.w)
  {
    hide Invariant, Framed, Apply, Newer;
    match w.cfg.pending
    case Some(p) =>
      AnyPendingIsSafe(w, p);
      ApplyBlocked(w, req, now, p, NextOf(w, p), 0);
    case None =>
      if Newer(w.cfg, req) { ApplyFresh(w, req, now); } else { ApplyRepeat(w, req, now); }
  }

  lemma RecoverInvariant(w: World)
    requires Invariant(w)
    ensures var flow := Recover(w);
            && flow.Return? && Invariant(flow.w) && Framed(w, flow.w)
            && (flow.r.Recovered? ==> flow.w.cfg.pending.None?)
  {
    if w.cfg.pending.Some? {
      hide Invariant, Framed, Recover;
      AnyPendingIsSafe(w, w.cfg.pending.value);
      RecoverKeeps(w, w.cfg.pending.value, NextOf(w, w.cfg.pending.value), 0);
    }
  }
}
