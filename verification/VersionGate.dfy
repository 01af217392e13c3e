/**
 * The validator guards configuration versions over the whole life of a node: commands, restarts,
 * and version files or the `current` link that drift behind the agent's back. Nothing here needs
 * the node's invariant.
 */
module VersionGate {
  import opened Common
  import opened ConfigNames
  import opened NodeState
  import opened Config = ConfigActivation
  import opened Retention
  import Bundle = BundleActivation
  import N = NodeRuns
  import ConfigSuccess
  import ConfigDrift

  // ---------------------------------------------------------------- what the gate bounds

  /** No record or link that a later step may apply names a version beyond `n`. */
  predicate Capped(c: ConfigFiles, n: nat) {
    && (c.applied.Some? ==> CappedApplied(c.applied.value, n))
    && (c.previous.Some? ==> c.previous.value.version <= n)
    && (c.pending.Some? ==> CappedPending(c.pending.value, n))
  }

  predicate CappedApplied(a: AppliedConfig, n: nat) { 0 < a.version <= n && a.target.version <= n }

  predicate CappedPending(p: PendingConfig, n: nat) {
    && 0 < p.version <= n && p.command.version <= n
    && (p.previousTarget.Some? ==> p.previousTarget.value.version <= n)
    && (p.previousApplied.Some? ==> CappedApplied(p.previousApplied.value, n))
  }

  /** The verdict stays and the cap still holds. */
  predicate Held(w: World, w': World, n: nat) {
    w'.cfg.validation == w.cfg.validation && Capped(w'.cfg, n)
  }

  /** Every single step keeps the cap if what it writes does. */
  lemma StepsHold(n: nat)
    ensures forall w: World, c {:trigger Put(w, c)} ::
              Capped(w.cfg, n) && Capped(c, n) && c.validation == w.cfg.validation ==> Held(w, Put(w, c).w, n)
    ensures forall w: World, c {:trigger Rename(w, c)} ::
              Capped(w.cfg, n) && Capped(c, n) && c.validation == w.cfg.validation ==> Held(w, Rename(w, c).w, n)
    ensures forall w: World :: Check(w).w.cfg == w.cfg && Restart(w).w.cfg == w.cfg && Stop(w).w.cfg == w.cfg
  {
  }

  lemma RecordHeld(w: World, p: PendingConfig, code: ErrorCode, n: nat)
    requires Capped(w.cfg, n)
    ensures Held(w, RecordRollback(w, p, code).w, n)
  {
    hide Put;
    StepsHold(n);
  }

  lemma RollbackInitialHeld(w: World, p: PendingConfig, code: ErrorCode, n: nat)
    requires Capped(w.cfg, n) && CappedPending(p, n) && p.previousTarget.None?
    ensures Held(w, Rollback(w, p, code).w, n)
  {
    hide Put, Stop, RecordRollback;
    StepsHold(n);
    var w1 := Put(w, w.cfg.(current := None)).w;
    var w2 := Put(w1, w1.cfg.(applied := None)).w;
    RecordHeld(Stop(w2).w, p, code, n);
  }

  lemma RollbackHeld(w: World, p: PendingConfig, code: ErrorCode, n: nat)
    requires Capped(w.cfg, n) && CappedPending(p, n)
    ensures Held(w, Rollback(w, p, code).w, n)
  {
    if p.previousTarget.None? {
      RollbackInitialHeld(w, p, code, n);
    } else {
      hide Put, Rename, Check, Restart, RecordRollback, RollbackApplied;
      StepsHold(n);
      RollbackAppliedCapped(w.cfg, p, n);
      var w1 := Rename(w, w.cfg.(current := p.previousTarget)).w;
      var w2 := Put(w1, w1.cfg.(applied := RollbackApplied(w.cfg, p))).w;
      RecordHeld(Restart(Check(w2).w).w, p, code, n);
    }
  }

  lemma RollbackAppliedCapped(c: ConfigFiles, p: PendingConfig, n: nat)
    requires CappedPending(p, n) && p.previousTarget.Some?
    ensures RollbackApplied(c, p).Some? ==> CappedApplied(RollbackApplied(c, p).value, n)
  {
  }

  lemma RollbackResultHeld(w: World, p: PendingConfig, code: ErrorCode, n: nat)
    requires Capped(w.cfg, n) && CappedPending(p, n)
    ensures RollbackResult(w, p, code).Return? && Held(w, RollbackResult(w, p, code).w, n) && !RollbackResult(w, p, code).r.Applied?
  {
    hide Rollback, Put;
    StepsHold(n);
    RollbackHeld(w, p, code, n);
  }

  lemma ConfirmHeld(w: World, a: AppliedConfig, n: nat)
    requires Capped(w.cfg, n)
    ensures Held(w, ConfirmApplied(w, a).w, n)
  {
    hide Put, Matches, ValidPending;
    StepsHold(n);
  }

  lemma RecoverHeld(w: World, n: nat)
    requires Capped(w.cfg, n)
    ensures Held(w, Config.Recover(w).w, n)
  {
    hide RollbackResult, ConfirmApplied, VerifyApplied, Matches, ValidPending, ValidApplied;
    if w.cfg.pending.Some? { RollbackResultHeld(w, w.cfg.pending.value, PreparationFailed, n); }
    if w.cfg.applied.Some? { ConfirmHeld(w, w.cfg.applied.value, n); }
  }

  lemma {:induction false} DeleteHeld(w: World, doomed: seq<Entry<ConfigTarget>>, removed: bool, n: nat)
    requires Capped(w.cfg, n)
    ensures Held(w, Delete(w, doomed, removed).w, n)
    decreases |doomed|
  {
    if doomed != [] {
      var s := Rename(w, w.cfg.(versions := w.cfg.versions - {doomed[0].key}));
      if s.Ok? { DeleteHeld(s.w, doomed[1..], true, n); }
    }
  }

  lemma PruneHeld(w: World, n: nat)
    requires Capped(w.cfg, n)
    ensures Held(w, Config.Prune(w).w, n)
  {
    hide Delete;
    DeleteHeld(w, Doomed(Entries(w.cfg.versions), Protected(w.cfg), RETAINED_CONFIGS), false, n);
  }

  lemma InstallHeld(w: World, req: Request, repair: bool, now: Clock, n: nat)
    requires Capped(w.cfg, n)
    ensures var i := InstallVersion(w, req, repair, now);
            Held(w, i.w, n) && (i.Installed? ==> i.target.version == req.version) && (i.NotInstalled? ==> i.r.Refused? || i.r.Crashed?)
  {
    hide Put;
    StepsHold(n);
  }

  /** An operation that returned and held the cap; if it applied a version, that was `v`. */
  predicate HeldFlow(w: World, flow: Flow<Result>, n: nat, v: nat) {
    flow.Return? && Held(w, flow.w, n) && (flow.r.Applied? ==> flow.r.state.version == v)
  }

  lemma FinishHeld(w: World, next: AppliedConfig, n: nat)
    requires Capped(w.cfg, n)
    ensures HeldFlow(w, Finish(w, next), n, next.version)
  {
    hide Config.Prune, Put;
    StepsHold(n);
    forall u: World | Capped(u.cfg, n) ensures Held(u, Config.Prune(u).w, n) { PruneHeld(u, n); }
  }

  lemma UndoHeld(p: PendingConfig, n: nat)
    requires CappedPending(p, n)
    ensures forall w: World, code :: Capped(w.cfg, n) ==>
              RollbackResult(w, p, code).Return? && Held(w, RollbackResult(w, p, code).w, n) && !RollbackResult(w, p, code).r.Applied?
  {
    hide RollbackResult;
    forall w: World, code | Capped(w.cfg, n)
      ensures RollbackResult(w, p, code).Return? && Held(w, RollbackResult(w, p, code).w, n) && !RollbackResult(w, p, code).r.Applied?
    {
      RollbackResultHeld(w, p, code, n);
    }
  }

  lemma RecordNextHeld(w: World, p: PendingConfig, now: Clock, n: nat)
    requires Capped(w.cfg, n) && CappedPending(p, n)
    ensures HeldFlow(w, RecordNext(w, p, now), n, p.version)
  {
    hide Put, Finish, RollbackResult;
    StepsHold(n);
    UndoHeld(p, n);
    var next := AppliedConfig(p.version, p.digest, p.command, now.appliedAt);
    FinishHeld(Put(w, w.cfg.(applied := Some(next))).w, next, n);
  }

  lemma CommitHeld(w: World, p: PendingConfig, now: Clock, n: nat)
    requires Capped(w.cfg, n) && CappedPending(p, n)
    ensures HeldFlow(w, Commit(w, p, now), n, p.version)
  {
    hide Rename, RecordNext, RollbackResult;
    StepsHold(n);
    UndoHeld(p, n);
    RecordNextHeld(w, p, now, n);
    if p.previousTarget.Some? {
      RecordNextHeld(Rename(w, w.cfg.(previous := p.previousTarget)).w, p, now, n);
    }
  }

  lemma LaunchHeld(w: World, p: PendingConfig, now: Clock, n: nat)
    requires Capped(w.cfg, n) && CappedPending(p, n)
    ensures HeldFlow(w, Launch(w, p, now), n, p.version)
  {
    hide Check, Restart, Commit, RollbackResult, Capped;
    StepsHold(n);
    UndoHeld(p, n);
    var w2 := Restart(Check(w).w).w;
    assert w2.cfg == w.cfg;
    CommitHeld(w2, p, now, n);
  }

  lemma ActivateHeld(w: World, p: PendingConfig, now: Clock, n: nat)
    requires Capped(w.cfg, n) && CappedPending(p, n)
    ensures HeldFlow(w, Activate(w, p, now), n, p.version)
  {
    hide Put, Rename, Launch;
    StepsHold(n);
    var w1 := Put(w, w.cfg.(pending := Some(p))).w;
    var w2 := Rename(w1, w1.cfg.(current := Some(p.command))).w;
    LaunchHeld(w2, p, now, n);
  }

  lemma BeginHeld(w: World, req: Request, t: Option<ConfigTarget>, a: Option<AppliedConfig>, repair: bool, now: Clock, n: nat)
    requires Capped(w.cfg, n) && 0 < req.version <= n
    requires (t.Some? ==> t.value.version <= n) && (a.Some? ==> CappedApplied(a.value, n))
    ensures HeldFlow(w, Begin(w, req, t, a, repair, now), n, req.version)
  {
    hide Check, Config.Prune, InstallVersion, Activate, ValidPending;
    StepsHold(n);
    var w1 := Check(w).w;
    PruneHeld(w1, n);
    var w2 := Config.Prune(w1).w;
    InstallHeld(w2, req, repair, now, n);
    var i := InstallVersion(w2, req, repair, now);
    if i.Installed? {
      ActivateHeld(i.w, PendingConfig(i.target, t, a, req.version, req.digest, now.startedAt), now, n);
    }
  }

  lemma ConfirmAgainHeld(w: World, a: AppliedConfig, n: nat)
    requires Capped(w.cfg, n)
    ensures HeldFlow(w, ConfirmAgain(w, a), n, a.version)
  {
    hide ConfirmApplied, Config.Prune;
    ConfirmHeld(w, a, n);
    PruneHeld(ConfirmApplied(w, a).w, n);
  }

  lemma ApplyValidatedHeld(w: World, req: Request, now: Clock, n: nat)
    requires Capped(w.cfg, n) && 0 < req.version <= n
    ensures HeldFlow(w, ApplyValidated(w, req, now), n, req.version)
  {
    hide Begin, ConfirmAgain, VerifyTarget, VerifyApplied, ValidApplied;
    forall t: Option<ConfigTarget>, a: Option<AppliedConfig>, repair | (t.Some? ==> t.value.version <= n) && (a.Some? ==> CappedApplied(a.value, n))
      ensures HeldFlow(w, Begin(w, req, t, a, repair, now), n, req.version)
    {
      BeginHeld(w, req, t, a, repair, now, n);
    }
    if w.cfg.applied.Some? { ConfirmAgainHeld(w, w.cfg.applied.value, n); }
  }

  // ---------------------------------------------------------------- one life

  datatype Event =
    | Command(op: N.Op)
    | Drift(versions: map<ConfigTarget, VersionFile>, current: Option<ConfigTarget>)

  ghost function After(w: World, e: Event): World {
    match e
    case Command(op) => N.Exec(w, op)
    case Drift(versions, current) => w.(cfg := w.cfg.(versions := versions, current := current))
  }

  /** The verdict a request gets, fresh or stored; none when the validator refused or failed. */
  function Accepts(w: World, e: Event): Option<Validation> {
    match e
    case Drift(_, _) => None
    case Command(op) =>
      if op.ApplyConfig? then
        var g := Validate(w.(fates := op.fates), op.req, op.now);
        if g.Verdict? then Some(g.v) else None
      else None
  }

  ghost function Answer(w: World, e: Event): Option<Result> {
    if e.Command? && e.op.ApplyConfig? then
      var flow := Apply(w.(fates := e.op.fates), e.op.req, e.op.now);
      if flow.Return? then Some(flow.r) else None
    else None
  }

  /** Nothing beyond the last verdict is named by any record; before the first verdict nothing is. */
  predicate Guarded(c: ConfigFiles) {
    match c.validation
    case None => Capped(c, 0)
    case Some(v) => Capped(c, v.version)
  }

  /** The stored verdict is kept, or replaced by one for a greater version. */
  predicate Forward(a: Option<Validation>, b: Option<Validation>) {
    a == b || (b.Some? && (a.Some? ==> a.value.version < b.value.version))
  }

  lemma CapGrows(c: ConfigFiles, m: nat, n: nat)
    requires Capped(c, m) && m <= n
    ensures Capped(c, n)
  {
  }

  lemma PutFacts(w: World, c: ConfigFiles)
    ensures Put(w, c).w.cfg == w.cfg || Put(w, c).w.cfg == c
    ensures Put(w, c).Ok? ==> Put(w, c).w.cfg == c
    ensures Check(w).w.cfg == w.cfg
  {
  }

  lemma FreshVerdict(w: World, req: Request, now: Clock)
    ensures var g := RunValidator(w, req, now);
            var stored := g.w.cfg.validation;
            && SameRecords(w.cfg, g.w.cfg)
            && (stored == w.cfg.validation || (stored.Some? && stored.value.version == req.version))
            && (g.Verdict? ==> stored == Some(g.v) && g.v.version == req.version && g.v.digest == req.digest)
            && (g.Closed? ==> !g.r.Applied?)
  {
    hide Put, Check;
    var c := w.cfg.(candidate := Some(req.config));
    PutFacts(w, c);
    var w1 := Put(w, c).w;
    PutFacts(w1, w1.cfg);
    var s := Check(w1);
    PutFacts(s.w, s.w.cfg.(validation := Some(Validation(req.version, req.digest, s.Ok?, now.validatedAt))));
  }

  predicate SameRecords(c: ConfigFiles, d: ConfigFiles) {
    c.applied == d.applied && c.previous == d.previous && c.pending == d.pending
  }

  lemma CapIsOnRecords(c: ConfigFiles, d: ConfigFiles, n: nat)
    requires Capped(c, n) && SameRecords(c, d)
    ensures Capped(d, n)
  {
  }

  /** A fresh verdict is stored before it is given, and only for a version beyond the stored one. */
  lemma AcceptedGate(w: World, req: Request, now: Clock)
    requires Guarded(w.cfg)
    ensures var g := Validate(w, req, now);
            && Guarded(g.w.cfg) && Forward(w.cfg.validation, g.w.cfg.validation)
            && (g.Verdict? ==> g.w.cfg.validation == Some(g.v) && g.v.version == req.version > 0 && g.v.digest == req.digest)
            && (g.Closed? ==> !g.r.Applied?)
  {
    hide Capped, RunValidator;
    var n := if w.cfg.validation.None? then 0 else w.cfg.validation.value.version;
    if n < req.version {
      CapGrows(w.cfg, n, req.version);
      FreshVerdict(w, req, now);
      CapIsOnRecords(w.cfg, RunValidator(w, req, now).w.cfg, n);
      CapIsOnRecords(w.cfg, RunValidator(w, req, now).w.cfg, req.version);
    }
  }

  /** The bundle side never touches a configuration file, whatever state it finds. */
  lemma BundleStepsHold()
    ensures forall w: World, b :: PutBundle(w, b).w.cfg == w.cfg && RenameBundle(w, b).w.cfg == w.cfg
    ensures forall w: World :: Check(w).w.cfg == w.cfg && Restart(w).w.cfg == w.cfg && Stop(w).w.cfg == w.cfg
  {
  }

  lemma BundleRestoreFrame(w: World, p: PendingBundle)
    ensures Bundle.RestoreFiles(w, p).w.cfg == w.cfg && Bundle.PrepareRollbackController(w, p).w.cfg == w.cfg
  {
    hide PutBundle, RenameBundle, Bundle.RollbackApplied, Bundle.VerifyAppliedTarget, Bundle.Matches;
    BundleStepsHold();
  }

  lemma BundleReviveFrame(w: World, p: PendingBundle, hasConfig: bool, code: ErrorCode)
    ensures Bundle.Revive(w, p, hasConfig, code).w.cfg == w.cfg
  {
    hide PutBundle, Restart;
    BundleStepsHold();
  }

  lemma BundleRollbackFrame(w: World, p: PendingBundle, hasConfig: bool, code: ErrorCode)
    ensures var flow := Bundle.RollbackResult(w, p, hasConfig, code);
            flow.Return? && flow.w.cfg == w.cfg
  {
    hide PutBundle, Stop, Bundle.RestoreFiles, Bundle.PrepareRollbackController, Bundle.Revive;
    BundleStepsHold();
    forall u: World ensures Bundle.RestoreFiles(u, p).w.cfg == u.cfg && Bundle.PrepareRollbackController(u, p).w.cfg == u.cfg {
      BundleRestoreFrame(u, p);
    }
    forall u: World ensures Bundle.Revive(u, p, hasConfig, code).w.cfg == u.cfg { BundleReviveFrame(u, p, hasConfig, code); }
  }

  lemma {:induction false} BundleDeleteFrame(w: World, doomed: seq<Entry<BundleTarget>>, removed: bool)
    ensures Bundle.Delete(w, doomed, removed).w.cfg == w.cfg
    decreases |doomed|
  {
    if doomed != [] {
      var s := RenameBundle(w, w.bun.(versions := w.bun.versions - {doomed[0].key}));
      if s.Ok? { BundleDeleteFrame(s.w, doomed[1..], true); }
    }
  }

  lemma BundlePruneFrame(w: World)
    ensures Bundle.Prune(w).w.cfg == w.cfg
  {
    hide Bundle.Delete;
    BundleDeleteFrame(w, Doomed(Bundle.Entries(w.bun), Bundle.Protected(w.bun), Bundle.RETAINED_BUNDLES), false);
  }

  lemma BundleRecoverFrame(w: World)
    ensures var flow := Bundle.Recover(w);
            flow.Return? && flow.w.cfg == w.cfg
  {
    hide PutBundle, Check, Bundle.RollbackResult, Bundle.VerifyApplied, Bundle.Matches, Bundle.ValidApplied, Bundle.ValidPending;
    BundleStepsHold();
    forall u: World, p, hasConfig, code
      ensures Bundle.RollbackResult(u, p, hasConfig, code).Return? && Bundle.RollbackResult(u, p, hasConfig, code).w.cfg == u.cfg
    {
      BundleRollbackFrame(u, p, hasConfig, code);
    }
  }

  lemma BundleFinishFrame(w: World, next: AppliedBundle)
    ensures var flow := Bundle.Finish(w, next);
            flow.Return? && flow.w.cfg == w.cfg
  {
    hide PutBundle, Bundle.Prune;
    BundleStepsHold();
    forall u: World ensures Bundle.Prune(u).w.cfg == u.cfg { BundlePruneFrame(u); }
  }

  lemma BundleActivateFrame(w: World, p: PendingBundle, hasConfig: bool, now: Clock)
    ensures var flow := Bundle.Activate(w, p, hasConfig, now);
            flow.Return? && flow.w.cfg == w.cfg
  {
    hide PutBundle, RenameBundle, Restart, Stop, Bundle.Finish, Bundle.RollbackResult;
    BundleStepsHold();
    forall u: World, h, code ensures Bundle.RollbackResult(u, p, h, code).Return? && Bundle.RollbackResult(u, p, h, code).w.cfg == u.cfg {
      BundleRollbackFrame(u, p, h, code);
    }
    forall u: World, next ensures Bundle.Finish(u, next).Return? && Bundle.Finish(u, next).w.cfg == u.cfg { BundleFinishFrame(u, next); }
  }

  lemma BundleBeginFrame(w: World, rel: Bundle.Release, t: BundleTarget, pt: Option<BundleTarget>, pa: Option<AppliedBundle>, now: Clock)
    ensures var flow := Bundle.Begin(w, rel, t, pt, pa, now);
            flow.Return? && flow.w.cfg == w.cfg
  {
    hide Check, Bundle.Activate, ValidApplied;
    BundleStepsHold();
    forall u: World, p, h ensures Bundle.Activate(u, p, h, now).Return? && Bundle.Activate(u, p, h, now).w.cfg == u.cfg {
      BundleActivateFrame(u, p, h, now);
    }
  }

  lemma BundleInstallFrame(w: World, rel: Bundle.Release, now: Clock)
    ensures var flow := Bundle.Install(w, rel, now);
            flow.Return? && flow.w.cfg == w.cfg
  {
    hide Check, PutBundle, Bundle.Begin, Bundle.Prune, Bundle.VerifyApplied, Bundle.ValidVersion, Bundle.Verified;
    BundleStepsHold();
    forall u: World ensures Bundle.Prune(u).w.cfg == u.cfg { BundlePruneFrame(u); }
    forall u: World, t, pt, pa ensures Bundle.Begin(u, rel, t, pt, pa, now).Return? && Bundle.Begin(u, rel, t, pt, pa, now).w.cfg == u.cfg {
      BundleBeginFrame(u, rel, t, pt, pa, now);
    }
  }

  // ---------------------------------------------------------------- every event

  /** What one event does to the gate. */
  ghost predicate Passed(w: World, e: Event) {
    var w' := After(w, e);
    && Guarded(w'.cfg) && Forward(w.cfg.validation, w'.cfg.validation)
    && (Accepts(w, e).Some? ==> w'.cfg.validation == Accepts(w, e))
    && (Answer(w, e).Some? && Answer(w, e).value.Applied? ==>
          Accepts(w, e).Some? && Accepts(w, e).value.passed && Answer(w, e).value.state.version == Accepts(w, e).value.version)
  }

  lemma ApplyPasses(w: World, req: Request, now: Clock, fates: seq<Fate>)
    requires Guarded(w.cfg)
    ensures Passed(w, Command(N.ApplyConfig(req, now, fates)))
  {
    hide Validate, ApplyValidated;
    var v := w.(fates := fates);
    AcceptedGate(v, req, now);
    var g := Validate(v, req, now);
    if g.Verdict? { ApplyValidatedHeld(g.w, req, now, req.version); }
  }

  lemma EventPasses(w: World, e: Event)
    requires Guarded(w.cfg)
    ensures Passed(w, e)
  {
    hide Config.Recover, Bundle.Recover, Bundle.Install, Apply, Validate;
    match e
    case Drift(_, _) =>
    case Command(op) =>
      var v := w.(fates := op.fates);
      match op
      case ApplyConfig(req, now, fates) => ApplyPasses(w, req, now, fates);
      case InstallBundle(rel, now, _) => BundleInstallFrame(v, rel, now);
      case Boot(_) =>
        BundleRecoverFrame(v);
        RecoverHeld(Bundle.Recover(v).w, if w.cfg.validation.None? then 0 else w.cfg.validation.value.version);
  }

  /** Event `i` leads from state `i` to the next; its verdict and its answer are on record. */
  ghost predicate Occurs(states: seq<World>, events: seq<Event>, verdicts: seq<Option<Validation>>, answers: seq<Option<Result>>, i: int)
    requires 0 <= i < |events| && |states| == |events| + 1 && |verdicts| == |answers| == |events|
  {
    states[i + 1] == After(states[i], events[i]) && verdicts[i] == Accepts(states[i], events[i]) && answers[i] == Answer(states[i], events[i])
  }

  /** A node that starts empty and lives through `events`. */
  ghost predicate Timeline(lossy: bool, states: seq<World>, events: seq<Event>, verdicts: seq<Option<Validation>>, answers: seq<Option<Result>>) {
    && |states| == |events| + 1 && |verdicts| == |answers| == |events|
    && states[0] == N.EmptyNode(lossy)
    && forall i :: 0 <= i < |events| ==> Occurs(states, events, verdicts, answers, i)
  }

  lemma {:induction false} AlwaysGuarded(lossy: bool, states: seq<World>, events: seq<Event>, verdicts: seq<Option<Validation>>,
                                         answers: seq<Option<Result>>, i: nat, j: nat)
    requires Timeline(lossy, states, events, verdicts, answers) && i <= j < |states|
    ensures Guarded(states[i].cfg) && Guarded(states[j].cfg) && Forward(states[i].cfg.validation, states[j].cfg.validation)
    decreases i + j
  {
    hide After, Accepts, Answer;
    if i < j {
      AlwaysGuarded(lossy, states, events, verdicts, answers, i, j - 1);
      assert Occurs(states, events, verdicts, answers, j - 1);
      EventPasses(states[j - 1], events[j - 1]);
    } else if i > 0 {
      AlwaysGuarded(lossy, states, events, verdicts, answers, i - 1, i - 1);
      assert Occurs(states, events, verdicts, answers, i - 1);
      EventPasses(states[i - 1], events[i - 1]);
    }
  }

  /**
   * Take two events of a life, and whatever happened before and between them, drift and repairs
   * included. If the validator accepted both requests, the versions do not go back, and the same
   * version means the same digest and the same stored verdict.
   */
  lemma AcceptedInOrder(lossy: bool, states: seq<World>, events: seq<Event>, verdicts: seq<Option<Validation>>,
                        answers: seq<Option<Result>>, i: nat, j: nat)
    requires Timeline(lossy, states, events, verdicts, answers) && i < j < |events| && verdicts[i].Some? && verdicts[j].Some?
    ensures verdicts[i].value.version <= verdicts[j].value.version
    ensures verdicts[i].value.version == verdicts[j].value.version ==> verdicts[i] == verdicts[j]
  {
    hide After, Accepts, Answer;
    AlwaysGuarded(lossy, states, events, verdicts, answers, i, j);
    AlwaysGuarded(lossy, states, events, verdicts, answers, i + 1, j);
    assert Occurs(states, events, verdicts, answers, i) && Occurs(states, events, verdicts, answers, j);
    EventPasses(states[i], events[i]);
    EventPasses(states[j], events[j]);
  }

  /** An apply that succeeded was accepted, in the version it reports. */
  lemma AppliedWasAccepted(lossy: bool, states: seq<World>, events: seq<Event>, verdicts: seq<Option<Validation>>,
                           answers: seq<Option<Result>>, i: nat)
    requires Timeline(lossy, states, events, verdicts, answers) && i < |events| && answers[i].Some? && answers[i].value.Applied?
    ensures verdicts[i].Some? && verdicts[i].value.passed && answers[i].value.state.version == verdicts[i].value.version
  {
    hide After, Accepts, Answer;
    AlwaysGuarded(lossy, states, events, verdicts, answers, i, i);
    assert Occurs(states, events, verdicts, answers, i);
    EventPasses(states[i], events[i]);
  }

  /** Successful applies never go back in version, even when a repair rolled the node back in between. */
  lemma AppliedInOrder(lossy: bool, states: seq<World>, events: seq<Event>, verdicts: seq<Option<Validation>>,
                       answers: seq<Option<Result>>, i: nat, j: nat)
    requires Timeline(lossy, states, events, verdicts, answers) && i < j < |events|
    requires answers[i].Some? && answers[i].value.Applied? && answers[j].Some? && answers[j].value.Applied?
    ensures answers[i].value.state.version <= answers[j].value.state.version
  {
    hide Timeline;
    AppliedWasAccepted(lossy, states, events, verdicts, answers, i);
    AppliedWasAccepted(lossy, states, events, verdicts, answers, j);
    AcceptedInOrder(lossy, states, events, verdicts, answers, i, j);
  }

  /** The applied version never exceeds the last validated one. */
  lemma AppliedIsValidated(lossy: bool, states: seq<World>, events: seq<Event>, verdicts: seq<Option<Validation>>,
                           answers: seq<Option<Result>>, i: nat)
    requires Timeline(lossy, states, events, verdicts, answers) && i < |states|
    ensures var c := states[i].cfg;
            c.applied.Some? ==> c.validation.Some? && c.applied.value.version <= c.validation.value.version
  {
    hide Timeline;
    AlwaysGuarded(lossy, states, events, verdicts, answers, i, i);
  }

  // ---------------------------------------------------------------- what the runner said

  /** The request's candidate was written and the runner, the second step of its script, accepted it. */
  predicate RunnerAccepted(e: Event, version: Uint64, digest: Digest) {
    && e.Command? && e.op.ApplyConfig? && ValidRequest(e.op.req) && e.op.req.version == version && e.op.req.digest == digest
    && |e.op.fates| >= 2 && e.op.fates[0] == Done && e.op.fates[1] == Done
  }

  predicate Fresh(c: ConfigFiles, req: Request) {
    c.validation.Some? ==> c.validation.value.version < req.version
  }

  /** `v` is about the request, and says of it what the runner said. */
  predicate Truthful(v: Validation, req: Request, fates: seq<Fate>) {
    && v.version == req.version && v.digest == req.digest
    && |fates| >= 2 && fates[0] == Done && (v.passed <==> fates[1] == Done)
  }

  /**
   * A fresh verdict, given or only stored, is the runner's: passed exactly when the candidate was
   * written and the runner's own step succeeded. Without both steps there is no verdict.
   */
  lemma VerdictIsTheRunners(w: World, req: Request, now: Clock)
    requires ValidRequest(req) && Fresh(w.cfg, req)
    ensures var g := Validate(w, req, now);
            && (g.Verdict? ==> Truthful(g.v, req, w.fates) && g.w.cfg.validation == Some(g.v) && g.w.cfg.candidate == Some(req.config))
            && (g.w.cfg.validation == w.cfg.validation ||
                (g.w.cfg.validation.Some? && Truthful(g.w.cfg.validation.value, req, w.fates)))
  {
    var c := w.cfg.(candidate := Some(req.config));
    var s1 := Put(w, c);
    if s1.Ok? {
      assert |w.fates| >= 1 && w.fates[0] == Done && s1.w == w.(cfg := c, fates := w.fates[1..]);
      RunnerStep(s1.w, req, now, w.fates);
    } else {
      assert s1.w.cfg.validation == w.cfg.validation;
    }
    hide Put, Check, Truthful;
  }

  lemma RunnerStep(w: World, req: Request, now: Clock, fates: seq<Fate>)
    requires |fates| >= 1 && fates[0] == Done && w.fates == fates[1..]
    ensures var s := Check(w);
            var v := Validation(req.version, req.digest, s.Ok?, now.validatedAt);
            var t := Put(s.w, s.w.cfg.(validation := Some(v)));
            && s.w.cfg == w.cfg && t.w.cfg.candidate == w.cfg.candidate && (!s.Dead? ==> Truthful(v, req, fates))
            && (t.w.cfg.validation == w.cfg.validation || t.w.cfg.validation == Some(v))
            && (t.Ok? ==> t.w.cfg.validation == Some(v))
  {
  }

  /**
   * On any disk: when the runner does not accept the candidate of a new version, the apply says
   * so or refuses, starts nothing, and leaves every file but the verdict alone.
   */
  lemma RejectedCandidateChangesNothing(w: World, req: Request, now: Clock)
    requires ValidRequest(req) && Fresh(w.cfg, req) && !(|w.fates| >= 2 && w.fates[0] == Done && w.fates[1] == Done)
    ensures var flow := Apply(w, req, now);
            && flow.Return? && ConfigSuccess.OnlyVerdict(w, flow.w) && flow.w.starts == w.starts && flow.w.process == w.process
            && (flow.r == NotValidated(req.version, req.digest) || flow.r.Refused? || flow.r.Crashed?)
  {
    hide RunValidator, Validate, ApplyValidated, ValidRequest, ConfigSuccess.Admits;
    VerdictIsTheRunners(w, req, now);
    ConfigSuccess.VerdictMoves(w, req, now);
  }

  /** What is stored as passed was accepted by the runner, now or before. */
  lemma EventIsTruthful(w: World, e: Event)
    requires Guarded(w.cfg)
    ensures var stored := After(w, e).cfg.validation;
            stored == w.cfg.validation || (stored.Some? && (stored.value.passed ==> RunnerAccepted(e, stored.value.version, stored.value.digest)))
  {
    hide Config.Recover, Bundle.Recover, Bundle.Install, Validate, ApplyValidated;
    match e
    case Drift(_, _) =>
    case Command(op) =>
      var v := w.(fates := op.fates);
      match op
      case ApplyConfig(req, now, _) => ApplyIsTruthful(v, req, now);
      case InstallBundle(rel, now, _) => BundleInstallFrame(v, rel, now);
      case Boot(_) =>
        BundleRecoverFrame(v);
        RecoverHeld(Bundle.Recover(v).w, if w.cfg.validation.None? then 0 else w.cfg.validation.value.version);
  }

  lemma ApplyIsTruthful(w: World, req: Request, now: Clock)
    requires Guarded(w.cfg)
    ensures var stored := Apply(w, req, now).w.cfg.validation;
            stored == w.cfg.validation || (stored.Some? && ValidRequest(req) && Truthful(stored.value, req, w.fates))
  {
    hide ApplyValidated, RunValidator;
    var g := Validate(w, req, now);
    AcceptedGate(w, req, now);
    if ValidRequest(req) && Fresh(w.cfg, req) { VerdictIsTheRunners(w, req, now); }
    if g.Verdict? { ApplyValidatedHeld(g.w, req, now, req.version); }
    hide Capped;
  }

  lemma {:induction false} StoredWasAccepted(lossy: bool, states: seq<World>, events: seq<Event>, verdicts: seq<Option<Validation>>,
                                             answers: seq<Option<Result>>, i: nat)
    requires Timeline(lossy, states, events, verdicts, answers) && i < |states|
    requires states[i].cfg.validation.Some? && states[i].cfg.validation.value.passed
    ensures var v := states[i].cfg.validation.value;
            exists k :: 0 <= k < i && RunnerAccepted(events[k], v.version, v.digest)
    decreases i
  {
    hide After, Accepts, Answer, RunnerAccepted;
    if i > 0 {
      assert Occurs(states, events, verdicts, answers, i - 1);
      AlwaysGuarded(lossy, states, events, verdicts, answers, i - 1, i - 1);
      EventIsTruthful(states[i - 1], events[i - 1]);
      var v := states[i].cfg.validation.value;
      if states[i].cfg.validation == states[i - 1].cfg.validation {
        StoredWasAccepted(lossy, states, events, verdicts, answers, i - 1);
        var k :| 0 <= k < i - 1 && RunnerAccepted(events[k], v.version, v.digest);
      } else {
        assert RunnerAccepted(events[i - 1], v.version, v.digest);
      }
    }
  }

  /**
   * Over a whole life, drift and repairs included: an apply that succeeded applied a version and
   * digest that the runner itself accepted, at this command or at an earlier one.
   */
  lemma AppliedWasRun(lossy: bool, states: seq<World>, events: seq<Event>, verdicts: seq<Option<Validation>>,
                      answers: seq<Option<Result>>, i: nat)
    requires Timeline(lossy, states, events, verdicts, answers) && i < |events| && answers[i].Some? && answers[i].value.Applied?
    ensures var a := answers[i].value.state;
            exists k :: 0 <= k <= i && RunnerAccepted(events[k], a.version, a.digest)
  {
    hide After, Accepts, Answer, RunnerAccepted, Config.VerifyApplied, LoadCurrent;
    AlwaysGuarded(lossy, states, events, verdicts, answers, i, i);
    assert Occurs(states, events, verdicts, answers, i);
    EventPasses(states[i], events[i]);
    AnswerIsRequested(states[i], events[i]);
    StoredWasAccepted(lossy, states, events, verdicts, answers, i + 1);
    var v := states[i + 1].cfg.validation.value;
    var k :| 0 <= k < i + 1 && RunnerAccepted(events[k], v.version, v.digest);
  }

  /** The applied version and digest are those of the verdict. */
  lemma AnswerIsRequested(w: World, e: Event)
    requires Guarded(w.cfg) && Answer(w, e).Some? && Answer(w, e).value.Applied?
    ensures Accepts(w, e).Some?
    ensures Answer(w, e).value.state.version == Accepts(w, e).value.version && Answer(w, e).value.state.digest == Accepts(w, e).value.digest
  {
    hide Validate, ApplyValidated, LoadCurrent, Config.VerifyApplied;
    var v := w.(fates := e.op.fates);
    ConfigDrift.SuccessVerifies(v, e.op.req, e.op.now);
    AcceptedGate(v, e.op.req, e.op.now);
  }
}
