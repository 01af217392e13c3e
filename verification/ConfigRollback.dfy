/**
 * What a single failing step does to an apply: before the pending record nothing happened, a
 * link that cannot be switched is withdrawn, and from then on the old pair comes back and serves.
 */
module ConfigRollback {
  import opened Common
  import opened ConfigNames
  import opened NodeState
  import opened NodeInvariant
  import opened NodeProgress
  import opened Retention
  import Config = ConfigActivation
  import C = ConfigProofs
  import S = NodeStores
  import ConfigSuccess
  import ConfigDrift

  // ---------------------------------------------------------------- scripts with one failure

  /** `j` steps succeed, the next one reports an error, and the `n` after it succeed. */
  predicate FailsAt(fates: seq<Fate>, j: nat, n: nat) {
    && |fates| > j + n && (forall i :: 0 <= i < j ==> fates[i] == Done)
    && (fates[j] == NotDone || fates[j] == DoneButError)
    && (forall i :: j < i <= j + n ==> fates[i] == Done)
  }

  /** The failing step itself. */
  lemma FailsNow(w: World, n: nat)
    requires FailsAt(w.fates, 0, n)
    ensures (Next(w) == NotDone || Next(w) == DoneButError) && Clear(Rest(w), n)
  {
  }

  /** A step before the failing one. */
  lemma FailsLater(w: World, j: nat, n: nat)
    requires j > 0 && FailsAt(w.fates, j, n)
    ensures Clear(w.fates, 1) && FailsAt(Rest(w), j - 1, n)
  {
    assert forall i :: 0 <= i < |Rest(w)| ==> Rest(w)[i] == w.fates[i + 1];
  }

  // ---------------------------------------------------------------- the rollback

  /** The records after attempt `p` was rolled back for `code`. */
  function RolledBackRecords(c: ConfigFiles, p: PendingConfig, code: ErrorCode): ConfigFiles {
    c.(current := p.previousTarget, applied := p.previousApplied, pending := None,
       failed := Some(ConfigFailure(p.version, p.digest, code, RolledBack)))
  }

  /** Rolled back: the old pair, the reason, and the old configuration started last, or nothing running before the first. */
  predicate IsRolledBack(w: World, u: World, p: PendingConfig, code: ErrorCode, n: nat) {
    && Clear(u.fates, n)
    && u == w.(cfg := RolledBackRecords(w.cfg, p, code), process := C.Restored(w, p), starts := u.starts, fates := u.fates)
    && u.starts == (if p.previousTarget.None? then w.starts else w.starts + [Start(ActivePath(w.bun), p.previousTarget)])
  }

  /** The way back of attempt `p` is there. */
  predicate HasWayBack(c: ConfigFiles, p: PendingConfig) {
    if p.previousTarget.None? then p.previousApplied.None?
    else p.previousApplied.Some? && Config.RollbackApplied(c, p) == p.previousApplied
  }

  lemma WayBackOnVersions(c: ConfigFiles, d: ConfigFiles, p: PendingConfig)
    requires c.versions == d.versions
    ensures HasWayBack(c, p) == HasWayBack(d, p)
  {
  }

  lemma RecordLeaves(w: World, p: PendingConfig, code: ErrorCode, n: nat)
    requires Clear(w.fates, n + 2)
    ensures var s := Config.RecordRollback(w, p, code);
            && Arrived(s, n)
            && s.w == w.(cfg := w.cfg.(failed := Some(ConfigFailure(p.version, p.digest, code, RolledBack)), pending := None), fates := s.w.fates)
  {
    hide Put, Clear;
    var c := w.cfg.(failed := Some(ConfigFailure(p.version, p.digest, code, RolledBack)));
    ConfigStep(w, c, n + 1);
    ConfigStep(Put(w, c).w, c.(pending := None), n);
  }

  lemma RollbackLeaves(w: World, p: PendingConfig, code: ErrorCode, n: nat)
    requires Clear(w.fates, n + 6) && HasWayBack(w.cfg, p)
    ensures Config.Rollback(w, p, code).Ok? && IsRolledBack(w, Config.Rollback(w, p, code).w, p, code, n)
  {
    hide Put, Rename, Check, Restart, Stop, Clear, Config.RecordRollback, Config.RollbackApplied;
    var c := w.cfg.(current := p.previousTarget);
    ConfigStep(w, c, n + 5);
    var w1 := Put(w, c).w;
    var d := c.(applied := p.previousApplied);
    ConfigStep(w1, d, n + 4);
    var w2 := Put(w1, d).w;
    OtherStep(w2, n + 3);
    if p.previousTarget.None? {
      ClearShrinks(Stop(w2).w.fates, n + 3, n + 2);
      RecordLeaves(Stop(w2).w, p, code, n);
    } else {
      var w3 := Check(w2).w;
      OtherStep(w3, n + 2);
      RecordLeaves(Restart(w3).w, p, code, n);
    }
  }

  predicate ReturnsRolledBack(w: World, flow: Flow<Config.Result>, p: PendingConfig, code: ErrorCode, n: nat) {
    flow.Return? && flow.r == Config.RolledBackTo(p.version, p.digest, code) && IsRolledBack(w, flow.w, p, code, n)
  }

  lemma ResultLeaves(w: World, p: PendingConfig, code: ErrorCode, n: nat)
    requires Clear(w.fates, n + 6) && HasWayBack(w.cfg, p)
    ensures ReturnsRolledBack(w, Config.RollbackResult(w, p, code), p, code, n)
  {
    hide Config.Rollback, Clear, HasWayBack, IsRolledBack;
    RollbackLeaves(w, p, code, n);
  }

  /** A recovery that has to roll back, undisturbed: the old pair is back, serves, and the attempt is recorded as rolled back. */
  lemma RecoverRollsBack(w: World, p: PendingConfig, n: nat)
    requires Invariant(w) && w.cfg.pending == Some(p) && !ConfirmableConfig(w.cfg, p) && Clear(w.fates, n + 6)
    ensures var flow := Config.Recover(w);
            flow.Return? && flow.r.Recovered? && IsRolledBack(w, flow.w, p, PreparationFailed, n)
  {
    hide Clear, Config.Rollback, Config.ConfirmApplied, Config.Matches, Config.VerifyApplied, Config.LoadApplied, Config.LoadPending;
    C.AnyPendingIsSafe(w, p);
    C.PendingVerify(w, p, C.NextOf(w, p), 0);
    PendingHasWayBack(w, p);
    hide Invariant, IsRolledBack;
    ResultLeaves(w, p, PreparationFailed, n);
  }

  lemma PendingHasWayBack(w: World, p: PendingConfig)
    requires Invariant(w) && w.cfg.pending == Some(p)
    ensures HasWayBack(w.cfg, p)
  {
  }

  // ---------------------------------------------------------------- an activation in which one step fails

  /** Whether the previous link was already moved when step `j` of the activation failed. */
  function RecordsAtFailure(c: ConfigFiles, p: PendingConfig, j: nat): ConfigFiles {
    if p.previousTarget.Some? && j == 5 then c.(previous := p.previousTarget) else c
  }

  /** The code of a rollback: the third step after the pending record is the restart, all others are writes or checks. */
  function CodeOf(j: nat): ErrorCode { if j == 3 then ActivationFailed else PersistenceFailed }

  /** The last step that a failure of which is rolled back: writing the applied record. */
  function LastUndone(p: PendingConfig): nat { if p.previousTarget.Some? then 5 else 4 }

  /** How an activation ends whose step `j` failed. `w` is the world before the pending record. */
  predicate UndoneAt(w: World, flow: Flow<Config.Result>, p: PendingConfig, j: nat) {
    && flow.Return? && flow.r == Config.RolledBackTo(p.version, p.digest, CodeOf(j))
    && flow.w.cfg == RolledBackRecords(RecordsAtFailure(w.cfg, p, j), p, CodeOf(j))
    && flow.w.process == C.Restored(w, p) && flow.w.bun == w.bun
  }

  lemma UndoneFrom(w: World, u: World, flow: Flow<Config.Result>, p: PendingConfig, j: nat)
    requires ReturnsRolledBack(u, flow, p, CodeOf(j), 0) && u.bun == w.bun
    requires RolledBackRecords(u.cfg, p, CodeOf(j)) == RolledBackRecords(RecordsAtFailure(w.cfg, p, j), p, CodeOf(j))
    ensures UndoneAt(w, flow, p, j)
  {
  }

  /** A failing write of the candidate's records leaves the old ones or the new ones. */
  lemma FailedWrite(w: World, c: ConfigFiles, n: nat)
    requires FailsAt(w.fates, 0, n)
    ensures Put(w, c).Err? && Clear(Put(w, c).w.fates, n) && (Put(w, c).w.cfg == w.cfg || Put(w, c).w.cfg == c)
    ensures Put(w, c).w.bun == w.bun
    ensures Rename(w, c) == Err(w.(fates := Rest(w))) && Check(w) == Err(w.(fates := Rest(w))) && Clear(Rest(w), n)
    ensures Restart(w).Err? && Restart(w).w == w.(process := Anything, starts := Restart(w).w.starts, fates := Rest(w))
  {
    FailsNow(w, n);
  }

  lemma RecordUndone(w0: World, w: World, p: PendingConfig, now: Clock, j: nat)
    requires FailsAt(w.fates, 0, 6) && HasWayBack(w.cfg, p) && j == LastUndone(p) && w.bun == w0.bun
    requires w.cfg == RecordsAtFailure(w0.cfg, p, j).(pending := w.cfg.pending, current := w.cfg.current)
    ensures UndoneAt(w0, Config.RecordNext(w, p, now), p, j)
  {
    hide FailsAt, Clear, Put, HasWayBack, Config.RollbackResult, IsRolledBack;
    var c := w.cfg.(applied := Some(C.Next(p, now)));
    FailedWrite(w, c, 6);
    var u := Put(w, c).w;
    WayBackOnVersions(w.cfg, u.cfg, p);
    ResultLeaves(u, p, PersistenceFailed, 0);
    UndoneFrom(w0, u, Config.RollbackResult(u, p, PersistenceFailed), p, j);
    hide UndoneAt, ReturnsRolledBack;
  }

  lemma CommitUndone(w0: World, w: World, p: PendingConfig, now: Clock, j: nat)
    requires 4 <= j <= LastUndone(p) && FailsAt(w.fates, j - 4, 6) && HasWayBack(w.cfg, p) && w.bun == w0.bun
    requires w.cfg == w0.cfg.(pending := w.cfg.pending, current := w.cfg.current)
    ensures UndoneAt(w0, Config.Commit(w, p, now), p, j)
  {
    hide FailsAt, Clear, Rename, HasWayBack, Config.RollbackResult, Config.RecordNext, IsRolledBack, UndoneAt, ReturnsRolledBack;
    var c := w.cfg.(previous := p.previousTarget);
    if p.previousTarget.None? {
      RecordUndone(w0, w, p, now, j);
    } else if j == 4 {
      FailedWrite(w, c, 6);
      var u := Rename(w, c).w;
      ResultLeaves(u, p, PersistenceFailed, 0);
      UndoneFrom(w0, u, Config.RollbackResult(u, p, PersistenceFailed), p, j);
      Returned(u, p, PersistenceFailed);
    } else {
      FailsLater(w, 1, 6);
      ConfigStep(w, c, 0);
      WayBackOnVersions(w.cfg, c, p);
      RecordUndone(w0, Rename(w, c).w, p, now, j);
    }
  }

  lemma Returned(w: World, p: PendingConfig, code: ErrorCode)
    ensures Config.RollbackResult(w, p, code).Return?
  {
    hide Config.Rollback;
  }

  lemma LaunchUndone(w0: World, w: World, p: PendingConfig, now: Clock, j: nat)
    requires 2 <= j <= LastUndone(p) && FailsAt(w.fates, j - 2, 6) && HasWayBack(w.cfg, p) && w.bun == w0.bun
    requires w.cfg == w0.cfg.(pending := w.cfg.pending, current := w.cfg.current)
    ensures UndoneAt(w0, Config.Launch(w, p, now), p, j)
  {
    hide FailsAt, Clear, Check, Restart, HasWayBack, Config.RollbackResult, Config.Commit, IsRolledBack, UndoneAt, ReturnsRolledBack;
    if j == 2 {
      FailedWrite(w, w.cfg, 6);
      var u := Check(w).w;
      ResultLeaves(u, p, PersistenceFailed, 0);
      UndoneFrom(w0, u, Config.RollbackResult(u, p, PersistenceFailed), p, j);
      Returned(u, p, PersistenceFailed);
    } else {
      FailsLater(w, j - 2, 6);
      OtherStep(w, 0);
      var w1 := Check(w).w;
      if j == 3 {
        FailedWrite(w1, w1.cfg, 6);
        var u := Restart(w1).w;
        ResultLeaves(u, p, ActivationFailed, 0);
        UndoneFrom(w0, u, Config.RollbackResult(u, p, ActivationFailed), p, j);
        Returned(u, p, ActivationFailed);
      } else {
        FailsLater(w1, j - 3, 6);
        OtherStep(w1, 0);
        CommitUndone(w0, Restart(w1).w, p, now, j);
      }
    }
  }

  /** Step `j` of an activation fails after the switch and before the applied record is safe: the rollback undoes it. */
  lemma ActivationUndone(w: World, p: PendingConfig, now: Clock, j: nat)
    requires 2 <= j <= LastUndone(p) && FailsAt(w.fates, j, 6) && HasWayBack(w.cfg, p)
    ensures UndoneAt(w, Config.Activate(w, p, now), p, j)
  {
    hide FailsAt, Clear, Put, Rename, HasWayBack, Config.Launch, UndoneAt;
    var c := w.cfg.(pending := Some(p));
    FailsLater(w, j, 6);
    ConfigStep(w, c, 0);
    var w1 := Put(w, c).w;
    var d := c.(current := Some(p.command));
    FailsLater(w1, j - 1, 6);
    ConfigStep(w1, d, 0);
    WayBackOnVersions(w.cfg, d, p);
    LaunchUndone(w, Rename(w1, d).w, p, now, j);
  }

  /** The link cannot be switched: the pending record is withdrawn and nothing was started. */
  lemma SwitchWithdrawn(w: World, p: PendingConfig, now: Clock)
    requires w.cfg.pending.None? && FailsAt(w.fates, 1, 1)
    ensures var flow := Config.Activate(w, p, now);
            flow == Return(w.(fates := flow.w.fates), Config.Refused(PreparationFailed, NotRequired))
  {
    hide FailsAt, Clear, Put, Rename, Config.Launch;
    var c := w.cfg.(pending := Some(p));
    FailsLater(w, 1, 1);
    ConfigStep(w, c, 0);
    var w1 := Put(w, c).w;
    FailedWrite(w1, c.(current := Some(p.command)), 1);
    var w2 := Rename(w1, c.(current := Some(p.command))).w;
    ConfigStep(w2, w2.cfg.(pending := None), 0);
    assert w2.cfg.(pending := None) == w.cfg;
  }

  // ---------------------------------------------------------------- the steps before an activation

  /** Exactly the next `m` steps decide: `s` succeeds if and only if they do, and has used them up then. */
  predicate Takes(w: World, s: Step, m: nat) {
    && (s.Ok? <==> Clear(w.fates, m))
    && (s.Ok? ==> s.w.fates == w.fates[m..])
  }

  lemma OneTakes(w: World, c: ConfigFiles)
    ensures Takes(w, Put(w, c), 1) && Takes(w, Rename(w, c), 1) && Takes(w, Check(w), 1)
  {
  }

  lemma ClearSplits(fates: seq<Fate>, m: nat, n: nat)
    ensures Clear(fates, m + n) <==> Clear(fates, m) && Clear(fates[m..], n)
    ensures m + n <= |fates| ==> fates[m..][n..] == fates[m + n..]
  {
    if Clear(fates, m) && Clear(fates[m..], n) {
      forall i | 0 <= i < m + n ensures fates[i] == Done {
        if i >= m { assert fates[m..][i - m] == Done; }
      }
    }
  }

  lemma ThenTakes(w: World, s: Step, m: nat, t: Step, n: nat)
    requires Takes(w, s, m) && (if s.Ok? then Takes(s.w, t, n) else !t.Ok?)
    ensures Takes(w, t, m + n)
  {
    ClearSplits(w.fates, m, n);
  }

  lemma {:induction false} DeleteTakes(w: World, doomed: seq<Entry<ConfigTarget>>, removed: bool)
    ensures Takes(w, Config.Delete(w, doomed, removed), |doomed| + if removed || doomed != [] then 1 else 0)
    decreases |doomed|
  {
    if doomed != [] {
      hide Takes, Rename;
      var c := w.cfg.(versions := w.cfg.versions - {doomed[0].key});
      OneTakes(w, c);
      var s := Rename(w, c);
      if s.Ok? { DeleteTakes(s.w, doomed[1..], true); }
      ThenTakes(w, s, 1, Config.Delete(w, doomed, removed), |doomed[1..]| + 1);
    }
  }

  ghost function DoomedNow(c: ConfigFiles): seq<Entry<ConfigTarget>> {
    Doomed(Config.Entries(c.versions), Config.Protected(c), Config.RETAINED_CONFIGS)
  }

  /** One step a deletion, and a sync if there was any. */
  ghost function PruneSteps(c: ConfigFiles): nat { |DoomedNow(c)| + if DoomedNow(c) != [] then 1 else 0 }

  lemma PruneTakes(w: World)
    requires !Config.LoadApplied(w.cfg).Invalid? && !Config.LoadPending(w.cfg).Invalid?
    ensures Takes(w, Config.Prune(w), PruneSteps(w.cfg))
  {
    DeleteTakes(w, DoomedNow(w.cfg), false);
  }

  predicate Fresh(c: ConfigFiles, req: Config.Request) {
    c.validation.Some? ==> c.validation.value.version < req.version
  }

  /** A fresh verdict takes three steps: the candidate file, the runner and the verdict file. */
  function ValidateSteps(c: ConfigFiles, req: Config.Request): nat { if Fresh(c, req) then 3 else 0 }

  predicate Passes(g: Config.Gate) { g.Verdict? && g.v.passed }

  lemma ValidateTakes(w: World, req: Config.Request, now: Clock)
    requires Config.ValidRequest(req) && ConfigSuccess.Admits(w.cfg, req)
    ensures var g := Config.Validate(w, req, now);
            && (Passes(g) <==> Clear(w.fates, ValidateSteps(w.cfg, req)))
            && (Passes(g) ==> g.w.fates == w.fates[ValidateSteps(w.cfg, req)..])
  {
    if Fresh(w.cfg, req) {
      RunTakes(w, req, now);
      hide Clear, Config.RunValidator;
    } else {
      assert w.fates[0..] == w.fates;
    }
  }

  lemma RunTakes(w: World, req: Config.Request, now: Clock)
    ensures var g := Config.RunValidator(w, req, now);
            && (Passes(g) <==> Clear(w.fates, 3)) && (Passes(g) ==> g.w.fates == w.fates[3..])
  {
    hide Put, Check, Takes;
    var c := w.cfg.(candidate := Some(req.config));
    OneTakes(w, c);
    var s1 := Put(w, c);
    OneTakes(s1.w, s1.w.cfg);
    var s2 := Check(s1.w);
    var d := s2.w.cfg.(validation := Some(Validation(req.version, req.digest, s2.Ok?, now.validatedAt)));
    OneTakes(s2.w, d);
    var t2 := if s1.Ok? then s2 else s1;
    ThenTakes(w, s1, 1, t2, 1);
    var t3 := if t2.Ok? then Put(s2.w, d) else t2;
    ThenTakes(w, t2, 2, t3, 1);
    assert (t3.Ok? <==> Clear(w.fates, 3)) && (t3.Ok? ==> t3.w.fates == w.fates[3..]) by { Took(w, t3, 3); }
    hide Clear;
  }

  lemma Took(w: World, s: Step, m: nat)
    requires Takes(w, s, m)
    ensures (s.Ok? <==> Clear(w.fates, m)) && (s.Ok? ==> s.w.fates == w.fates[m..])
  {
  }

  /** The target is there once retention is through. */
  ghost predicate StillThere(c: ConfigFiles, t: ConfigTarget) { t in c.versions && !S.ConfigIsDoomed(c, t) }

  ghost function InstallSteps(c: ConfigFiles, req: Config.Request): nat {
    if StillThere(c, ConfigSuccess.Plain(req)) then 0 else 1
  }

  lemma InstallTakes(w: World, req: Config.Request, now: Clock)
    requires Config.ValidRequest(req) && ConfigSuccess.NameIsFree(w.cfg, ConfigSuccess.Plain(req))
    ensures var i := Config.InstallVersion(w, req, false, now);
            var m: nat := if ConfigSuccess.Plain(req) in w.cfg.versions then 0 else 1;
            && (i.Installed? <==> Clear(w.fates, m)) && (i.Installed? ==> i.w.fates == w.fates[m..])
  {
    var t := ConfigSuccess.Plain(req);
    OneTakes(w, w.cfg.(versions := w.cfg.versions[t := VersionFile(req.config, true, now.mtime)]));
    assert w.fates[0..] == w.fates;
    hide Put;
  }

  /** All steps of a request for a newer version before its pending record. */
  ghost function StepsToActivation(c: ConfigFiles, req: Config.Request): nat {
    ValidateSteps(c, req) + (1 + (PruneSteps(c) + InstallSteps(c, req)))
  }

  /** Retention and installation together. */
  lemma StoreTakes(w: World, req: Config.Request, now: Clock) returns (i: Config.Install)
    requires Invariant(w) && w.cfg.pending.None? && Config.ValidRequest(req)
    ensures var m := PruneSteps(w.cfg) + InstallSteps(w.cfg, req);
            var s := Config.Prune(w);
            && Invariant(s.w) && C.StoreMoved(w, s.w) && (Clear(w.fates, m) ==> s.Ok?)
            && (s.Ok? ==>
                  && i == Config.InstallVersion(s.w, req, false, now) && Invariant(i.w) && C.StoreMoved(w, i.w)
                  && (i.Installed? <==> Clear(w.fates, m))
                  && (if i.Installed? then i.target == ConfigSuccess.Plain(req) && i.target in i.w.cfg.versions && i.w.fates == w.fates[m..]
                      else i.r.Refused? || i.r.Crashed?))
  {
    hide Invariant, Clear, Config.Prune, Config.InstallVersion, PruneSteps, C.StoreMoved, ConfigSettled;
    var t, m := ConfigSuccess.Plain(req), PruneSteps(w.cfg);
    C.SettledPair(w);
    PruneTakes(w);
    C.PruneKeeps(w);
    var w2 := Config.Prune(w).w;
    ClearSplits(w.fates, m, InstallSteps(w.cfg, req));
    S.PruneConfigsExactly(w, t);
    ConfigSuccess.VersionsVerify(w2, t);
    InstallTakes(w2, req, now);
    C.InstallKeeps(w2, req, now);
    i := Config.InstallVersion(w2, req, false, now);
    C.StoreMovedTransitive(w, w2, i.w);
    if Clear(w.fates, m + InstallSteps(w.cfg, req)) { ClearLength(w.fates, m + InstallSteps(w.cfg, req)); }
  }

  lemma ClearLength(fates: seq<Fate>, m: nat)
    requires Clear(fates, m)
    ensures m <= |fates|
  {
  }

  /** `Begin` on a settled node: its preparatory steps all succeed and it activates, or it changes no record. */
  lemma BeginTakes(w: World, req: Config.Request, now: Clock) returns (u: World)
    requires Invariant(w) && w.cfg.pending.None? && Config.ValidRequest(req)
    ensures var flow := Config.Begin(w, req, w.cfg.current, w.cfg.applied, false, now);
            var m := 1 + (PruneSteps(w.cfg) + InstallSteps(w.cfg, req));
            if Clear(w.fates, m) then
              && Invariant(u) && C.StoreMoved(w, u) && u.fates == w.fates[m..] && ConfigSuccess.Plain(req) in u.cfg.versions
              && flow == Config.Activate(u, C.AttemptOf(w.cfg, req, now), now)
            else flow.Return? && (flow.r.Refused? || flow.r.Crashed?) && C.StoreMoved(w, flow.w)
  {
    hide Invariant, Clear, Check, Config.Prune, Config.InstallVersion, Config.Activate, PruneSteps, InstallSteps, C.StoreMoved;
    var m := PruneSteps(w.cfg) + InstallSteps(w.cfg, req);
    OneTakes(w, w.cfg);
    C.StoreCheck(w);
    var w1 := Check(w).w;
    ClearSplits(w.fates, 1, m);
    assert C.StoreMoved(w, w1) && w1.cfg == w.cfg;
    var i := StoreTakes(w1, req, now);
    C.StoreMovedTransitive(w, w1, Config.Prune(w1).w);
    if Config.Prune(w1).Ok? { C.StoreMovedTransitive(w, w1, i.w); }
    if Clear(w.fates, 1 + m) { ClearLength(w.fates, 1 + m); }
    u := i.w;
  }

  /**
   * A request for a newer version on a settled node. Exactly its preparatory steps, counted here,
   * decide: if they all succeed the attempt is activated, and otherwise nothing was started and
   * no record changed.
   */
  lemma ReachesActivation(w: World, req: Config.Request, now: Clock) returns (u: World)
    requires Invariant(w) && w.cfg.pending.None? && C.Newer(w.cfg, req) && ConfigSuccess.Acceptable(w.cfg, req)
    ensures var flow := Config.Apply(w, req, now);
            if Clear(w.fates, StepsToActivation(w.cfg, req)) then
              && Invariant(u) && C.StoreMoved(w, u) && u.fates == w.fates[StepsToActivation(w.cfg, req)..]
              && ConfigSuccess.Plain(req) in u.cfg.versions
              && flow == Config.Activate(u, C.AttemptOf(w.cfg, req, now), now)
            else
              && flow.Return? && (flow.r.Refused? || flow.r.Crashed? || flow.r == Config.NotValidated(req.version, req.digest))
              && C.StoreMoved(w, flow.w)
  {
    hide Invariant, Clear, Config.Validate, Config.Begin, Config.ConfirmAgain, Config.Repair, Config.VerifyTarget, Config.ValidApplied,
      ConfigSuccess.Admits, PruneSteps, InstallSteps, ConfigSettled;
    var g := Config.Validate(w, req, now);
    var w1 := g.w;
    var k := ValidateSteps(w.cfg, req);
    ValidateTakes(w, req, now);
    C.ValidateKeeps(w, req, now);
    ConfigSuccess.VerdictMoves(w, req, now);
    ConfigSuccess.VerdictIsNotRead(w, w1);
    SameStore(w.cfg, w1.cfg, req);
    C.SettledPair(w1);
    var m := 1 + (PruneSteps(w.cfg) + InstallSteps(w.cfg, req));
    ClearSplits(w.fates, k, m);
    if Clear(w.fates, k + m) { ClearLength(w.fates, k + m); }
    u := BeginTakes(w1, req, now);
    var flow := Config.Begin(w1, req, w1.cfg.current, w1.cfg.applied, false, now);
    if Clear(w1.fates, m) {
      C.StoreMovedTransitive(w, w1, u);
    } else {
      C.StoreMovedTransitive(w, w1, flow.w);
    }
  }

  lemma SameStore(c: ConfigFiles, d: ConfigFiles, req: Config.Request)
    requires d == c.(candidate := d.candidate, validation := d.validation)
    ensures PruneSteps(d) == PruneSteps(c) && InstallSteps(d, req) == InstallSteps(c, req)
  {
  }

  lemma SettledHasWayBack(u: World, p: PendingConfig)
    requires Invariant(u) && u.cfg.pending.None? && p.previousTarget == u.cfg.current && p.previousApplied == u.cfg.applied
    ensures HasWayBack(u.cfg, p)
  {
  }

  /**
   * The main promise about a bad candidate: when its restart is not healthy, or a write after the
   * switch fails, the apply answers that it was rolled back and why, the old pair is selected
   * again, the old configuration is what the controller started last, and the failure is on record.
   */
  lemma FailingCandidateIsRolledBack(w: World, req: Config.Request, now: Clock, j: nat)
    requires Invariant(w) && w.cfg.pending.None? && C.Newer(w.cfg, req) && ConfigSuccess.Acceptable(w.cfg, req)
    requires 2 <= j <= (if w.cfg.applied.Some? then 5 else 4)
    requires var k := StepsToActivation(w.cfg, req);
             Clear(w.fates, k) && FailsAt(w.fates[k..], j, 6)
    ensures var flow := Config.Apply(w, req, now);
            var code := if j == 3 then ActivationFailed else PersistenceFailed;
            && flow.Return? && flow.r == Config.RolledBackTo(req.version, req.digest, code)
            && flow.w.cfg.current == w.cfg.current && flow.w.cfg.applied == w.cfg.applied && flow.w.cfg.pending.None?
            && flow.w.cfg.failed == Some(ConfigFailure(req.version, req.digest, code, RolledBack))
            && flow.w.cfg.previous == (if j == 5 then w.cfg.current else w.cfg.previous)
            && flow.w.process == (if w.cfg.applied.None? then Stopped else Running(Start(ActivePath(w.bun), w.cfg.current)))
            && flow.w.bun == w.bun
  {
    hide Invariant, Clear, FailsAt, Config.Apply, Config.Activate, HasWayBack, StepsToActivation, ConfigSuccess.Acceptable, ConfigSettled;
    var u := ReachesActivation(w, req, now);
    var p := C.AttemptOf(w.cfg, req, now);
    C.SettledPair(w);
    SettledHasWayBack(u, p);
    ActivationUndone(u, p, now, j);
  }

  /** A link that cannot be switched: no record changes, nothing was started, and the answer says so. */
  lemma FailingSwitchIsWithdrawn(w: World, req: Config.Request, now: Clock)
    requires Invariant(w) && w.cfg.pending.None? && C.Newer(w.cfg, req) && ConfigSuccess.Acceptable(w.cfg, req)
    requires var k := StepsToActivation(w.cfg, req);
             Clear(w.fates, k) && FailsAt(w.fates[k..], 1, 1)
    ensures var flow := Config.Apply(w, req, now);
            flow.Return? && flow.r == Config.Refused(PreparationFailed, NotRequired) && C.StoreMoved(w, flow.w)
  {
    hide Invariant, Clear, FailsAt, Config.Apply, Config.Activate, StepsToActivation, ConfigSuccess.Acceptable;
    var u := ReachesActivation(w, req, now);
    SwitchWithdrawn(u, C.AttemptOf(w.cfg, req, now), now);
  }

  // ---------------------------------------------------------------- once the applied record is written

  /** The end of an activation: it only tidies up, whatever its steps do. */
  lemma FinishKeepsPair(w: World, next: AppliedConfig)
    ensures var flow := Config.Finish(w, next);
            && flow.Return? && flow.w.cfg.current == w.cfg.current && flow.w.cfg.applied == w.cfg.applied
            && flow.w.process == w.process && flow.w.starts == w.starts
            && (flow.r == Config.Applied(next) || flow.r == Config.Refused(PersistenceFailed, Unknown) ||
                flow.r == Config.Refused(PersistenceFailed, NotRequired) || flow.r.Crashed?)
  {
    hide Put, Config.Prune;
    var c := w.cfg.(pending := None);
    C.Writes(w, c);
    var w1 := Put(w, c).w;
    C.Writes(w1, w1.cfg.(failed := None));
    var w2 := Put(w1, w1.cfg.(failed := None)).w;
    ConfigDrift.PruneMovesStore(w2);
  }

  /** `w` became `u` by an activation up to its applied record. */
  predicate Recorded(w: World, u: World, p: PendingConfig, now: Clock) {
    && u.cfg.current == Some(p.command) && u.cfg.applied == Some(C.Next(p, now))
    && u.process == Running(Start(ActivePath(w.bun), Some(p.command))) && u.bun == w.bun
  }

  lemma ActivationRecords(w: World, p: PendingConfig, now: Clock) returns (u: World)
    requires Clear(w.fates, LastUndone(p) + 1)
    ensures Recorded(w, u, p, now) && Config.Activate(w, p, now) == Config.Finish(u, C.Next(p, now))
  {
    hide Clear, Put, Rename, Check, Restart, Config.Finish;
    var k := LastUndone(p);
    var c1 := w.cfg.(pending := Some(p));
    ConfigStep(w, c1, k);
    var w1 := Put(w, c1).w;
    var c2 := c1.(current := Some(p.command));
    ConfigStep(w1, c2, k - 1);
    var w2 := Rename(w1, c2).w;
    OtherStep(w2, k - 2);
    OtherStep(Check(w2).w, k - 3);
    var w4 := Restart(Check(w2).w).w;
    var c5 := c2.(previous := p.previousTarget);
    var c6 := (if p.previousTarget.None? then c2 else c5).(applied := Some(C.Next(p, now)));
    if p.previousTarget.None? {
      ConfigStep(w4, c6, 0);
      u := Put(w4, c6).w;
    } else {
      ConfigStep(w4, c5, 1);
      ConfigStep(Rename(w4, c5).w, c6, 0);
      u := Put(Rename(w4, c5).w, c6).w;
    }
  }

  /** Once the applied record is written nothing undoes the new version, whatever the remaining steps do. */
  lemma RecordedVersionStays(w: World, req: Config.Request, now: Clock)
    requires Invariant(w) && w.cfg.pending.None? && C.Newer(w.cfg, req) && ConfigSuccess.Acceptable(w.cfg, req)
    requires var k := StepsToActivation(w.cfg, req);
             Clear(w.fates, k) && Clear(w.fates[k..], if w.cfg.applied.Some? then 6 else 5)
    ensures var flow := Config.Apply(w, req, now);
            var next := AppliedConfig(req.version, req.digest, ConfigTarget(req.version, req.digest, None), now.appliedAt);
            && flow.Return? && flow.w.cfg.current == Some(next.target) && flow.w.cfg.applied == Some(next)
            && flow.w.process == Running(Start(ActivePath(w.bun), Some(next.target)))
            && (flow.r == Config.Applied(next) || flow.r == Config.Refused(PersistenceFailed, Unknown) ||
                flow.r == Config.Refused(PersistenceFailed, NotRequired) || flow.r.Crashed?)
  {
    hide Invariant, Clear, Config.Apply, Config.Activate, Config.Finish, StepsToActivation, ConfigSuccess.Acceptable, ConfigSettled;
    var u := ReachesActivation(w, req, now);
    var p := C.AttemptOf(w.cfg, req, now);
    C.SettledPair(w);
    SettledCurrent(w);
    var v := ActivationRecords(u, p, now);
    FinishKeepsPair(v, C.Next(p, now));
  }

  lemma SettledCurrent(w: World)
    requires Invariant(w) && w.cfg.pending.None?
    ensures w.cfg.current.Some? <==> w.cfg.applied.Some?
  {
  }
}
