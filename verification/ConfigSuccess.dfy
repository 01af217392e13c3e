/**
 * What a command achieves when none of its steps fails: the configuration side. Together with
 * the results on crashes this says which commands take effect, not only what they cannot break.
 */
module ConfigSuccess {
  import opened Common
  import opened ConfigNames
  import opened NodeState
  import opened NodeInvariant
  import opened NodeProgress
  import opened Retention
  import Config = ConfigActivation
  import C = ConfigProofs
  import S = NodeStores

  // ---------------------------------------------------------------- retention

  lemma {:induction false} RankingLength<T(!new)>(s: set<Entry<T>>)
    requires Listing(s)
    ensures |ByRank(s)| == |s|
  {
    if s != {} { RankingLength(s - {Newest(s)}); }
  }

  lemma {:induction false} FewDoomed<T>(q: seq<Entry<T>>, i: nat, protected: set<T>, keep: nat)
    requires i <= |q|
    ensures |DoomedFrom(q, i, protected, keep)| <= |q| - i
    decreases |q| - i
  {
    if i < |q| { FewDoomed(q, i + 1, protected, keep); }
  }

  /** A listing with one entry a key is no longer than its keys. */
  lemma {:induction false} FewEntries<T>(s: set<Entry<T>>, keys: set<T>)
    requires forall e <- s :: e.key in keys
    requires forall a, b :: a in s && b in s && a.key == b.key ==> a == b
    ensures |s| <= |keys|
  {
    if s != {} {
      var e :| e in s;
      FewEntries(s - {e}, keys - {e.key});
    }
  }

  /** No more deletions than there are keys. */
  lemma DeletionsBound<T(!new)>(s: set<Entry<T>>, keys: set<T>, protected: set<T>, keep: nat)
    requires Listing(s) && (forall e <- s :: e.key in keys)
    requires forall a, b :: a in s && b in s && a.key == b.key ==> a == b
    ensures |Doomed(s, protected, keep)| <= |keys|
  {
    RankingLength(s);
    FewDoomed(ByRank(s), 0, protected, keep);
    FewEntries(s, keys);
  }

  /** `s` succeeded, changed nothing but the version store, and did not let it grow. */
  predicate Pruned(w: World, s: Step, n: nat) {
    && Arrived(s, n) && s.w == w.(cfg := w.cfg.(versions := s.w.cfg.versions), fates := s.w.fates)
    && |s.w.cfg.versions| <= |w.cfg.versions|
  }

  lemma {:induction false} DeleteArrives(w: World, doomed: seq<Entry<ConfigTarget>>, removed: bool, n: nat)
    requires Clear(w.fates, |doomed| + 1 + n)
    ensures Arrived(Config.Delete(w, doomed, removed), n)
    decreases |doomed|
  {
    if doomed == [] {
      OtherStep(w, n);
      ClearShrinks(w.fates, n + 1, n);
    } else {
      var c := w.cfg.(versions := w.cfg.versions - {doomed[0].key});
      ConfigStep(w, c, |doomed[1..]| + 1 + n);
      hide Clear, Rename;
      DeleteArrives(Rename(w, c).w, doomed[1..], true, n);
    }
  }

  lemma FewerVersions<T, U>(m: map<T, U>, gone: set<T>)
    ensures |m - gone| <= |m|
  {
    assert m.Keys == (m - gone).Keys + (m.Keys - (m - gone).Keys);
  }

  lemma PruneArrives(w: World, n: nat)
    requires !Config.LoadApplied(w.cfg).Invalid? && !Config.LoadPending(w.cfg).Invalid?
    requires Clear(w.fates, |w.cfg.versions| + 1 + n)
    ensures Pruned(w, Config.Prune(w), n)
  {
    var entries, protected := Config.Entries(w.cfg.versions), Config.Protected(w.cfg);
    var doomed := Doomed(entries, protected, Config.RETAINED_CONFIGS);
    DeletionsBound(entries, w.cfg.versions.Keys, protected, Config.RETAINED_CONFIGS);
    hide Clear, Config.Delete, Config.LoadApplied, Config.LoadPending;
    ClearShrinks(w.fates, |w.cfg.versions| + 1 + n, |doomed| + 1 + n);
    DeleteArrives(w, doomed, false, n);
    var k := S.DeleteConfigs(w, doomed, false);
    FewerVersions(w.cfg.versions, S.Keys(doomed[..k]));
  }

  // ---------------------------------------------------------------- the forward path

  /** Returned `r`, leaving the records of `c`, whatever is left of the version store, and `start` as the last start. */
  predicate Leaves(w: World, flow: Flow<Config.Result>, r: Config.Result, c: ConfigFiles, start: Start, n: nat) {
    && flow.Return? && flow.r == r && Clear(flow.w.fates, n)
    && flow.w == w.(cfg := c.(versions := flow.w.cfg.versions), process := Running(start), starts := flow.w.starts, fates := flow.w.fates)
    && |flow.w.starts| > 0 && flow.w.starts[|flow.w.starts| - 1] == start
  }

  lemma FinishSucceeds(w: World, next: AppliedConfig, start: Start, n: nat)
    requires w.cfg.applied == Some(next) && Config.ValidApplied(next) && Clear(w.fates, |w.cfg.versions| + 3 + n)
    requires w.process == Running(start) && |w.starts| > 0 && w.starts[|w.starts| - 1] == start
    ensures Leaves(w, Config.Finish(w, next), Config.Applied(next), w.cfg.(pending := None, failed := None), start, n)
  {
    hide Clear, Put, Config.Prune;
    var c1 := w.cfg.(pending := None);
    ConfigStep(w, c1, |w.cfg.versions| + 2 + n);
    var w1 := Put(w, c1).w;
    var c2 := c1.(failed := None);
    ConfigStep(w1, c2, |w.cfg.versions| + 1 + n);
    PruneArrives(Put(w1, c2).w, n);
  }

  lemma RecordSucceeds(w: World, p: PendingConfig, now: Clock, start: Start, n: nat)
    requires p.version > 0 && Clear(w.fates, |w.cfg.versions| + 4 + n)
    requires w.process == Running(start) && |w.starts| > 0 && w.starts[|w.starts| - 1] == start
    ensures var next := C.Next(p, now);
            Leaves(w, Config.RecordNext(w, p, now), Config.Applied(next),
                   w.cfg.(applied := Some(next), pending := None, failed := None), start, n)
  {
    hide Clear, Put, Config.Finish;
    var c := w.cfg.(applied := Some(C.Next(p, now)));
    ConfigStep(w, c, |w.cfg.versions| + 3 + n);
    FinishSucceeds(Put(w, c).w, C.Next(p, now), start, n);
  }

  /** The link to the way back after attempt `p`. */
  function PreviousAfter(c: ConfigFiles, p: PendingConfig): Option<ConfigTarget> {
    if p.previousTarget.Some? then p.previousTarget else c.previous
  }

  lemma CommitSucceeds(w: World, p: PendingConfig, now: Clock, start: Start, n: nat)
    requires p.version > 0 && Clear(w.fates, |w.cfg.versions| + 5 + n)
    requires w.process == Running(start) && |w.starts| > 0 && w.starts[|w.starts| - 1] == start
    ensures var next := C.Next(p, now);
            Leaves(w, Config.Commit(w, p, now), Config.Applied(next),
                   w.cfg.(previous := PreviousAfter(w.cfg, p), applied := Some(next), pending := None, failed := None), start, n)
  {
    hide Clear, Rename, Config.RecordNext;
    if p.previousTarget.Some? {
      var c := w.cfg.(previous := p.previousTarget);
      ConfigStep(w, c, |w.cfg.versions| + 4 + n);
      RecordSucceeds(Rename(w, c).w, p, now, start, n);
    } else {
      ClearShrinks(w.fates, |w.cfg.versions| + 5 + n, |w.cfg.versions| + 4 + n);
      RecordSucceeds(w, p, now, start, n);
    }
  }

  /** What an undisturbed activation of `p` leaves of the records. */
  function ActivatedRecords(c: ConfigFiles, p: PendingConfig, now: Clock): ConfigFiles {
    c.(current := Some(p.command), previous := PreviousAfter(c, p), applied := Some(C.Next(p, now)), pending := None, failed := None)
  }

  lemma ActivateSucceeds(w: World, p: PendingConfig, now: Clock, n: nat)
    requires p.version > 0 && Clear(w.fates, |w.cfg.versions| + 9 + n)
    ensures Leaves(w, Config.Activate(w, p, now), Config.Applied(C.Next(p, now)),
                   ActivatedRecords(w.cfg, p, now), Start(ActivePath(w.bun), Some(p.command)), n)
  {
    hide Clear, Put, Rename, Check, Restart, Config.Commit;
    var k := |w.cfg.versions| + n;
    var c1 := w.cfg.(pending := Some(p));
    ConfigStep(w, c1, k + 8);
    var w1 := Put(w, c1).w;
    var c2 := c1.(current := Some(p.command));
    ConfigStep(w1, c2, k + 7);
    var w2 := Rename(w1, c2).w;
    OtherStep(w2, k + 6);
    var w3 := Check(w2).w;
    OtherStep(w3, k + 5);
    CommitSucceeds(Restart(w3).w, p, now, Start(ActivePath(w.bun), Some(p.command)), n);
  }

  // ---------------------------------------------------------------- the verdict

  /** The stored verdict does not stand in the way. */
  predicate Admits(c: ConfigFiles, req: Config.Request) {
    match c.validation
    case None => true
    case Some(v) => v.version < req.version || (v.version == req.version && v.digest == req.digest && v.passed)
  }

  predicate OnlyVerdict(w: World, w': World) {
    w' == w.(cfg := w.cfg.(candidate := w'.cfg.candidate, validation := w'.cfg.validation), fates := w'.fates)
  }

  lemma ValidateSucceeds(w: World, req: Config.Request, now: Clock, n: nat)
    requires Config.ValidRequest(req) && Clear(w.fates, n + 3)
    ensures var g := Config.Validate(w, req, now);
            && OnlyVerdict(w, g.w) && Clear(g.w.fates, n)
            && (g.Verdict? && g.v.passed <==> Admits(w.cfg, req))
            && (g.Verdict? ==> g.w.cfg.validation == Some(g.v) && g.v.version == req.version && g.v.digest == req.digest)
  {
    hide Clear, Put, Check;
    ClearShrinks(w.fates, n + 3, n);
    var c1 := w.cfg.(candidate := Some(req.config));
    ConfigStep(w, c1, n + 2);
    var w1 := Put(w, c1).w;
    OtherStep(w1, n + 1);
    var w2 := Check(w1).w;
    var c2 := c1.(validation := Some(Validation(req.version, req.digest, true, now.validatedAt)));
    ConfigStep(w2, c2, n);
  }

  // ---------------------------------------------------------------- preparing

  function Plain(req: Config.Request): ConfigTarget { ConfigTarget(req.version, req.digest, None) }

  /** A name that an attempt for `req` may install; the second one only when it repairs. */
  predicate NameFor(req: Config.Request, repair: bool, now: Clock, t: ConfigTarget) {
    t == Plain(req) || (repair && t == ConfigTarget(req.version, req.digest, Some(now.nanos)))
  }

  /** No file of other content, type or mode stands under the target's name. */
  predicate NameIsFree(c: ConfigFiles, t: ConfigTarget) {
    t in c.versions ==> Config.VerifyTarget(c, t, t.digest)
  }

  lemma InstallSucceeds(w: World, req: Config.Request, repair: bool, now: Clock, n: nat)
    requires Config.ValidRequest(req) && Clear(w.fates, n + 1) && (repair || NameIsFree(w.cfg, Plain(req)))
    ensures var i := Config.InstallVersion(w, req, repair, now);
            && i.Installed? && NameFor(req, repair, now, i.target)
            && i.w == w.(cfg := w.cfg.(versions := i.w.cfg.versions), fates := i.w.fates)
            && |i.w.cfg.versions| <= |w.cfg.versions| + 1 && Clear(i.w.fates, n)
  {
    var t := if repair then ConfigTarget(req.version, req.digest, Some(now.nanos)) else Plain(req);
    var versions := w.cfg.versions[t := VersionFile(req.config, true, now.mtime)];
    ConfigStep(w, w.cfg.(versions := versions), n);
    ClearShrinks(w.fates, n + 1, n);
    assert versions.Keys == w.cfg.versions.Keys + {t};
    hide Clear, Put;
  }

  /** The attempt that `Begin` makes. */
  function AttemptAt(req: Config.Request, t: ConfigTarget, previousTarget: Option<ConfigTarget>, previousApplied: Option<AppliedConfig>,
                     now: Clock): PendingConfig
  {
    PendingConfig(t, previousTarget, previousApplied, req.version, req.digest, now.startedAt)
  }

  predicate BeginLeaves(w: World, flow: Flow<Config.Result>, p: PendingConfig, now: Clock, n: nat) {
    Leaves(w, flow, Config.Applied(C.Next(p, now)), ActivatedRecords(w.cfg, p, now), Start(ActivePath(w.bun), Some(p.command)), n)
  }

  /** With nothing pending, readable records and a clear script, an attempt whose name is free succeeds. */
  lemma BeginSucceeds(w: World, req: Config.Request, pt: Option<ConfigTarget>, pa: Option<AppliedConfig>, repair: bool, now: Clock, n: nat)
    returns (t: ConfigTarget)
    requires w.cfg.pending.None? && !Config.LoadApplied(w.cfg).Invalid?
    requires Config.ValidRequest(req) && (repair || NameIsFree(w.cfg, Plain(req))) && Clear(w.fates, 2 * |w.cfg.versions| + 13 + n)
    ensures NameFor(req, repair, now, t)
    ensures BeginLeaves(w, Config.Begin(w, req, pt, pa, repair, now), AttemptAt(req, t, pt, pa, now), now, n)
  {
    hide Clear, Check, Config.Prune, Config.InstallVersion, Config.Activate;
    var k := |w.cfg.versions|;
    OtherStep(w, 2 * k + 12 + n);
    var w1 := Check(w).w;
    PruneArrives(w1, k + 11 + n);
    var w2 := Config.Prune(w1).w;
    S.PruneConfigsExactly(w1, Plain(req));
    InstallSucceeds(w2, req, repair, now, k + 10 + n);
    var i := Config.InstallVersion(w2, req, repair, now);
    t := i.target;
    ClearShrinks(i.w.fates, k + 10 + n, |i.w.cfg.versions| + 9 + n);
    ActivateSucceeds(i.w, AttemptAt(req, t, pt, pa, now), now, n);
  }

  // ---------------------------------------------------------------- a request on a sound node

  lemma VersionsVerify(w: World, t: ConfigTarget)
    requires Invariant(w)
    ensures NameIsFree(w.cfg, t)
  {
  }

  /** Every request the node is meant to take: the same applied version again, or a newer one. */
  predicate Acceptable(c: ConfigFiles, req: Config.Request) {
    && Config.ValidRequest(req) && Admits(c, req)
    && (c.applied.Some? ==> req.version > c.applied.value.version ||
                            (req.version == c.applied.value.version && req.digest == c.applied.value.digest))
  }

  /**
   * A newer version on a settled node, with or without one applied: with no failing step it is
   * selected, started and recorded, the old one becomes the way back, and nothing is pending or failed.
   */
  lemma NewerIsApplied(w: World, req: Config.Request, now: Clock, n: nat)
    requires Invariant(w) && w.cfg.pending.None? && C.Newer(w.cfg, req) && Acceptable(w.cfg, req)
    requires Clear(w.fates, 2 * |w.cfg.versions| + 16 + n)
    ensures var flow := Config.Apply(w, req, now);
            var target := ConfigTarget(req.version, req.digest, None);
            var next := AppliedConfig(req.version, req.digest, target, now.appliedAt);
            var start := Start(ActivePath(w.bun), Some(target));
            && flow.Return? && flow.r == Config.Applied(next)
            && flow.w.cfg.current == Some(target) && flow.w.cfg.applied == Some(next)
            && flow.w.cfg.previous == (if w.cfg.applied.Some? then Some(w.cfg.applied.value.target) else w.cfg.previous)
            && flow.w.cfg.pending.None? && flow.w.cfg.failed.None?
            && flow.w.process == Running(start) && |flow.w.starts| > 0 && flow.w.starts[|flow.w.starts| - 1] == start
            && flow.w.bun == w.bun && Clear(flow.w.fates, n)
  {
    hide Invariant, Clear, Config.Validate, Config.Begin, Config.ConfirmAgain, Config.Repair,
      Config.VerifyTarget, Admits, ConfigSettled, Config.ValidApplied;
    var k := |w.cfg.versions|;
    ValidateSucceeds(w, req, now, 2 * k + 13 + n);
    var w1 := Config.Validate(w, req, now).w;
    C.ValidateKeeps(w, req, now);
    C.SettledPair(w1);
    SettledCurrent(w);
    VersionsVerify(w1, Plain(req));
    var t := BeginSucceeds(w1, req, w1.cfg.current, w1.cfg.applied, false, now, n);
  }

  lemma SettledCurrent(w: World)
    requires Invariant(w) && w.cfg.pending.None?
    ensures w.cfg.current == if w.cfg.applied.Some? then Some(w.cfg.applied.value.target) else None
  {
  }

  lemma ConfirmSucceeds(w: World, a: AppliedConfig, n: nat)
    requires Invariant(w) && w.cfg.pending.None? && w.cfg.applied == Some(a) && Clear(w.fates, |w.cfg.versions| + 2 + n)
    ensures var flow := Config.ConfirmAgain(w, a);
            && flow.Return? && flow.r == Config.Applied(a)
            && flow.w == w.(cfg := w.cfg.(versions := flow.w.cfg.versions, failed := None), fates := flow.w.fates)
  {
    hide Invariant, Clear, Put, Config.Prune, ConfigSettled, Config.VerifyApplied;
    C.SettledPair(w);
    var c := w.cfg.(failed := None);
    ConfigStep(w, c, |w.cfg.versions| + 1 + n);
    PruneArrives(Put(w, c).w, n);
  }

  /** The applied version again: nothing but the failure record and the store changes, and nothing restarts. */
  lemma RepeatIsApplied(w: World, req: Config.Request, now: Clock, n: nat)
    requires Invariant(w) && w.cfg.pending.None? && !C.Newer(w.cfg, req) && Acceptable(w.cfg, req)
    requires Clear(w.fates, |w.cfg.versions| + 5 + n)
    ensures var flow := Config.Apply(w, req, now);
            && flow.Return? && flow.r == Config.Applied(w.cfg.applied.value)
            && C.SameRecords(w.cfg.(failed := None), flow.w.cfg)
            && flow.w.process == w.process && flow.w.starts == w.starts && flow.w.bun == w.bun
  {
    hide Invariant, Clear, Config.Validate, Config.Begin, Config.ConfirmAgain, Config.Repair,
      Config.VerifyTarget, Admits, ConfigSettled, Config.ValidApplied;
    ValidateSucceeds(w, req, now, |w.cfg.versions| + 2 + n);
    var w1 := Config.Validate(w, req, now).w;
    C.ValidateKeeps(w, req, now);
    C.SettledPair(w1);
    ConfirmSucceeds(w1, w1.cfg.applied.value, n);
  }

  lemma VerdictSteps(w: World, c: ConfigFiles)
    requires c == w.cfg.(candidate := c.candidate, validation := c.validation)
    ensures OnlyVerdict(w, Put(w, c).w) && OnlyVerdict(w, Check(w).w)
  {
  }

  lemma ValidatorMoves(w: World, req: Config.Request, now: Clock)
    ensures var g := Config.RunValidator(w, req, now);
            OnlyVerdict(w, g.w) && (g.Closed? ==> g.r.Refused? || g.r.Crashed?)
  {
    hide Put, Check;
    var c := w.cfg.(candidate := Some(req.config));
    VerdictSteps(w, c);
    var s1 := Put(w, c);
    VerdictSteps(s1.w, s1.w.cfg);
    var s2 := Check(s1.w);
    VerdictSteps(s2.w, s2.w.cfg.(validation := Some(Validation(req.version, req.digest, s2.Ok?, now.validatedAt))));
  }

  lemma VerdictMoves(w: World, req: Config.Request, now: Clock)
    ensures var g := Config.Validate(w, req, now);
            && OnlyVerdict(w, g.w)
            && (g.Verdict? && g.v.passed ==> Config.ValidRequest(req) && Admits(w.cfg, req))
            && (g.Closed? ==> g.r.Refused? || g.r.Crashed?)
  {
    ValidatorMoves(w, req, now);
    hide Config.RunValidator, OnlyVerdict;
    assert OnlyVerdict(w, w) by { VerdictMovesNothing(w); }
  }

  lemma VerdictMovesNothing(w: World)
    ensures OnlyVerdict(w, w)
  {
  }

  /** What the other commands read of the configuration does not depend on verdicts. */
  lemma VerdictIsNotRead(w: World, w': World)
    requires OnlyVerdict(w, w')
    ensures Config.LoadApplied(w'.cfg) == Config.LoadApplied(w.cfg)
    ensures forall a :: Config.VerifyApplied(w'.cfg, a) == Config.VerifyApplied(w.cfg, a)
    ensures forall t :: Config.AppliedForTarget(w'.cfg, t) == Config.AppliedForTarget(w.cfg, t)
    ensures w'.cfg.pending == w.cfg.pending && w'.cfg.previous == w.cfg.previous && w'.cfg.versions == w.cfg.versions
  {
  }

  /** Any other request changes at most the verdict, whatever happens to its steps. */
  lemma UnacceptableIsIgnored(w: World, req: Config.Request, now: Clock)
    requires Invariant(w) && w.cfg.pending.None? && !Acceptable(w.cfg, req)
    ensures var flow := Config.Apply(w, req, now);
            flow.Return? && !flow.r.Applied? && OnlyVerdict(w, flow.w)
  {
    hide Invariant, Config.Validate, Config.Begin, Config.ConfirmAgain, Config.Repair, Config.VerifyTarget, Config.VerifyApplied,
      Config.ValidApplied, Config.ValidRequest, Admits, ConfigSettled;
    VerdictMoves(w, req, now);
    C.SettledPair(w);
    VerdictIsNotRead(w, Config.Validate(w, req, now).w);
  }

  /** On a settled node and with no failing step, a request takes effect exactly when it is acceptable. */
  lemma TakesEffectExactly(w: World, req: Config.Request, now: Clock)
    requires Invariant(w) && w.cfg.pending.None? && Clear(w.fates, 2 * |w.cfg.versions| + 16)
    ensures Config.Apply(w, req, now).Return? && (Config.Apply(w, req, now).r.Applied? <==> Acceptable(w.cfg, req))
  {
    hide Invariant, Clear, Config.Apply, Admits;
    if !Acceptable(w.cfg, req) {
      UnacceptableIsIgnored(w, req, now);
    } else if C.Newer(w.cfg, req) {
      NewerIsApplied(w, req, now, 0);
    } else {
      ClearShrinks(w.fates, 2 * |w.cfg.versions| + 16, |w.cfg.versions| + 5);
      RepeatIsApplied(w, req, now, 0);
    }
  }
}
