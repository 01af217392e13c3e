/** The main results, said of every state of every life of a node. */
module NodeLives {
  import opened Common
  import opened ConfigNames
  import opened NodeState
  import opened NodeInvariant
  import opened NodeRuns
  import Config = ConfigActivation
  import Bundle = BundleActivation
  import C = ConfigProofs
  import B = BundleProofs
  import P = NodeProgress

  // ---------------------------------------------------------------- lives

  /** Operation `i`, cut off wherever its script ends, leads from state `i` to the next. */
  ghost predicate Happens(states: seq<World>, ops: seq<Op>, i: int)
    requires 0 <= i < |ops| && |states| == |ops| + 1
  {
    states[i + 1] == Exec(states[i], ops[i])
  }

  /** The states of a node that starts empty and lives through `ops`. */
  ghost predicate Life(lossy: bool, ops: seq<Op>, states: seq<World>) {
    && |states| == |ops| + 1 && states[0] == EmptyNode(lossy)
    && forall i :: 0 <= i < |ops| ==> Happens(states, ops, i)
  }

  lemma {:induction false} LifeKeeps(lossy: bool, ops: seq<Op>, states: seq<World>, i: nat)
    requires Life(lossy, ops, states) && i < |states|
    ensures Invariant(states[i]) && states[i].lossy == lossy
    decreases i
  {
    hide Invariant, Exec;
    if i == 0 {
      EmptyNodeIsInvariant(lossy);
    } else {
      LifeKeeps(lossy, ops, states, i - 1);
      assert Happens(states, ops, i - 1);
      ExecKeeps(states[i - 1], ops[i - 1]);
    }
  }

  /** Running the operations one after the other is a life. */
  lemma {:induction false} RunIsLife(lossy: bool, ops: seq<Op>) returns (states: seq<World>)
    ensures Life(lossy, ops, states) && states[|ops|] == Run(EmptyNode(lossy), ops)
    decreases |ops|
  {
    hide Exec;
    if ops == [] {
      states := [EmptyNode(lossy)];
    } else {
      var n := |ops| - 1;
      var before := RunIsLife(lossy, ops[..n]);
      states := before + [Exec(before[n], ops[n])];
      RunAppend(EmptyNode(lossy), ops[..n], ops[n]);
      assert ops[..n] + [ops[n]] == ops;
      forall i | 0 <= i < |ops| ensures Happens(states, ops, i) {
        if i < n { assert Happens(before, ops[..n], i); }
      }
    }
  }

  lemma {:induction false} RunAppend(w: World, ops: seq<Op>, op: Op)
    ensures Run(w, ops + [op]) == Exec(Run(w, ops), op)
    decreases |ops|
  {
    hide Exec;
    if ops == [] {
      assert Run(Exec(w, op), []) == Exec(w, op);
    } else {
      assert (ops + [op])[1..] == ops[1..] + [op];
      RunAppend(Exec(w, ops[0]), ops[1..], op);
    }
  }

  // ---------------------------------------------------------------- in every state

  /** Every target that a link or a record names exists and is intact. */
  lemma NothingEverDangles(lossy: bool, ops: seq<Op>, states: seq<World>, i: nat)
    requires Life(lossy, ops, states) && i < |states|
    ensures NothingDangles(states[i])
  {
    hide Life, Invariant, NothingDangles;
    LifeKeeps(lossy, ops, states, i);
    InvariantDoesNotDangle(states[i]);
  }

  /**
   * Whenever nothing is pending, the last healthy start used the applied bundle, or the bootstrap
   * binary before any, with the applied configuration; without a configuration nothing runs.
   */
  lemma ServesWhenQuiescent(ops: seq<Op>, states: seq<World>, i: nat)
    requires Life(false, ops, states) && i < |states|
    ensures var w := states[i];
            w.cfg.pending.None? && w.bun.pending.None? ==>
              match w.cfg.applied
              case None => w.process == Stopped
              case Some(a) =>
                var binary := if w.bun.applied.None? then Bootstrap else Managed(Some(w.bun.applied.value.target));
                var start := NodeState.Start(binary, Some(a.target));
                && w.process == Running(start) && w.cfg.current == Some(a.target) && binary == ActivePath(w.bun)
                && |w.starts| > 0 && w.starts[|w.starts| - 1] == start
  {
    hide Life;
    LifeKeeps(false, ops, states, i);
  }

  /** The operation took a course that a disk without lost applied writes does not allow for this script. */
  ghost predicate LosesAppliedWrite(w: World, op: Op) {
    Exec(w, op) != Exec(w.(lossy := false), op).(lossy := w.lossy)
  }

  /** Of one given life on a lossy disk: as long as no bundle's applied write was lost, Xray serves whenever nothing is pending. */
  lemma ServesUntilLoss(ops: seq<Op>, states: seq<World>, i: nat)
    requires Life(true, ops, states) && i < |states| && forall k :: 0 <= k < i ==> !LosesAppliedWrite(states[k], ops[k])
    ensures Quiescent(states[i]) ==> ServesRecords(states[i])
  {
    hide Exec, Invariant, ServesRecords;
    LosslessTwin(ops, states, i);
    if Quiescent(states[i]) { TwinServes(states[i]); }
  }

  lemma {:induction false} LosslessTwin(ops: seq<Op>, states: seq<World>, i: nat)
    requires Life(true, ops, states) && i < |states| && forall k :: 0 <= k < i ==> !LosesAppliedWrite(states[k], ops[k])
    ensures states[i].lossy && Invariant(states[i].(lossy := false))
    decreases i
  {
    hide Exec, Invariant;
    if i == 0 {
      EmptyNodeIsInvariant(false);
    } else {
      LosslessTwin(ops, states, i - 1);
      assert Happens(states, ops, i - 1) && !LosesAppliedWrite(states[i - 1], ops[i - 1]);
      var twin := states[i - 1].(lossy := false);
      ExecKeeps(twin, ops[i - 1]);
      assert states[i].(lossy := false) == Exec(twin, ops[i - 1]);
    }
  }

  lemma TwinServes(w: World)
    requires Invariant(w.(lossy := false)) && Quiescent(w)
    ensures ServesRecords(w)
  {
  }

  /** A pending update never has its previous bundle as its target. */
  lemma PendingTargetIsNew(lossy: bool, ops: seq<Op>, states: seq<World>, i: nat)
    requires Life(lossy, ops, states) && i < |states|
    ensures var b := states[i].bun;
            b.pending.Some? ==> Some(b.pending.value.target) != b.pending.value.previousTarget
  {
    hide Life;
    LifeKeeps(lossy, ops, states, i);
  }

  /** A version file that exists at two times has the bytes its name promises at both. */
  lemma VersionsNeverChange(lossy: bool, ops: seq<Op>, states: seq<World>, i: nat, j: nat, t: ConfigTarget)
    requires Life(lossy, ops, states) && i <= j < |states|
    requires t in states[i].cfg.versions && t in states[j].cfg.versions
    ensures states[i].cfg.versions[t].content == states[j].cfg.versions[t].content == Content(t.digest)
  {
    hide Life;
    LifeKeeps(lossy, ops, states, i);
    LifeKeeps(lossy, ops, states, j);
  }

  /** A bundle directory that exists at two times is whole and describes the bundle of its name at both. */
  lemma BundlesNeverChange(lossy: bool, ops: seq<Op>, states: seq<World>, i: nat, j: nat, t: BundleTarget)
    requires Life(lossy, ops, states) && i <= j < |states|
    requires t in states[i].bun.versions && t in states[j].bun.versions
    ensures var d, e := states[i].bun.versions[t], states[j].bun.versions[t];
            && d.intact && e.intact && d.version == e.version == t.version && d.digest == e.digest == t.digest
  {
    hide Life;
    LifeKeeps(lossy, ops, states, i);
    LifeKeeps(lossy, ops, states, j);
  }

  // ---------------------------------------------------------------- from one state to the next

  /** No operation overwrites a pending record, or drops it without an outcome. */
  lemma PendingIsAccountedFor(lossy: bool, ops: seq<Op>, states: seq<World>, i: nat)
    requires Life(lossy, ops, states) && i < |ops|
    ensures var w, after := states[i], states[i + 1];
            && (w.cfg.pending.Some? ==> ConfigAccounted(after.cfg, w.cfg.pending.value))
            && (w.bun.pending.Some? ==> BundleAccounted(after.bun, w.bun.pending.value))
  {
    hide Invariant, Exec, ConfigAccounted, BundleAccounted;
    LifeKeeps(lossy, ops, states, i);
    assert Happens(states, ops, i);
    var w := states[i];
    if w.cfg.pending.Some? { ConfigPendingStep(w, ops[i], w.cfg.pending.value); }
    if w.bun.pending.Some? { BundlePendingStep(w, ops[i], w.bun.pending.value); }
  }

  /**
   * A start whose fourteen steps succeed leaves nothing pending, whatever came before, exactly
   * unless an update has to be rolled back while the configuration's link and record disagree.
   */
  lemma BootSettles(lossy: bool, ops: seq<Op>, states: seq<World>, i: nat)
    requires Life(lossy, ops, states) && i < |ops| && ops[i].Boot? && P.Clear(ops[i].fates, 14)
    ensures states[i + 1].cfg.pending.None? && states[i + 1].bun.pending.None? <==> !P.Stuck(states[i])
  {
    hide Invariant, Exec, P.Stuck;
    LifeKeeps(lossy, ops, states, i);
    assert Happens(states, ops, i);
    P.BootSettlesFrom(states[i], ops[i].fates);
  }

  // ---------------------------------------------------------------- all or nothing

  /** Only restarts between `i` and `j`. */
  predicate OnlyBoots(ops: seq<Op>, i: nat, j: nat) {
    forall k :: i <= k < j && k < |ops| ==> ops[k].Boot?
  }

  /** Starts alone never free a stuck node, nor change a file of it. */
  lemma {:induction false} StuckForGood(lossy: bool, ops: seq<Op>, states: seq<World>, i: nat, j: nat)
    requires Life(lossy, ops, states) && i <= j < |states| && OnlyBoots(ops, i, j) && P.Stuck(states[i])
    ensures P.Stuck(states[j]) && states[j].cfg == states[i].cfg && states[j].bun == states[i].bun
    decreases j
  {
    hide Invariant, Exec, P.Stuck;
    if i < j {
      StuckForGood(lossy, ops, states, i, j - 1);
      LifeKeeps(lossy, ops, states, j - 1);
      assert Happens(states, ops, j - 1);
      assert ops[j - 1] == Boot(ops[j - 1].fates);
      P.StuckStays(states[j - 1], ops[j - 1].fates);
    }
  }

  lemma FatesTxn(w: World, f: seq<Fate>, p: PendingConfig, next: AppliedConfig, since: nat)
    requires C.Txn(w, p, next, since)
    ensures C.Txn(w.(fates := f), p, next, since)
  {
  }

  lemma FatesBundleTxn(w: World, f: seq<Fate>, p: PendingBundle, next: AppliedBundle, since: Option<nat>)
    requires B.Txn(w, p, next, since)
    ensures B.Txn(w.(fates := f), p, next, since)
  {
  }

  lemma ConfigTxnGrows(w: World, w': World, p: PendingConfig, next: AppliedConfig, since: nat)
    requires C.Safe(w, p, next, since) && Invariant(w') && w'.cfg == w.cfg && w.starts <= w'.starts
    ensures C.Safe(w', p, next, since)
  {
    hide Invariant, StartedSince;
    if w.cfg.applied == Some(next) { C.StartsGrow(w.starts, w'.starts, p.command, since); }
  }

  lemma BootKeepsConfig(w: World, fates: seq<Fate>, p: PendingConfig, next: AppliedConfig, since: nat)
    requires C.Safe(w, p, next, since)
    ensures C.Safe(Exec(w, Boot(fates)), p, next, since)
  {
    hide Invariant, C.Txn, Bundle.Recover, Config.Recover, C.Framed;
    var v := w.(fates := fates);
    C.FatesIrrelevant(w, fates);
    FatesTxn(w, fates, p, next, since);
    B.RecoverInvariant(v);
    var u := Bundle.Recover(v).w;
    ConfigTxnGrows(v, u, p, next, since);
    C.RecoverKeeps(u, p, next, since);
  }

  lemma {:induction false} BootsKeepConfig(lossy: bool, ops: seq<Op>, states: seq<World>, i: nat, j: nat,
                                           p: PendingConfig, next: AppliedConfig, since: nat)
    requires Life(lossy, ops, states) && i <= j < |states| && OnlyBoots(ops, i, j) && C.Safe(states[i], p, next, since)
    ensures C.Safe(states[j], p, next, since)
    decreases j
  {
    hide C.Safe, Exec;
    if i < j {
      BootsKeepConfig(lossy, ops, states, i, j - 1, p, next, since);
      assert Happens(states, ops, j - 1);
      assert ops[j - 1] == Boot(ops[j - 1].fates);
      BootKeepsConfig(states[j - 1], ops[j - 1].fates, p, next, since);
    }
  }

  /**
   * A newer configuration arrives while none is pending; the apply and any number of restarts
   * after it are cut off anywhere. Whenever nothing is pending any more, the node has the exact
   * old pair, or the requested one after a healthy start of it since the request.
   */
  lemma ConfigAllOrNothing(lossy: bool, ops: seq<Op>, states: seq<World>, i: nat, j: nat)
    requires Life(lossy, ops, states) && i < j < |states|
    requires ops[i].ApplyConfig? && states[i].cfg.pending.None? && C.Newer(states[i].cfg, ops[i].req)
    requires OnlyBoots(ops, i + 1, j) && states[j].cfg.pending.None?
    ensures var before, after, req := states[i], states[j], ops[i].req;
            || (after.cfg.current == before.cfg.current && after.cfg.applied == before.cfg.applied)
            || (var target := ConfigTarget(req.version, req.digest, None);
                && after.cfg.current == Some(target)
                && after.cfg.applied == Some(AppliedConfig(req.version, req.digest, target, ops[i].now.appliedAt))
                && StartedSince(after.starts, target, |before.starts|))
  {
    hide Invariant, Config.Apply, C.Concluded, StartedSince;
    var req, now := ops[i].req, ops[i].now;
    LifeKeeps(lossy, ops, states, i);
    assert Happens(states, ops, i);
    var v := states[i].(fates := ops[i].fates);
    C.FatesIrrelevant(states[i], ops[i].fates);
    C.ApplyFresh(v, req, now);
    var p := C.AttemptOf(v.cfg, req, now);
    BootsKeepConfig(lossy, ops, states, i + 1, j, p, C.Next(p, now), |v.starts|);
  }

  /** The transaction, with the start its applied record needed if a configuration was in use when it began. */
  ghost predicate Underway(w: World, p: PendingBundle, next: AppliedBundle, since: nat, inUse: bool) {
    && B.Safe(w, p, next, None) && Some(next) != p.previousApplied
    && (w.bun.applied == Some(next) && inUse ==> B.LaunchedSince(w.starts, p.target, Some(since)))
  }

  lemma StillUnderway(w: World, w': World, p: PendingBundle, next: AppliedBundle, since: nat, inUse: bool)
    requires Underway(w, p, next, since, inUse) && B.Safe(w', p, next, None) && w.starts <= w'.starts
    requires w'.bun.applied == Some(next) ==> w.bun.applied == Some(next)
    ensures Underway(w', p, next, since, inUse)
  {
    hide B.Safe, B.LaunchedSince;
    if w'.bun.applied == Some(next) && inUse { B.StartsGrow(w.starts, w'.starts, p.target, Some(since)); }
  }

  /** Recovery restores or keeps the applied record; it never writes the new one. */
  lemma RecoverWritesNoNext(w: World, p: PendingBundle, next: AppliedBundle)
    requires B.Safe(w, p, next, None) && w.bun.applied != Some(next) && Some(next) != p.previousApplied
    ensures Bundle.Recover(w).w.bun.applied != Some(next)
  {
    var other := next.(appliedAt := next.appliedAt + 1);
    hide Invariant, Bundle.Recover, B.Framed;
    B.RecoverKeeps(w, p, other, None);
  }

  lemma BootKeepsBundle(w: World, fates: seq<Fate>, p: PendingBundle, next: AppliedBundle, since: nat, inUse: bool)
    requires Underway(w, p, next, since, inUse)
    ensures Underway(Exec(w, Boot(fates)), p, next, since, inUse)
  {
    hide Invariant, B.Txn, Bundle.Recover, Config.Recover, B.Framed, C.Framed, B.LaunchedSince;
    var v := w.(fates := fates);
    B.FatesIrrelevant(w, fates);
    FatesBundleTxn(w, fates, p, next, None);
    B.RecoverKeeps(v, p, next, None);
    if v.bun.applied != Some(next) { RecoverWritesNoNext(v, p, next); }
    var u := Bundle.Recover(v).w;
    FramedStarts(v, u);
    StillUnderway(v, u, p, next, since, inUse);
    C.RecoverInvariant(u);
    var x := Config.Recover(u).w;
    ConfigFrame(u, x);
    ConfigFramedStarts(u, x);
    BundleTxnStays(u, x, p, next);
    StillUnderway(u, x, p, next, since, inUse);
  }

  lemma FramedStarts(w: World, w': World)
    requires B.Framed(w, w')
    ensures w.starts <= w'.starts
  {
  }

  lemma ConfigFramedStarts(w: World, w': World)
    requires C.Framed(w, w')
    ensures w.starts <= w'.starts
  {
  }

  lemma BundleTxnStays(w: World, w': World, p: PendingBundle, next: AppliedBundle)
    requires B.Txn(w, p, next, None) && w'.bun == w.bun
    ensures B.Txn(w', p, next, None)
  {
  }

  lemma {:induction false} BootsKeepBundle(lossy: bool, ops: seq<Op>, states: seq<World>, i: nat, j: nat,
                                           p: PendingBundle, next: AppliedBundle, since: nat, inUse: bool)
    requires Life(lossy, ops, states) && i <= j < |states| && OnlyBoots(ops, i, j) && Underway(states[i], p, next, since, inUse)
    ensures Underway(states[j], p, next, since, inUse)
    decreases j
  {
    hide Underway, Exec;
    if i < j {
      BootsKeepBundle(lossy, ops, states, i, j - 1, p, next, since, inUse);
      assert Happens(states, ops, j - 1);
      assert ops[j - 1] == Boot(ops[j - 1].fates);
      BootKeepsBundle(states[j - 1], ops[j - 1].fates, p, next, since, inUse);
    }
  }

  lemma FreshIsUnderway(w: World, w': World, p: PendingBundle, next: AppliedBundle)
    requires B.Safe(w', p, next, Some(|w.starts|)) && w'.cfg == w.cfg && Some(next) != p.previousApplied
    ensures Underway(w', p, next, |w.starts|, Config.InUse(w.cfg))
  {
    hide Invariant, Config.LoadCurrent;
  }

  /** The attempt's record differs from the one it would return to. */
  lemma FreshRecord(w: World, rel: Bundle.Release, now: Clock)
    requires Invariant(w) && w.bun.pending.None? && !B.Repeats(w.bun, rel)
    ensures var p := B.AttemptOf(w.bun, rel, now);
            Some(B.Next(p, now)) != p.previousApplied
  {
  }

  /**
   * The same for a release that is not applied yet, whatever the configuration side is doing. A
   * rolled-back first install leaves neither link nor record, so the bootstrap binary is active
   * again; the new bundle stands only after a healthy start of it, if a configuration was in use.
   */
  lemma BundleAllOrNothing(lossy: bool, ops: seq<Op>, states: seq<World>, i: nat, j: nat)
    requires Life(lossy, ops, states) && i < j < |states|
    requires ops[i].InstallBundle? && states[i].bun.pending.None? && !B.Repeats(states[i].bun, ops[i].rel)
    requires OnlyBoots(ops, i + 1, j) && states[j].bun.pending.None?
    ensures var before, after, rel := states[i], states[j], ops[i].rel;
            || (&& after.bun.current == before.bun.current && after.bun.applied == before.bun.applied
                && (before.bun.applied.None? ==> after.bun.current.None? && ActivePath(after.bun) == Bootstrap))
            || (var target := BundleTarget(rel.version, rel.digest);
                && after.bun.current == Some(target)
                && after.bun.applied == Some(AppliedBundle(rel.version, rel.xrayVersion, rel.digest, target, ops[i].now.appliedAt))
                && (Config.InUse(before.cfg) ==> B.LaunchedSince(after.starts, target, Some(|before.starts|))))
    ensures states[i].cfg.pending.None? ==> (Config.InUse(states[i].cfg) <==> states[i].cfg.applied.Some?)
  {
    hide Invariant, Bundle.Install, B.Concluded, B.LaunchedSince, B.Framed, B.Repeats, Config.InUse;
    var rel, now := ops[i].rel, ops[i].now;
    LifeKeeps(lossy, ops, states, i);
    assert Happens(states, ops, i);
    B.SettledFacts(states[i]);
    if states[i].cfg.pending.None? { B.SettledConfig(states[i]); }
    var v := states[i].(fates := ops[i].fates);
    B.FatesIrrelevant(states[i], ops[i].fates);
    B.InstallFresh(v, rel, now);
    FreshRecord(v, rel, now);
    B.FramedParts(v, Bundle.Install(v, rel, now).w);
    var p := B.AttemptOf(v.bun, rel, now);
    FreshIsUnderway(v, Bundle.Install(v, rel, now).w, p, B.Next(p, now));
    BootsKeepBundle(lossy, ops, states, i + 1, j, p, B.Next(p, now), |v.starts|, Config.InUse(v.cfg));
  }
}
