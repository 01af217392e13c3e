/** Which commands take effect in a life: with the recovery results, no reachable node is a dead end unless it is stuck. */
module NodeUpgrades {
  import opened NodeState
  import opened NodeInvariant
  import opened NodeRuns
  import opened NodeLives
  import Config = ConfigActivation
  import Bundle = BundleActivation
  import C = ConfigProofs
  import B = BundleProofs
  import P = NodeProgress
  import ConfigSuccess
  import BundleSuccess

  lemma StepOf(lossy: bool, ops: seq<Op>, states: seq<World>, i: nat)
    requires Life(lossy, ops, states) && i < |ops|
    ensures states[i + 1] == Exec(states[i], ops[i]) && Invariant(states[i]) && Invariant(states[i + 1])
  {
    hide Exec, Invariant;
    LifeKeeps(lossy, ops, states, i);
    LifeKeeps(lossy, ops, states, i + 1);
    assert Happens(states, ops, i);
  }

  /**
   * In any life, an apply none of whose steps fails, on a node with no attempt pending: an
   * acceptable version ends up selected, recorded and intact with nothing pending or failed; any
   * other request changes no record.
   */
  lemma RequestTakesEffect(lossy: bool, ops: seq<Op>, states: seq<World>, i: nat, req: Config.Request)
    requires Life(lossy, ops, states) && i < |ops| && ops[i].ApplyConfig? && ops[i].req == req
    requires states[i].cfg.pending.None? && P.Clear(ops[i].fates, 2 * |states[i].cfg.versions| + 16)
    ensures var c, d := states[i].cfg, states[i + 1].cfg;
            if ConfigSuccess.Acceptable(c, req) then
              && d.applied.Some? && d.applied.value.version == req.version && d.applied.value.digest == req.digest
              && Config.VerifyApplied(d, d.applied.value) && d.pending.None? && d.failed.None?
            else C.SameRecords(c, d)
  {
    hide Happens, Invariant, P.Clear, Config.Apply, ConfigSuccess.Acceptable, ConfigSuccess.Admits, Config.VerifyApplied, ConfigSettled;
    StepOf(lossy, ops, states, i);
    var w := states[i].(fates := ops[i].fates);
    C.FatesIrrelevant(states[i], ops[i].fates);
    if !ConfigSuccess.Acceptable(w.cfg, req) {
      ConfigSuccess.UnacceptableIsIgnored(w, req, ops[i].now);
    } else {
      assert C.Newer(w.cfg, req) || (w.cfg.applied.value.version == req.version && w.cfg.applied.value.digest == req.digest) by {
        AcceptableOrder(w.cfg, req);
      }
      if C.Newer(w.cfg, req) {
        ConfigSuccess.NewerIsApplied(w, req, ops[i].now, 0);
      } else {
        P.ClearShrinks(w.fates, 2 * |w.cfg.versions| + 16, |w.cfg.versions| + 5);
        ConfigSuccess.RepeatIsApplied(w, req, ops[i].now, 0);
      }
      C.SettledPair(states[i + 1]);
    }
  }

  lemma AcceptableOrder(c: ConfigFiles, req: Config.Request)
    requires ConfigSuccess.Acceptable(c, req)
    ensures C.Newer(c, req) || (c.applied.value.version == req.version && c.applied.value.digest == req.digest)
  {
  }

  /** The same of an install: an acceptable release ends up selected, recorded and whole. */
  lemma ReleaseTakesEffect(lossy: bool, ops: seq<Op>, states: seq<World>, i: nat, rel: Bundle.Release)
    requires Life(lossy, ops, states) && i < |ops| && ops[i].InstallBundle? && ops[i].rel == rel
    requires states[i].bun.pending.None? && P.Clear(ops[i].fates, 2 * |states[i].bun.versions| + 16)
    ensures var b, d := states[i].bun, states[i + 1].bun;
            if BundleSuccess.Acceptable(states[i], rel) then
              && d.applied.Some? && d.applied.value.version == rel.version && d.applied.value.xrayVersion == rel.xrayVersion
              && d.applied.value.digest == rel.digest && Bundle.VerifyApplied(d, d.applied.value) && d.pending.None? && d.failed.None?
            else B.SameRecords(b, d)
  {
    hide Happens, Invariant, P.Clear, Bundle.Install, BundleSuccess.NameAvailable, Config.LoadCurrent,
      B.ValidRelease, Bundle.VerifyApplied, BundleSettled;
    StepOf(lossy, ops, states, i);
    var w := states[i].(fates := ops[i].fates);
    B.FatesIrrelevant(states[i], ops[i].fates);
    if !BundleSuccess.Acceptable(w, rel) {
      BundleSuccess.UnacceptableIsIgnored(w, rel, ops[i].now);
    } else {
      if B.Repeats(w.bun, rel) {
        BundleSuccess.RepeatIsInstalled(w, rel, ops[i].now, 0);
      } else {
        BundleSuccess.NewIsInstalled(w, rel, ops[i].now, 0);
      }
      B.SettledFacts(states[i + 1]);
    }
  }
}
