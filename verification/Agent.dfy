/** internal/agent/client.go: the agent drives the two managers; a life is a loop over commands and restarts. */
module Agent {
  import opened Common
  import opened NodeState
  import opened NodeRuns
  import Config = ConfigActivation
  import Bundle = BundleActivation
  import ConfigManager
  import BundleManager

  /** Recover the bundle, then the configuration; the first error ends the start. */
  method Boot(w: World) returns (w': World)
    ensures w' == NodeRuns.Start(w)
  {
    var bundles := new BundleManager.Manager(w);
    var r := bundles.Recover();
    w' := bundles.Node();
    if r.Recovered? {
      var configs := new ConfigManager.Manager(w');
      var _ := configs.Recover();
      w' := configs.Node();
    }
  }

  method Execute(w: World, op: Op) returns (w': World)
    ensures w' == Exec(w, op)
  {
    hide NodeRuns.Start, Config.Apply, Bundle.Install;
    var v := w.(fates := op.fates);
    match op
    case ApplyConfig(req, now, _) =>
      var configs := new ConfigManager.Manager(v);
      var _ := configs.Apply(req, now);
      w' := configs.Node();
    case InstallBundle(rel, now, _) =>
      var bundles := new BundleManager.Manager(v);
      var _ := bundles.Install(rel, now);
      w' := bundles.Node();
    case Boot(_) =>
      w' := Boot(v);
  }

  /** The managers themselves, run from an empty node, serve what their records select. */
  method Live(lossy: bool, ops: seq<Op>) returns (w: World)
    ensures w == Run(EmptyNode(lossy), ops)
    ensures NothingDangles(w)
    ensures !lossy && Quiescent(w) ==> ServesRecords(w)
  {
    hide Exec, NothingDangles, ServesRecords;
    w := EmptyNode(lossy);
    var i := 0;
    while i < |ops|
      invariant i <= |ops|
      invariant Run(w, ops[i..]) == Run(EmptyNode(lossy), ops)
    {
      assert ops[i..][1..] == ops[i + 1..];
      w := Execute(w, ops[i]);
      i := i + 1;
    }
    StoresNeverDangle(lossy, ops);
    EmptyNodeIsInvariant(lossy);
    if !lossy && Quiescent(w) { QuiescentServes(EmptyNode(lossy), ops); }
  }
}
