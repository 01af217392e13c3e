/**
 * Whole lives of a node: commands and restarts in any order, each cut off anywhere.
 * internal/agent/client.go starts by recovering the bundle, then the configuration.
 */
module NodeRuns {
  import opened Common
  import opened ConfigNames
  import opened NodeState
  import opened NodeInvariant
  import Config = ConfigActivation
  import Bundle = BundleActivation
  import C = ConfigProofs
  import B = BundleProofs

  datatype Op =
    | ApplyConfig(req: Config.Request, now: Clock, fates: seq<Fate>)
    | InstallBundle(rel: Bundle.Release, now: Clock, fates: seq<Fate>)
    | Boot(fates: seq<Fate>)

  /** The two recoveries of a starting agent; the second runs only after the first returned nil. */
  ghost function Start(w: World): World {
    var flow := Bundle.Recover(w);
    if flow.Return? && flow.r.Recovered? then Config.Recover(flow.w).w else flow.w
  }

  ghost function Exec(w: World, op: Op): World {
    var v := w.(fates := op.fates);
    match op
    case ApplyConfig(req, now, _) => Config.Apply(v, req, now).w
    case InstallBundle(rel, now, _) => Bundle.Install(v, rel, now).w
    case Boot(_) => Start(v)
  }

  ghost function Run(w: World, ops: seq<Op>): World
    decreases |ops|
  {
    if ops == [] then w else Run(Exec(w, ops[0]), ops[1..])
  }

  // ---------------------------------------------------------------- every reachable node

  lemma ExecKeeps(w: World, op: Op)
    requires Invariant(w)
    ensures Invariant(Exec(w, op)) && Exec(w, op).lossy == w.lossy
  {
    hide Invariant, Config.Apply, Config.Recover, Bundle.Install, Bundle.Recover;
    var v := w.(fates := op.fates);
    C.FatesIrrelevant(w, op.fates);
    match op
    case ApplyConfig(req, now, _) => C.ApplyKeeps(v, req, now);
    case InstallBundle(rel, now, _) => B.InstallKeeps(v, rel, now);
    case Boot(_) =>
      B.RecoverInvariant(v);
      C.RecoverInvariant(Bundle.Recover(v).w);
  }

  lemma {:induction false} RunKeeps(w: World, ops: seq<Op>)
    requires Invariant(w)
    ensures Invariant(Run(w, ops)) && Run(w, ops).lossy == w.lossy
    decreases |ops|
  {
    hide Invariant, Exec;
    if ops != [] {
      ExecKeeps(w, ops[0]);
      RunKeeps(Exec(w, ops[0]), ops[1..]);
    }
  }

  function EmptyNode(lossy: bool): World {
    World(ConfigFiles(None, None, None, None, None, map[], None, None),
          BundleFiles(None, None, None, None, None, map[]), Stopped, [], lossy, [])
  }

  lemma EmptyNodeIsInvariant(lossy: bool)
    ensures Invariant(EmptyNode(lossy))
  {
  }

  /** Every target named by a link or a record exists and is intact. */
  ghost predicate NothingDangles(w: World) {
    && (forall t :: t in Config.Protected(w.cfg) ==> t in w.cfg.versions && Config.VerifyTarget(w.cfg, t, t.digest))
    && (forall t :: t in Bundle.Protected(w.bun) ==> Bundle.Verified(w.bun, t))
  }

  lemma ConfigTargetsExist(c: ConfigFiles, t: ConfigTarget)
    requires ConfigSound(c) && t in Config.Protected(c)
    ensures t in c.versions && Config.VerifyTarget(c, t, t.digest)
  {
  }

  lemma BundleTargetsExist(b: BundleFiles, t: BundleTarget)
    requires BundleSound(b) && t in Bundle.Protected(b)
    ensures Bundle.Verified(b, t)
  {
  }

  lemma InvariantDoesNotDangle(w: World)
    requires Invariant(w)
    ensures NothingDangles(w)
  {
    hide ConfigSound, BundleSound, Config.Protected, Bundle.Protected;
    forall t | t in Config.Protected(w.cfg) ensures t in w.cfg.versions && Config.VerifyTarget(w.cfg, t, t.digest) {
      ConfigTargetsExist(w.cfg, t);
    }
    forall t | t in Bundle.Protected(w.bun) ensures Bundle.Verified(w.bun, t) {
      BundleTargetsExist(w.bun, t);
    }
  }

  /** In every reachable state, whatever crashed: nothing dangles. */
  lemma StoresNeverDangle(lossy: bool, ops: seq<Op>)
    ensures NothingDangles(Run(EmptyNode(lossy), ops))
  {
    hide Run, Invariant, NothingDangles;
    EmptyNodeIsInvariant(lossy);
    RunKeeps(EmptyNode(lossy), ops);
    InvariantDoesNotDangle(Run(EmptyNode(lossy), ops));
  }

  // ---------------------------------------------------------------- the process serves the records

  predicate Quiescent(w: World) { w.cfg.pending.None? && w.bun.pending.None? }

  /** The last healthy start used exactly what the records select; without a configuration nothing runs. */
  predicate ServesRecords(w: World) {
    match w.cfg.applied
    case None => w.process == Stopped
    case Some(a) =>
      && w.process == Running(NodeState.Start(ActivePath(w.bun), Some(a.target)))
      && |w.starts| > 0 && w.starts[|w.starts| - 1] == w.process.start
  }

  lemma QuiescentServes(w: World, ops: seq<Op>)
    requires Invariant(w) && !w.lossy && Quiescent(Run(w, ops))
    ensures ServesRecords(Run(w, ops))
  {
    hide Run;
    RunKeeps(w, ops);
  }

  // ---------------------------------------------------------------- pending records

  /** A pending record is still there, or its attempt was confirmed, or undone with a failure record. */
  predicate ConfigAccounted(c: ConfigFiles, p: PendingConfig) {
    || c.pending == Some(p)
    || (c.pending.None? && c.current == Some(p.command) && c.applied.Some? && Config.Matches(c.applied.value, p))
    || (c.pending.None? && C.Undone(c, p) && C.FailureOf(c, p))
  }

  predicate BundleAccounted(b: BundleFiles, p: PendingBundle) {
    || b.pending == Some(p)
    || (b.pending.None? && b.current == Some(p.target) && b.applied.Some? && Bundle.Matches(b.applied.value, p))
    || (b.pending.None? && B.Undone(b, p) && B.FailureOf(b, p))
  }

  lemma ConfigPendingStep(w: World, op: Op, p: PendingConfig)
    requires Invariant(w) && w.cfg.pending == Some(p)
    ensures ConfigAccounted(Exec(w, op).cfg, p)
  {
    hide Invariant, C.Framed, B.Framed, Config.Apply, Config.Recover, Bundle.Install, Bundle.Recover;
    var v := w.(fates := op.fates);
    C.FatesIrrelevant(w, op.fates);
    C.AnyPendingIsSafe(v, p);
    var next := C.NextOf(v, p);
    match op
    case ApplyConfig(req, now, _) => C.ApplyBlocked(v, req, now, p, next, 0);
    case InstallBundle(rel, now, _) =>
      B.InstallKeeps(v, rel, now);
      B.FramedParts(v, Bundle.Install(v, rel, now).w);
    case Boot(_) =>
      B.RecoverInvariant(v);
      var u := Bundle.Recover(v).w;
      B.FramedParts(v, u);
      C.AnyPendingIsSafe(u, p);
      C.RecoverKeeps(u, p, C.NextOf(u, p), 0);
  }

  lemma BundlePendingStep(w: World, op: Op, p: PendingBundle)
    requires Invariant(w) && w.bun.pending == Some(p)
    ensures BundleAccounted(Exec(w, op).bun, p)
  {
    hide Invariant, C.Framed, B.Framed, Config.Apply, Config.Recover, Bundle.Install, Bundle.Recover;
    var v := w.(fates := op.fates);
    C.FatesIrrelevant(w, op.fates);
    B.AnyPendingIsSafe(v, p);
    match op
    case ApplyConfig(req, now, _) =>
      C.ApplyKeeps(v, req, now);
      ConfigFrame(v, Config.Apply(v, req, now).w);
    case InstallBundle(rel, now, _) => B.InstallBlocked(v, rel, now);
    case Boot(_) =>
      B.RecoverKeeps(v, p, B.NextOf(v, p), None);
      var u := Bundle.Recover(v).w;
      B.RecoverInvariant(v);
      C.RecoverInvariant(u);
      ConfigFrame(u, Config.Recover(u).w);
  }

  lemma ConfigFrame(w: World, w': World)
    requires C.Framed(w, w')
    ensures w'.bun == w.bun && w'.lossy == w.lossy
  {
  }

  /** A record written by an apply that then went away again: confirmed, undone, or its link was never switched. */
  lemma ApplyLeavesAnOutcome(w: World, req: Config.Request, now: Clock)
    requires Invariant(w) && w.cfg.pending.None? && C.Newer(w.cfg, req)
    ensures var p := C.AttemptOf(w.cfg, req, now);
            var c := Config.Apply(w, req, now).w.cfg;
            ConfigAccounted(c, p) || C.SameRecords(w.cfg, c)
  {
    hide Invariant, Config.Apply, C.Txn, C.Framed;
    C.ApplyFresh(w, req, now);
  }

  lemma InstallLeavesAnOutcome(w: World, rel: Bundle.Release, now: Clock)
    requires Invariant(w) && w.bun.pending.None? && !B.Repeats(w.bun, rel)
    ensures var p := B.AttemptOf(w.bun, rel, now);
            var b := Bundle.Install(w, rel, now).w.bun;
            BundleAccounted(b, p) || B.SameRecords(w.bun, b)
  {
    hide Invariant, Bundle.Install, B.Txn, B.Framed, B.Repeats;
    B.InstallFresh(w, rel, now);
  }
}
