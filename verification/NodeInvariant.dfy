/** What every durable step keeps, and hence what any crash leaves behind. */
module NodeInvariant {
  import opened Common
  import opened ConfigNames
  import opened NodeState
  import Config = ConfigActivation
  import Bundle = BundleActivation

  // ---------------------------------------------------------------- configuration

  predicate SoundAppliedConfig(c: ConfigFiles, a: AppliedConfig) {
    Config.ValidApplied(a) && a.version == a.target.version && a.digest == a.target.digest && a.target in c.versions
  }

  ghost predicate ConfigStoreSound(c: ConfigFiles) {
    && (forall t :: t in c.versions ==> t.version > 0 && Config.VerifyTarget(c, t, t.digest))
    && (c.current.Some? ==> c.current.value in c.versions)
    && (c.previous.Some? ==> c.previous.value in c.versions)
    && (c.applied.Some? ==> SoundAppliedConfig(c, c.applied.value))
  }

  predicate SoundPendingConfig(c: ConfigFiles, p: PendingConfig) {
    && Config.ValidPending(p) && p.command in c.versions
    && p.previousTarget.Some? == p.previousApplied.Some?
    && (p.previousApplied.Some? ==>
          SoundAppliedConfig(c, p.previousApplied.value) && p.previousApplied.value.version < p.version)
  }

  predicate ConfigSettled(c: ConfigFiles) {
    c.current == if c.applied.Some? then Some(c.applied.value.target) else None
  }

  /** Every link and record still belongs to one of the two ends of the transaction. */
  predicate ConfigInFlight(c: ConfigFiles, p: PendingConfig) {
    && (c.current == p.previousTarget || c.current == Some(p.command))
    && (c.applied == p.previousApplied || (c.applied.Some? && Config.Matches(c.applied.value, p)))
  }

  ghost predicate ConfigSound(c: ConfigFiles) {
    && ConfigStoreSound(c)
    && match c.pending
       case None => ConfigSettled(c)
       case Some(p) => SoundPendingConfig(c, p) && ConfigInFlight(c, p)
  }

  /** Nothing is pending, or the pending record only waits to be confirmed. */
  predicate ConfigReady(c: ConfigFiles) {
    c.pending.Some? ==>
      && c.applied.Some? && Config.Matches(c.applied.value, c.pending.value)
      && c.current == Some(c.pending.value.command)
  }

  // ---------------------------------------------------------------- bundles

  predicate SoundAppliedBundle(b: BundleFiles, a: AppliedBundle) { Bundle.VerifyAppliedTarget(b, a) }

  ghost predicate BundleStoreSound(b: BundleFiles) {
    && (forall t :: t in b.versions ==> Bundle.Verified(b, t))
    && (b.current.Some? ==> b.current.value in b.versions)
    && (b.previous.Some? ==> b.previous.value in b.versions)
    && (b.applied.Some? ==> SoundAppliedBundle(b, b.applied.value))
  }

  predicate SoundPendingBundle(b: BundleFiles, p: PendingBundle) {
    && Bundle.ValidPending(p) && p.target in b.versions
    && p.target == BundleTarget(p.version, p.digest) && b.versions[p.target].xrayVersion == p.xrayVersion
    && Some(p.target) != p.previousTarget
    && p.previousTarget.Some? == p.previousApplied.Some?
    && (p.previousApplied.Some? ==> SoundAppliedBundle(b, p.previousApplied.value))
  }

  predicate BundleSettled(b: BundleFiles) {
    b.current == if b.applied.Some? then Some(b.applied.value.target) else None
  }

  predicate BundleInFlight(b: BundleFiles, p: PendingBundle) {
    && (b.current == p.previousTarget || b.current == Some(p.target))
    && (b.applied == p.previousApplied || (b.applied.Some? && Bundle.Matches(b.applied.value, p)))
  }

  ghost predicate BundleSound(b: BundleFiles) {
    && BundleStoreSound(b)
    && match b.pending
       case None => BundleSettled(b)
       case Some(p) => SoundPendingBundle(b, p) && BundleInFlight(b, p)
  }

  predicate BundleReady(b: BundleFiles) {
    b.pending.Some? ==>
      && b.applied.Some? && Bundle.Matches(b.applied.value, b.pending.value)
      && b.current == Some(b.pending.value.target)
  }

  // ---------------------------------------------------------------- process

  /** The process the records ask for. */
  function Expected(w: World): Process {
    if w.cfg.applied.None? then Stopped
    else Running(Start(ActivePath(w.bun), Some(w.cfg.applied.value.target)))
  }

  /**
   * The applied record of a pending bundle is written only while the bundle is selected and
   * runs. Both facts are lost when that write can succeed and still report an error.
   */
  predicate Coherent(w: World) {
    && (w.bun.pending.Some? && w.bun.applied.Some? && Bundle.Matches(w.bun.applied.value, w.bun.pending.value) ==>
          w.bun.current == Some(w.bun.pending.value.target))
    && (ConfigReady(w.cfg) && BundleReady(w.bun) ==> w.process == Expected(w))
    && (w.cfg.pending.None? && w.cfg.applied.None? ==> w.process == Stopped)
  }

  /** The controller reported a healthy start of this configuration at or after entry `since`. */
  ghost predicate StartedSince(starts: seq<Start>, t: ConfigTarget, since: nat) {
    exists k :: since <= k < |starts| && starts[k].config == Some(t)
  }

  /** The log ends with whatever runs, and no applied record was written before a healthy start. */
  ghost predicate Logged(w: World) {
    && (w.process.Running? ==> |w.starts| > 0 && w.starts[|w.starts| - 1] == w.process.start)
    && (w.cfg.pending.Some? && w.cfg.applied.Some? && Config.Matches(w.cfg.applied.value, w.cfg.pending.value) ==>
          StartedSince(w.starts, w.cfg.pending.value.command, 0))
  }

  ghost predicate Invariant(w: World) {
    ConfigSound(w.cfg) && BundleSound(w.bun) && Logged(w) && (!w.lossy ==> Coherent(w))
  }
}
