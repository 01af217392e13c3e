/** The version stores: what retention deletes, and that nothing is ever overwritten. */
module NodeStores {
  import opened Common
  import opened ConfigNames
  import opened NodeState
  import opened Retention
  import Config = ConfigActivation
  import Bundle = BundleActivation

  function Keys<T>(q: seq<Entry<T>>): set<T> { set e | e in q :: e.key }

  lemma KeysHead<T>(q: seq<Entry<T>>, k: nat)
    requires q != [] && k < |q|
    ensures Keys(q[..k + 1]) == {q[0].key} + Keys(q[1..][..k])
  {
    assert q[..k + 1] == [q[0]] + q[1..][..k];
  }

  // ---------------------------------------------------------------- retention

  /** Deleting stops at the first failure; success means everything doomed is gone. */
  ghost predicate DeletedConfigs(w: World, doomed: seq<Entry<ConfigTarget>>, s: Step, k: nat) {
    && k <= |doomed| && (s.Ok? ==> k == |doomed|)
    && s.w == w.(cfg := w.cfg.(versions := w.cfg.versions - Keys(doomed[..k])), fates := s.w.fates)
  }

  lemma {:induction false} DeleteConfigs(w: World, doomed: seq<Entry<ConfigTarget>>, removed: bool) returns (k: nat)
    ensures DeletedConfigs(w, doomed, Config.Delete(w, doomed, removed), k)
    decreases |doomed|
  {
    var s := Config.Delete(w, doomed, removed);
    if doomed == [] {
      k := 0;
      assert w.cfg.versions - Keys(doomed[..0]) == w.cfg.versions;
    } else {
      var t := doomed[0].key;
      var s1 := Rename(w, w.cfg.(versions := w.cfg.versions - {t}));
      if s1.Ok? {
        var j := DeleteConfigs(s1.w, doomed[1..], true);
        k := j + 1;
        KeysHead(doomed, j);
        assert w.cfg.versions - {t} - Keys(doomed[1..][..j]) == w.cfg.versions - Keys(doomed[..k]);
      } else {
        k := 0;
        assert w.cfg.versions - Keys(doomed[..0]) == w.cfg.versions;
      }
    }
  }

  /** Deleted by retention: an eligible unprotected version behind at least five newer ones. */
  ghost predicate ConfigIsDoomed(c: ConfigFiles, t: ConfigTarget) {
    && t in c.versions && t.version > 0 && t !in Config.Protected(c)
    && Rank(Config.EntryOf(t, c.versions[t]), Config.Entries(c.versions)) >= 5
  }

  lemma DoomedConfigs(c: ConfigFiles, t: ConfigTarget)
    ensures t in Keys(Doomed(Config.Entries(c.versions), Config.Protected(c), Config.RETAINED_CONFIGS)) <==> ConfigIsDoomed(c, t)
  {
    var entries, protected := Config.Entries(c.versions), Config.Protected(c);
    var doomed := Doomed(entries, protected, Config.RETAINED_CONFIGS);
    forall e ensures e in doomed <==> e in entries && e.key !in protected && Rank(e, entries) >= Config.RETAINED_CONFIGS {
      DoomedExactly(entries, protected, Config.RETAINED_CONFIGS, e);
    }
    if ConfigIsDoomed(c, t) {
      assert Config.EntryOf(t, c.versions[t]) in doomed;
    }
  }

  /** A prune that returns nil keeps exactly the versions that are not doomed; no prune deletes any other. */
  lemma PruneConfigsExactly(w: World, t: ConfigTarget)
    ensures var s := Config.Prune(w);
            && (t in s.w.cfg.versions ==> t in w.cfg.versions && s.w.cfg.versions[t] == w.cfg.versions[t])
            && (t in w.cfg.versions && t !in s.w.cfg.versions ==> ConfigIsDoomed(w.cfg, t))
            && (s.Ok? && t in w.cfg.versions ==> (t !in s.w.cfg.versions <==> ConfigIsDoomed(w.cfg, t)))
  {
    hide Doomed, ConfigIsDoomed, Config.Delete, Config.Protected;
    var doomed := Doomed(Config.Entries(w.cfg.versions), Config.Protected(w.cfg), Config.RETAINED_CONFIGS);
    var k := DeleteConfigs(w, doomed, false);
    DoomedConfigs(w.cfg, t);
    assert doomed[..|doomed|] == doomed;
    assert Keys(doomed[..k]) <= Keys(doomed);
  }

  ghost predicate DeletedBundles(w: World, doomed: seq<Entry<BundleTarget>>, s: Step, k: nat) {
    && k <= |doomed| && (s.Ok? ==> k == |doomed|)
    && s.w == w.(bun := w.bun.(versions := w.bun.versions - Keys(doomed[..k])), fates := s.w.fates)
  }

  lemma {:induction false} DeleteBundles(w: World, doomed: seq<Entry<BundleTarget>>, removed: bool) returns (k: nat)
    ensures DeletedBundles(w, doomed, Bundle.Delete(w, doomed, removed), k)
    decreases |doomed|
  {
    if doomed == [] {
      k := 0;
      assert w.bun.versions - Keys(doomed[..0]) == w.bun.versions;
    } else {
      var t := doomed[0].key;
      var s1 := RenameBundle(w, w.bun.(versions := w.bun.versions - {t}));
      if s1.Ok? {
        var j := DeleteBundles(s1.w, doomed[1..], true);
        k := j + 1;
        KeysHead(doomed, j);
        assert w.bun.versions - {t} - Keys(doomed[1..][..j]) == w.bun.versions - Keys(doomed[..k]);
      } else {
        k := 0;
        assert w.bun.versions - Keys(doomed[..0]) == w.bun.versions;
      }
    }
  }

  /** Deleted by retention: a whole unprotected bundle behind at least three newer whole ones. */
  ghost predicate BundleIsDoomed(b: BundleFiles, t: BundleTarget) {
    && Bundle.Verified(b, t) && t !in Bundle.Protected(b)
    && Rank(Bundle.EntryOf(t, b.versions[t]), Bundle.Entries(b)) >= 3
  }

  lemma DoomedBundles(b: BundleFiles, t: BundleTarget)
    ensures t in Keys(Doomed(Bundle.Entries(b), Bundle.Protected(b), Bundle.RETAINED_BUNDLES)) <==> BundleIsDoomed(b, t)
  {
    var entries, protected := Bundle.Entries(b), Bundle.Protected(b);
    var doomed := Doomed(entries, protected, Bundle.RETAINED_BUNDLES);
    forall e ensures e in doomed <==> e in entries && e.key !in protected && Rank(e, entries) >= Bundle.RETAINED_BUNDLES {
      DoomedExactly(entries, protected, Bundle.RETAINED_BUNDLES, e);
    }
    if BundleIsDoomed(b, t) {
      assert Bundle.EntryOf(t, b.versions[t]) in doomed;
    }
  }

  lemma PruneBundlesExactly(w: World, t: BundleTarget)
    ensures var s := Bundle.Prune(w);
            && (t in s.w.bun.versions ==> t in w.bun.versions && s.w.bun.versions[t] == w.bun.versions[t])
            && (t in w.bun.versions && t !in s.w.bun.versions ==> BundleIsDoomed(w.bun, t))
            && (s.Ok? && t in w.bun.versions ==> (t !in s.w.bun.versions <==> BundleIsDoomed(w.bun, t)))
  {
    hide Doomed, BundleIsDoomed, Bundle.Delete, Bundle.Protected;
    var doomed := Doomed(Bundle.Entries(w.bun), Bundle.Protected(w.bun), Bundle.RETAINED_BUNDLES);
    var k := DeleteBundles(w, doomed, false);
    DoomedBundles(w.bun, t);
    assert doomed[..|doomed|] == doomed;
    assert Keys(doomed[..k]) <= Keys(doomed);
  }

  // ---------------------------------------------------------------- immutability

  /**
   * Whatever the store looked like, installing a version rewrites no existing file: a drifted
   * one is left alone and its repair gets a name of its own. Only a repair within the same
   * nanosecond could meet its own name again.
   */
  lemma InstallNeverOverwrites(w: World, req: Config.Request, repair: bool, now: Clock, t: ConfigTarget)
    requires t in w.cfg.versions && t.repair != Some(now.nanos)
    ensures var c := Config.InstallVersion(w, req, repair, now).w.cfg;
            t in c.versions && c.versions[t] == w.cfg.versions[t]
  {
  }

  /** What an install hands on is the requested content under a name with the requested version and digest. */
  lemma InstalledIsRequested(w: World, req: Config.Request, repair: bool, now: Clock)
    requires Config.ValidRequest(req)
    ensures var i := Config.InstallVersion(w, req, repair, now);
            i.Installed? ==>
              && i.target.version == req.version && i.target.digest == req.digest
              && Config.VerifyTarget(i.w.cfg, i.target, req.digest) && i.w.cfg.versions[i.target].content == req.config
              && (i.target.repair.Some? ==> repair)
  {
  }

  lemma InstallBundleNeverOverwrites(w: World, rel: Bundle.Release, now: Clock, t: BundleTarget)
    requires t in w.bun.versions
    ensures var b := Bundle.InstallBundle(w, rel, now).w.bun;
            t in b.versions && b.versions[t] == w.bun.versions[t]
  {
  }
}
