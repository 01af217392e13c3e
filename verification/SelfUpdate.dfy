/**
 * Agent self-update: internal/update/manager.go prepares and confirms, deploy/xui-agent-launcher
 * supervises and rolls back, internal/agent/client.go checks at start. The two programs share
 * only files, so they are one state machine in which their steps interleave and either side, or
 * the whole machine, may die between any two steps. A failing step is a step that does not happen.
 */
module SelfUpdate {
  import opened Common
  import opened ConfigNames
  import opened NodeState
  import opened Retention
  import Bundle = BundleActivation

  const RETAINED_AGENTS: nat := 3

  /** `versions/<version>-<sha256>/xui-agent`, named like a bundle; the binary there reports exactly this version. */
  type Target = BundleTarget

  datatype Pending = Pending(previous: Target, target: Target)

  /** Where an install stands; its local variables travel with it. */
  datatype Install =
    | Idle
    | Pruning(target: Target, doomed: seq<Entry<Target>>)
    | Writing(target: Target)
    | Written(target: Target)
    | Chosen(target: Target, previous: Target)      // read `current`
    | Linked(target: Target, previous: Target)      // wrote `previous`
    | Announced(target: Target, previous: Target)   // wrote `pending`
    | Undoing(target: Target, previous: Target)     // could not switch `current`

  /** Where the launcher and its child stand. */
  datatype Launcher =
    | Down
    | Starting(binary: Target)                        // the child has not looked at `pending` yet
    | Serving(binary: Target, validating: bool)
    | Confirming(binary: Target, read: Pending)
    | Exited(retry: bool)                             // status 75 or any other
    | RollingBack                                     // saw `pending`
    | Restoring(previous: Target)                     // read `previous`
    | Restored(previous: Target)                      // switched `current` back

  datatype State = State(current: Target, previous: Option<Target>, pending: Option<Pending>, failed: Option<Pending>,
                         store: map<Target, int>, install: Install, launcher: Launcher)

  /**
   * `standalone`: an install may run as a process of its own (`prepare-update`, as the installer
   * script does) beside a running launcher, instead of inside the supervised agent.
   * `reuse`: a release may carry the version string of the running one.
   */
  datatype Rules = Rules(standalone: bool, reuse: bool)

  datatype Action =
    | BeginInstall(target: Target) | PruneNext | WriteBinary(mtime: int) | ReadCurrent | LinkPrevious | RemoveFailed
    | WritePending | SwitchCurrent | SwitchFails | CleanUp(removed: bool) | StopInstall
    | Launch | ReadPending | ReadConfirm | RemovePending(synced: bool) | Exit(retry: bool)
    | CheckPending | ReadPrevious | SwitchBack | MoveFailed(moved: bool) | StopLauncher | PowerLoss

  // ---------------------------------------------------------------- installing

  function EntryOf(t: Target, mtime: int): Entry<Target> { Entry(t, Bundle.DirectoryName(t), mtime) }

  function Entries(store: map<Target, int>): (s: set<Entry<Target>>)
    ensures Listing(s)
  {
    var s := set t | t in store :: EntryOf(t, store[t]);
    assert Listing(s) by {
      forall x, y | x in s && y in s && x.name == y.name ensures x == y {
        Bundle.DirectoryNameInjective(x.key, y.key);
      }
    }
    s
  }

  function Protected(s: State): set<Target> {
    {s.current} + (if s.previous.Some? then {s.previous.value} else {})
  }

  /** A standalone install runs whenever it likes; a hosted one inside a serving, validated agent. */
  predicate MayInstall(s: State, rules: Rules) {
    rules.standalone || (s.launcher.Serving? && !s.launcher.validating)
  }

  ghost function InstallStep(s: State, rules: Rules, a: Action): State {
    match a
    case BeginInstall(t) =>
      if s.install.Idle? && s.pending.None? then
        s.(install := Pruning(t, Doomed(Entries(s.store), Protected(s), RETAINED_AGENTS)))
      else s
    case PruneNext =>
      if !s.install.Pruning? then s
      else if s.install.doomed == [] then s.(install := Writing(s.install.target))
      else s.(store := s.store - {s.install.doomed[0].key}, install := Pruning(s.install.target, s.install.doomed[1..]))
    case WriteBinary(mtime) =>
      if s.install.Writing? then s.(store := s.store[s.install.target := mtime], install := Written(s.install.target)) else s
    case ReadCurrent =>
      if !s.install.Written? then s
      else if s.current == s.install.target then s.(install := Idle)
      else s.(install := Chosen(s.install.target, s.current))
    case LinkPrevious =>
      if s.install.Chosen? then s.(previous := Some(s.install.previous), install := Linked(s.install.target, s.install.previous)) else s
    case RemoveFailed =>
      if s.install.Linked? then s.(failed := None) else s
    case WritePending =>
      if s.install.Linked? && (rules.reuse || s.install.target.version != s.install.previous.version) then
        s.(pending := Some(Pending(s.install.previous, s.install.target)), install := Announced(s.install.target, s.install.previous))
      else s
    case SwitchCurrent =>
      if s.install.Announced? then s.(current := s.install.target, install := Idle) else s
    case SwitchFails =>
      if s.install.Announced? then s.(install := Undoing(s.install.target, s.install.previous)) else s
    case CleanUp(removed) =>
      if s.install.Undoing? then s.(pending := if removed then None else s.pending, install := Idle) else s
    case StopInstall => s.(install := Idle)
    case _ => s
  }

  // ---------------------------------------------------------------- supervising

  /** The child and a hosted install die together. */
  function Leave(s: State, rules: Rules, l: Launcher): State {
    s.(launcher := l, install := if rules.standalone then s.install else Idle)
  }

  function LauncherStep(s: State, rules: Rules, a: Action): State {
    match a
    case Launch =>
      if s.launcher.Down? && s.current in s.store then s.(launcher := Starting(s.current)) else s
    case ReadPending =>
      if !s.launcher.Starting? then s
      else if s.pending.None? then s.(launcher := Serving(s.launcher.binary, false))
      else if s.pending.value.target.version != s.launcher.binary.version then s.(launcher := Exited(false))
      else s.(launcher := Serving(s.launcher.binary, true))
    case ReadConfirm =>
      if !(s.launcher.Serving? && s.launcher.validating) then s
      else if s.pending.None? then s.(launcher := Serving(s.launcher.binary, false))
      else if s.pending.value.target.version != s.launcher.binary.version then s
      else s.(launcher := Confirming(s.launcher.binary, s.pending.value))
    case RemovePending(synced) =>
      if s.launcher.Confirming? then s.(pending := None, launcher := Serving(s.launcher.binary, !synced)) else s
    case Exit(retry) =>
      if s.launcher.Starting? || s.launcher.Serving? || s.launcher.Confirming? then Leave(s, rules, Exited(retry)) else s
    case CheckPending =>
      if !s.launcher.Exited? then s
      else if s.pending.None? || s.launcher.retry then s.(launcher := Down)
      else s.(launcher := RollingBack)
    case ReadPrevious =>
      if s.launcher.RollingBack? && s.previous.Some? then s.(launcher := Restoring(s.previous.value)) else s
    case SwitchBack =>
      if s.launcher.Restoring? then s.(current := s.launcher.previous, launcher := Restored(s.launcher.previous)) else s
    case MoveFailed(moved) =>
      if !s.launcher.Restored? then s
      else if moved && s.pending.Some? then s.(failed := s.pending, pending := None, launcher := Down)
      else s.(launcher := Down)
    case StopLauncher => Leave(s, rules, Down)
    case PowerLoss => s.(launcher := Down, install := Idle)
    case _ => s
  }

  predicate OfInstall(a: Action) {
    a.BeginInstall? || a.PruneNext? || a.WriteBinary? || a.ReadCurrent? || a.LinkPrevious? || a.RemoveFailed?
    || a.WritePending? || a.SwitchCurrent? || a.SwitchFails? || a.CleanUp? || a.StopInstall?
  }

  ghost function Do(s: State, rules: Rules, a: Action): State {
    if !OfInstall(a) then LauncherStep(s, rules, a)
    else if MayInstall(s, rules) then InstallStep(s, rules, a)
    else s
  }

  ghost function Run(s: State, rules: Rules, actions: seq<Action>): State
    decreases |actions|
  {
    if actions == [] then s else Run(Do(s, rules, actions[0]), rules, actions[1..])
  }

  /** A freshly installed agent. */
  function Fresh(t: Target, mtime: int): State {
    State(t, None, None, None, map[t := mtime], Idle, Down)
  }

  // ---------------------------------------------------------------- every reachable state

  /** While an update is pending, both of its ends are at hand and one of them is selected. */
  predicate PendingHolds(s: State) {
    s.pending.Some? ==>
      var p := s.pending.value;
      && s.previous == Some(p.previous) && p.previous != p.target
      && (s.current == p.previous || s.current == p.target)
      && p.previous in s.store && p.target in s.store
  }

  predicate InstallHolds(s: State) {
    && (s.install.Idle? || s.install.Announced? || s.install.Undoing? || s.pending.None?)
    && (s.install.Written? || s.install.Chosen? || s.install.Linked? || s.install.Announced? || s.install.Undoing? ==> s.install.target in s.store)
    && (s.install.Pruning? ==> forall e <- s.install.doomed :: e.key !in Protected(s))
    && (s.install.Chosen? || s.install.Linked? || s.install.Announced? || s.install.Undoing? ==>
          s.current == s.install.previous != s.install.target)
    && (s.install.Linked? || s.install.Announced? || s.install.Undoing? ==> s.previous == Some(s.install.previous))
    && (s.install.Announced? || s.install.Undoing? ==>
          s.pending.None? || s.pending == Some(Pending(s.install.previous, s.install.target)))
  }

  /** A rollback under way heads for the previous binary, even if its pending record was withdrawn meanwhile. */
  predicate RollbackHolds(s: State) {
    && (s.launcher.RollingBack? || s.launcher.Restoring? ==>
          (s.install.Announced? || s.install.Undoing? ==> s.pending.Some?))
    && (s.launcher.RollingBack? ==> s.pending.Some? || s.previous == Some(s.current))
    && (s.launcher.Restoring? ==> s.launcher.previous == if s.pending.Some? then s.pending.value.previous else s.current)
  }

  ghost predicate Safe(s: State) {
    && s.current in s.store && (s.previous.Some? ==> s.previous.value in s.store)
    && PendingHolds(s) && InstallHolds(s) && RollbackHolds(s)
  }

  lemma BeginInstallKeeps(s: State, rules: Rules, t: Target)
    requires Safe(s)
    ensures Safe(InstallStep(s, rules, BeginInstall(t)))
  {
    if s.install.Idle? && s.pending.None? {
      forall e | e in Doomed(Entries(s.store), Protected(s), RETAINED_AGENTS) ensures e.key !in Protected(s) {
        DoomedExactly(Entries(s.store), Protected(s), RETAINED_AGENTS, e);
      }
    }
  }

  lemma InstallKeeps(s: State, rules: Rules, a: Action)
    requires Safe(s) && OfInstall(a) && !a.BeginInstall?
    ensures Safe(InstallStep(s, rules, a))
  {
  }

  /** A child that starts, serves or dies changes no file. */
  lemma ChildKeeps(s: State, rules: Rules, a: Action)
    requires Safe(s) && (a.Launch? || a.ReadPending? || a.ReadConfirm? || a.Exit? || a.StopLauncher? || a.PowerLoss?)
    ensures Safe(LauncherStep(s, rules, a))
  {
    hide PendingHolds;
    assert PendingHolds(LauncherStep(s, rules, a)) by { SameFilesHold(s, LauncherStep(s, rules, a)); }
  }

  lemma SameFilesHold(s: State, t: State)
    requires PendingHolds(s) && t == s.(launcher := t.launcher, install := t.install)
    ensures PendingHolds(t)
  {
  }

  lemma ConfirmKeeps(s: State, rules: Rules, synced: bool)
    requires Safe(s)
    ensures Safe(LauncherStep(s, rules, RemovePending(synced)))
  {
  }

  lemma DecideKeeps(s: State, rules: Rules, a: Action)
    requires Safe(s) && (a.CheckPending? || a.ReadPrevious?)
    ensures Safe(LauncherStep(s, rules, a))
  {
  }

  lemma SwitchBackKeeps(s: State, rules: Rules)
    requires Safe(s)
    ensures Safe(LauncherStep(s, rules, SwitchBack))
  {
  }

  lemma MoveFailedKeeps(s: State, rules: Rules, moved: bool)
    requires Safe(s)
    ensures Safe(LauncherStep(s, rules, MoveFailed(moved)))
  {
  }

  lemma LauncherKeeps(s: State, rules: Rules, a: Action)
    requires Safe(s) && !OfInstall(a)
    ensures Safe(LauncherStep(s, rules, a))
  {
    hide Safe, LauncherStep;
    match a
    case RemovePending(synced) => ConfirmKeeps(s, rules, synced);
    case CheckPending => DecideKeeps(s, rules, a);
    case ReadPrevious => DecideKeeps(s, rules, a);
    case SwitchBack => SwitchBackKeeps(s, rules);
    case MoveFailed(moved) => MoveFailedKeeps(s, rules, moved);
    case _ => ChildKeeps(s, rules, a);
  }

  lemma DoKeeps(s: State, rules: Rules, a: Action)
    requires Safe(s)
    ensures Safe(Do(s, rules, a))
  {
    hide Safe, InstallStep, LauncherStep;
    if !OfInstall(a) { LauncherKeeps(s, rules, a); }
    else if a.BeginInstall? { BeginInstallKeeps(s, rules, a.target); }
    else { InstallKeeps(s, rules, a); }
  }

  lemma {:induction false} RunKeeps(s: State, rules: Rules, actions: seq<Action>)
    requires Safe(s)
    ensures Safe(Run(s, rules, actions))
    decreases |actions|
  {
    hide Safe, Do;
    if actions != [] {
      DoKeeps(s, rules, actions[0]);
      RunKeeps(Do(s, rules, actions[0]), rules, actions[1..]);
    }
  }

  /** However the steps interleave: `current` names an installed binary, and a pending update can go either way. */
  lemma AlwaysSafe(t: Target, mtime: int, rules: Rules, actions: seq<Action>)
    ensures var s := Run(Fresh(t, mtime), rules, actions);
            && s.current in s.store && (s.previous.Some? ==> s.previous.value in s.store)
            && PendingHolds(s)
  {
    hide Run;
    RunKeeps(Fresh(t, mtime), rules, actions);
  }

  // ---------------------------------------------------------------- retention

  /** Deleted before an install: a binary that no link names, behind at least three newer ones. */
  ghost predicate Expired(store: map<Target, int>, protected: set<Target>, t: Target) {
    t in store && t !in protected && Rank(EntryOf(t, store[t]), Entries(store)) >= 3
  }

  lemma DoomedExpired(store: map<Target, int>, protected: set<Target>, t: Target)
    ensures (exists e :: e in Doomed(Entries(store), protected, RETAINED_AGENTS) && e.key == t) <==> Expired(store, protected, t)
  {
    forall e ensures e in Doomed(Entries(store), protected, RETAINED_AGENTS) <==>
                     e in Entries(store) && e.key !in protected && Rank(e, Entries(store)) >= RETAINED_AGENTS
    {
      DoomedExactly(Entries(store), protected, RETAINED_AGENTS, e);
    }
    if Expired(store, protected, t) {
      assert EntryOf(t, store[t]) in Doomed(Entries(store), protected, RETAINED_AGENTS);
    }
  }

  /** Dropped by the first `n` rounds of the deletion loop. */
  predicate Dropped(q: seq<Entry<Target>>, n: nat, protected: set<Target>, t: Target) {
    t !in protected && exists k :: RETAINED_AGENTS <= k < n && k < |q| && q[k].key == t
  }

  lemma DroppedIsExpired(store: map<Target, int>, protected: set<Target>, t: Target)
    requires t in store
    ensures var q := ByRank(Entries(store));
            Dropped(q, |q|, protected, t) <==> Expired(store, protected, t)
  {
    var q, e := ByRank(Entries(store)), EntryOf(t, store[t]);
    assert e in q;
    var k :| 0 <= k < |q| && q[k] == e;
    RankIsIndex(Entries(store), k);
    forall j | 0 <= j < |q| && q[j].key == t ensures j == k {
      assert q[j] in q && q[j] in Entries(store);
      RankIsIndex(Entries(store), j);
    }
  }

  /** The garbage collection of `install`, undisturbed: exactly the expired binaries go. */
  method PruneVersions(store: map<Target, int>, protected: set<Target>) returns (kept: map<Target, int>)
    ensures forall t :: t in kept <==> t in store && !Expired(store, protected, t)
    ensures forall t :: t in kept ==> kept[t] == store[t]
  {
    hide Expired, Entries, ByRank;
    var q := Sort(Entries(store));
    kept := store;
    var i := 0;
    while i < |q|
      invariant i <= |q|
      invariant forall t :: t in kept ==> t in store && kept[t] == store[t]
      invariant forall t :: t in store ==> (t in kept <==> !Dropped(q, i, protected, t))
    {
      if i >= RETAINED_AGENTS && q[i].key !in protected {
        kept := kept - {q[i].key};
      }
      i := i + 1;
    }
    forall t | t in store ensures t in kept <==> !Expired(store, protected, t) {
      DroppedIsExpired(store, protected, t);
    }
  }

  // ---------------------------------------------------------------- how a pending update ends

  /** Confirmed with the target selected, or moved to `failed` or withdrawn with the previous one selected. */
  ghost predicate Honest(s: State, rules: Rules, a: Action) {
    var s' := Do(s, rules, a);
    s.pending.Some? && s'.pending != s.pending ==>
      var p := s.pending.value;
      && s'.pending.None?
      && ((a.RemovePending? && s.current == p.target) ||
          (a.MoveFailed? && s.current == p.previous && s'.failed == s.pending) ||
          (a.CleanUp? && s.current == p.previous))
  }

  /** What holds besides when installs live inside the agent and a release never repeats the running version. */
  predicate Hosted(s: State) {
    && (!s.install.Idle? ==> s.launcher.Serving? && !s.launcher.validating)
    && (s.pending.Some? ==> s.pending.value.previous.version != s.pending.value.target.version)
    && (s.launcher.Starting? ==> s.launcher.binary == s.current)
    && (s.launcher.Serving? && s.launcher.validating && s.pending.Some? ==> s.current == s.pending.value.target)
    && (s.launcher.Confirming? ==> s.pending.Some? && s.current == s.pending.value.target)
    && (s.launcher.Restored? && s.pending.Some? ==> s.current == s.pending.value.previous)
  }

  const STRICT := Rules(false, false)

  lemma HostedInstall(s: State, a: Action)
    requires Safe(s) && Hosted(s) && OfInstall(a)
    ensures Hosted(Do(s, STRICT, a)) && Honest(s, STRICT, a)
  {
    hide Doomed;
  }

  lemma HostedLauncher(s: State, a: Action)
    requires Safe(s) && Hosted(s) && !OfInstall(a)
    ensures Hosted(Do(s, STRICT, a)) && Honest(s, STRICT, a)
  {
  }

  lemma {:induction false} HostedRun(s: State, actions: seq<Action>)
    requires Safe(s) && Hosted(s)
    ensures Safe(Run(s, STRICT, actions)) && Hosted(Run(s, STRICT, actions))
    decreases |actions|
  {
    hide Safe, Hosted, Do, Honest;
    if actions != [] {
      var a := actions[0];
      if OfInstall(a) { HostedInstall(s, a); } else { HostedLauncher(s, a); }
      DoKeeps(s, STRICT, a);
      HostedRun(Do(s, STRICT, a), actions[1..]);
    }
  }

  lemma StrictIsHonest(t: Target, mtime: int, actions: seq<Action>, a: Action)
    ensures Honest(Run(Fresh(t, mtime), STRICT, actions), STRICT, a)
  {
    hide Run, Do, Honest, Safe, Hosted;
    var s := Fresh(t, mtime);
    assert Safe(s) && Hosted(s) by { FreshHolds(t, mtime); }
    HostedRun(s, actions);
    if OfInstall(a) { HostedInstall(Run(s, STRICT, actions), a); } else { HostedLauncher(Run(s, STRICT, actions), a); }
  }

  lemma FreshHolds(t: Target, mtime: int)
    ensures Safe(Fresh(t, mtime)) && Hosted(Fresh(t, mtime))
  {
  }

  // ---------------------------------------------------------------- the two ways it can go wrong

  ghost predicate Reaches(s: State, rules: Rules, t: State) {
    exists actions :: Run(s, rules, actions) == t
  }

  lemma {:induction false} RunAppend(s: State, rules: Rules, actions: seq<Action>, a: Action)
    ensures Run(s, rules, actions + [a]) == Do(Run(s, rules, actions), rules, a)
    decreases |actions|
  {
    hide Do;
    if actions == [] {
      assert Run(Do(s, rules, a), rules, []) == Do(s, rules, a);
    } else {
      assert (actions + [a])[1..] == actions[1..] + [a];
      RunAppend(Do(s, rules, actions[0]), rules, actions[1..], a);
    }
  }

  lemma Then(s: State, rules: Rules, t: State, a: Action, u: State)
    requires Reaches(s, rules, t) && Do(t, rules, a) == u
    ensures Reaches(s, rules, u)
  {
    hide Do, Run;
    var actions :| Run(s, rules, actions) == t;
    RunAppend(s, rules, actions, a);
  }

  lemma ReachesItself(s: State, rules: Rules)
    ensures Reaches(s, rules, s)
  {
    assert Run(s, rules, []) == s;
  }

  /** The agent serves and the install's new binary is in place. */
  function Unannounced(before: Target, next: Target): State {
    Fresh(before, 0).(store := map[before := 0, next := 0], launcher := Serving(before, false), install := Written(next))
  }

  lemma ReachesUnannounced(before: Target, next: Target, rules: Rules)
    ensures Reaches(Fresh(before, 0), rules, Unannounced(before, next))
  {
    hide Reaches;
    var s := Fresh(before, 0);
    if Doomed(Entries(s.store), Protected(s), RETAINED_AGENTS) != [] {
      var e := Doomed(Entries(s.store), Protected(s), RETAINED_AGENTS)[0];
      DoomedExactly(Entries(s.store), Protected(s), RETAINED_AGENTS, e);
    }
    ReachesItself(s, rules);
    var s1 := s.(launcher := Starting(before));
    Then(s, rules, s, Launch, s1);
    var s2 := s.(launcher := Serving(before, false));
    Then(s, rules, s1, ReadPending, s2);
    var s3 := s2.(install := Pruning(next, []));
    Then(s, rules, s2, BeginInstall(next), s3);
    var s4 := s2.(install := Writing(next));
    Then(s, rules, s3, PruneNext, s4);
    Then(s, rules, s4, WriteBinary(0), Unannounced(before, next));
  }

  /** An install that got as far as its pending record, inside a serving agent. */
  function Announcement(before: Target, next: Target): State {
    Unannounced(before, next).(previous := Some(before), pending := Some(Pending(before, next)), install := Announced(next, before))
  }

  lemma ReachesAnnouncement(before: Target, next: Target, rules: Rules)
    requires before != next && (rules.reuse || before.version != next.version)
    ensures Reaches(Fresh(before, 0), rules, Announcement(before, next))
  {
    hide Reaches;
    var s := Fresh(before, 0);
    ReachesUnannounced(before, next, rules);
    var s1 := Unannounced(before, next);
    var s2 := s1.(install := Chosen(next, before));
    Then(s, rules, s1, ReadCurrent, s2);
    var s3 := s1.(previous := Some(before), install := Linked(next, before));
    Then(s, rules, s2, LinkPrevious, s3);
    Then(s, rules, s3, WritePending, Announcement(before, next));
  }

  /** The old binary, restarted before the switch, takes the update for its own and confirms it. */
  lemma ReuseIsDishonest(before: Target, next: Target, rules: Rules)
    requires before != next && before.version == next.version && rules.reuse
    ensures !AlwaysHonest(rules)
  {
    hide Reaches;
    var s := Fresh(before, 0);
    ReachesAnnouncement(before, next, rules);
    var s1 := Announcement(before, next).(install := Idle, launcher := Down);
    Then(s, rules, Announcement(before, next), PowerLoss, s1);
    var s2 := s1.(launcher := Starting(before));
    Then(s, rules, s1, Launch, s2);
    var s3 := s1.(launcher := Serving(before, true));
    Then(s, rules, s2, ReadPending, s3);
    var s4 := s1.(launcher := Confirming(before, Pending(before, next)));
    Then(s, rules, s3, ReadConfirm, s4);
    assert !Honest(s4, rules, RemovePending(true));
    Refutes(before, rules, s4, RemovePending(true));
  }

  lemma Refutes(t: Target, rules: Rules, s: State, a: Action)
    requires Reaches(Fresh(t, 0), rules, s) && !Honest(s, rules, a)
    ensures !AlwaysHonest(rules)
  {
    hide Run, Honest;
    var actions :| Run(Fresh(t, 0), rules, actions) == s;
    assert !Honest(Run(Fresh(t, 0), rules, actions), rules, a);
  }

  /** The agent dies while a standalone install is at work; the launcher sees its pending record. */
  lemma ReachesRollingBack(before: Target, next: Target, rules: Rules)
    requires before.version != next.version && rules.standalone
    ensures Reaches(Fresh(before, 0), rules, Announcement(before, next).(launcher := RollingBack))
  {
    hide Reaches;
    var s := Fresh(before, 0);
    ReachesAnnouncement(before, next, rules);
    var s0 := Announcement(before, next);
    var s1 := s0.(launcher := Exited(false));
    Then(s, rules, s0, Exit(false), s1);
    Then(s, rules, s1, CheckPending, s0.(launcher := RollingBack));
  }

  lemma ReachesRestored(before: Target, next: Target, rules: Rules)
    requires before.version != next.version && rules.standalone
    ensures Reaches(Fresh(before, 0), rules, Announcement(before, next).(launcher := Restored(before)))
  {
    hide Reaches;
    var s := Fresh(before, 0);
    ReachesRollingBack(before, next, rules);
    var s0 := Announcement(before, next);
    var s3 := s0.(launcher := Restoring(before));
    Then(s, rules, s0.(launcher := RollingBack), ReadPrevious, s3);
    Then(s, rules, s3, SwitchBack, s0.(launcher := Restored(before)));
  }

  /** The installer switches the link between the launcher's rollback and its record of it. */
  lemma StandaloneIsDishonest(before: Target, next: Target, rules: Rules)
    requires before.version != next.version && rules.standalone
    ensures !AlwaysHonest(rules)
  {
    hide Reaches, AlwaysHonest, Honest;
    ReachesRestored(before, next, rules);
    var s := Announcement(before, next).(launcher := Restored(before));
    var t := s.(current := next, install := Idle);
    Then(Fresh(before, 0), rules, s, SwitchCurrent, t);
    LateSwitchIsDishonest(before, next, rules, t);
    Refutes(before, rules, t, MoveFailed(true));
  }

  lemma LateSwitchIsDishonest(before: Target, next: Target, rules: Rules, s: State)
    requires before != next && s.launcher == Restored(before) && s.current == next && s.pending == Some(Pending(before, next))
    ensures !Honest(s, rules, MoveFailed(true))
  {
  }

  ghost predicate AlwaysHonest(rules: Rules) {
    forall t, mtime, actions, a :: Honest(Run(Fresh(t, mtime), rules, actions), rules, a)
  }

  lemma TwoDigests() returns (c: Digest, d: Digest)
    ensures c != d
  {
    c, d := seq(64, _ => '0'), seq(64, _ => '1');
    assert c[0] != d[0];
  }

  /**
   * A pending update ends only where its outcome says it does: exactly when installs run inside
   * the supervised agent and a release never carries the version string of the running one.
   */
  lemma HonestExactlyWhen(rules: Rules)
    ensures AlwaysHonest(rules) <==> !rules.standalone && !rules.reuse
  {
    hide Run, Honest;
    var c, d := TwoDigests();
    if rules.reuse {
      ReuseIsDishonest(BundleTarget("1", c), BundleTarget("1", d), rules);
    } else if rules.standalone {
      StandaloneIsDishonest(BundleTarget("1", c), BundleTarget("2", c), rules);
    } else {
      forall t, mtime, actions, a ensures Honest(Run(Fresh(t, mtime), rules, actions), rules, a) {
        StrictIsHonest(t, mtime, actions, a);
      }
    }
  }
}
