/** Self-update: what the exit status of the supervised agent decides, and an update that goes well. */
module SelfUpdateRuns {
  import opened Common
  import opened Retention
  import opened SelfUpdate

  // ---------------------------------------------------------------- what the exit status decides

  predicate Alive(s: State) { s.launcher.Starting? || s.launcher.Serving? || s.launcher.Confirming? }

  /**
   * Whether the last child asked for a restart (status 75), as an observer of child and launcher
   * knows it: nothing while a child lives or after it was killed. A child that finds an update
   * for another version pending gives up with a status of its own.
   */
  function Observe(s: State, a: Action, last: Option<bool>): Option<bool> {
    if a.StopLauncher? || a.PowerLoss? then None
    else if !Alive(s) then (if a.Launch? && s.launcher.Down? then None else last)
    else
      match a
      case Exit(retry) => Some(retry)
      case ReadPending =>
        if s.launcher.Starting? && s.pending.Some? && s.pending.value.target.version != s.launcher.binary.version then Some(false) else None
      case _ => None
  }

  /** The same after a run. */
  ghost function Observed(s: State, rules: Rules, actions: seq<Action>, last: Option<bool>): Option<bool>
    decreases |actions|
  {
    if actions == [] then last else Observed(Do(s, rules, actions[0]), rules, actions[1..], Observe(s, actions[0], last))
  }

  /** A rollback is under way only behind a child that failed. */
  predicate Justified(s: State, last: Option<bool>) {
    && (s.launcher.Exited? ==> last == Some(s.launcher.retry))
    && (s.launcher.RollingBack? || s.launcher.Restoring? || s.launcher.Restored? ==> last == Some(false))
  }

  lemma StaysJustified(s: State, rules: Rules, a: Action, last: Option<bool>)
    requires Justified(s, last) && s.current in s.store
    ensures Justified(Do(s, rules, a), Observe(s, a, last))
  {
    if OfInstall(a) {
      assert Do(s, rules, a).launcher == s.launcher;
      InstallsAreNotObserved(s, a, last);
    }
  }

  lemma InstallsAreNotObserved(s: State, a: Action, last: Option<bool>)
    requires OfInstall(a)
    ensures Observe(s, a, last) == if Alive(s) then None else last
  {
  }

  lemma {:induction false} RunJustified(s: State, rules: Rules, actions: seq<Action>, last: Option<bool>)
    requires Safe(s) && Justified(s, last)
    ensures Justified(Run(s, rules, actions), Observed(s, rules, actions, last))
    decreases |actions|
  {
    hide Safe, Do, Observe, Justified;
    if actions != [] {
      DoKeeps(s, rules, actions[0]);
      assert s.current in s.store by { CurrentIsThere(s); }
      StaysJustified(s, rules, actions[0], last);
      RunJustified(Do(s, rules, actions[0]), rules, actions[1..], Observe(s, actions[0], last));
    }
  }

  lemma CurrentIsThere(s: State)
    requires Safe(s)
    ensures s.current in s.store
  {
  }

  predicate SameFiles(s: State, t: State) {
    s.current == t.current && s.previous == t.previous && s.pending == t.pending && s.failed == t.failed && s.store == t.store
  }

  /**
   * However the steps interleave, the launcher changes a file only to undo an update whose last
   * child ended with a status other than 75; and of the steps of launcher and child only that
   * rollback and the child's confirmation change files at all.
   */
  lemma RollsBackOnlyAfterFailure(t: Target, mtime: int, rules: Rules, actions: seq<Action>, a: Action)
    requires !OfInstall(a)
    ensures var s := Run(Fresh(t, mtime), rules, actions);
            !SameFiles(s, Do(s, rules, a)) ==>
              || (a.RemovePending? && s.launcher.Confirming?)
              || ((a.SwitchBack? || a.MoveFailed?) && Observed(Fresh(t, mtime), rules, actions, None) == Some(false))
  {
    hide Run, Observed;
    FreshHolds(t, mtime);
    RunJustified(Fresh(t, mtime), rules, actions, None);
  }

  /** What becomes of a hosted install when its agent ends. */
  function InstallAfterExit(s: State, rules: Rules): Install { if rules.standalone then s.install else Idle }

  lemma RunThree(s: State, rules: Rules, a: Action, b: Action, c: Action)
    ensures Run(s, rules, [a, b, c]) == Do(Do(Do(s, rules, a), rules, b), rules, c)
  {
    hide Do;
    assert [a, b, c][1..] == [b, c] && [b, c][1..] == [c] && [c][1..] == [];
    var s1 := Do(s, rules, a);
    var s2 := Do(s1, rules, b);
    assert Run(s1, rules, [b, c]) == Run(s2, rules, [c]) == Run(Do(s2, rules, c), rules, []);
  }

  const RESTARTING := [Exit(true), CheckPending, Launch]

  /** Status 75: no file changes, and whatever `current` selects is launched next. */
  lemma RetryRelaunches(s: State, rules: Rules)
    requires s.current in s.store && Alive(s)
    ensures Run(s, rules, RESTARTING) == s.(launcher := Starting(s.current), install := InstallAfterExit(s, rules))
  {
    RunThree(s, rules, Exit(true), CheckPending, Launch);
  }

  /** Any other status while an update is pending: the previous binary is selected and the update recorded as failed. */
  lemma FailureRestoresPrevious(s: State, rules: Rules)
    requires Safe(s) && Alive(s) && s.pending.Some?
    ensures Run(s, rules, [Exit(false), CheckPending, ReadPrevious, SwitchBack, MoveFailed(true)]) ==
            s.(current := s.pending.value.previous, pending := None, failed := s.pending, launcher := Down, install := InstallAfterExit(s, rules))
  {
    var s1 := s.(launcher := Exited(false), install := InstallAfterExit(s, rules));
    var s2 := s1.(launcher := RollingBack);
    var s3 := s1.(launcher := Restoring(s.pending.value.previous));
    var s4 := s3.(current := s.pending.value.previous, launcher := Restored(s.pending.value.previous));
    assert Do(s, rules, Exit(false)) == s1 && Do(s1, rules, CheckPending) == s2 && Do(s2, rules, ReadPrevious) == s3;
    assert Do(s3, rules, SwitchBack) == s4;
    hide Do;
    assert [Exit(false), CheckPending, ReadPrevious, SwitchBack, MoveFailed(true)] ==
           [Exit(false), CheckPending, ReadPrevious] + [SwitchBack] + [MoveFailed(true)];
    RunThree(s, rules, Exit(false), CheckPending, ReadPrevious);
    RunAppend(s, rules, [Exit(false), CheckPending, ReadPrevious], SwitchBack);
    RunAppend(s, rules, [Exit(false), CheckPending, ReadPrevious] + [SwitchBack], MoveFailed(true));
    assert Do(s4, rules, MoveFailed(true)) == s4.(pending := None, failed := s.pending, launcher := Down) by { MovesFailed(s4, rules); }
  }

  lemma MovesFailed(s: State, rules: Rules)
    requires s.launcher.Restored? && s.pending.Some?
    ensures Do(s, rules, MoveFailed(true)) == s.(pending := None, failed := s.pending, launcher := Down)
  {
  }

  // ---------------------------------------------------------------- an update that goes well

  lemma DoThenRun(s: State, rules: Rules, a: Action, rest: seq<Action>)
    ensures Run(s, rules, [a] + rest) == Run(Do(s, rules, a), rules, rest)
  {
    hide Do;
    assert ([a] + rest)[1..] == rest;
  }

  lemma {:induction false} RunJoin(s: State, rules: Rules, a: seq<Action>, b: seq<Action>)
    ensures Run(s, rules, a + b) == Run(Run(s, rules, a), rules, b)
    decreases |a|
  {
    hide Do;
    if a == [] {
      assert a + b == b;
    } else {
      assert (a + b)[1..] == a[1..] + b;
      RunJoin(Do(s, rules, a[0]), rules, a[1..], b);
    }
  }

  function Prunes(n: nat): seq<Action> { if n == 0 then [] else [PruneNext] + Prunes(n - 1) }

  predicate ServesAlone(s: State) { s.launcher.Serving? && !s.launcher.validating }

  /** The deletions of an install, one step each, up to the writing of its binary. */
  lemma {:induction false} PrunesThrough(s: State, rules: Rules)
    requires ServesAlone(s) && s.install.Pruning?
    ensures var t := Run(s, rules, Prunes(|s.install.doomed| + 1));
            t == s.(store := t.store, install := Writing(s.install.target))
    decreases |s.install.doomed|
  {
    var n := |s.install.doomed|;
    DoThenRun(s, rules, PruneNext, Prunes(n));
    if n == 0 {
      assert Run(Do(s, rules, PruneNext), rules, []) == Do(s, rules, PruneNext);
    } else {
      PrunesThrough(Do(s, rules, PruneNext), rules);
    }
  }

  const INSTALLING := [ReadCurrent, LinkPrevious, RemoveFailed, WritePending, SwitchCurrent]
  const CONFIRMING := [ReadPending, ReadConfirm, RemovePending(true)]

  lemma Installs(s: State, rules: Rules, t: Target)
    requires ServesAlone(s) && s.install == Written(t) && s.current != t && (rules.reuse || t.version != s.current.version)
    ensures Run(s, rules, INSTALLING) ==
            s.(current := t, previous := Some(s.current), pending := Some(Pending(s.current, t)), failed := None, install := Idle)
  {
    var s1 := s.(install := Chosen(t, s.current));
    var s2 := s1.(previous := Some(s.current), install := Linked(t, s.current));
    var s3 := s2.(failed := None);
    assert Do(s, rules, ReadCurrent) == s1 && Do(s1, rules, LinkPrevious) == s2 && Do(s2, rules, RemoveFailed) == s3;
    var s4 := s3.(pending := Some(Pending(s.current, t)), install := Announced(t, s.current));
    assert Do(s3, rules, WritePending) == s4;
    hide Do;
    RunThree(s, rules, ReadCurrent, LinkPrevious, RemoveFailed);
    var first := [ReadCurrent, LinkPrevious, RemoveFailed];
    RunAppend(s, rules, first, WritePending);
    RunAppend(s, rules, first + [WritePending], SwitchCurrent);
    assert INSTALLING == first + [WritePending] + [SwitchCurrent];
    assert Do(s4, rules, SwitchCurrent) == s4.(current := t, install := Idle) by { Switches(s4, rules); }
  }

  lemma Switches(s: State, rules: Rules)
    requires ServesAlone(s) && s.install.Announced?
    ensures Do(s, rules, SwitchCurrent) == s.(current := s.install.target, install := Idle)
  {
  }

  lemma Confirms(s: State, rules: Rules)
    requires s.launcher.Starting? && s.pending.Some? && s.pending.value.target.version == s.launcher.binary.version
    ensures Run(s, rules, CONFIRMING) == s.(pending := None, launcher := Serving(s.launcher.binary, false))
  {
    RunThree(s, rules, ReadPending, ReadConfirm, RemovePending(true));
  }

  /** All steps of an update to `t` from `s`, in their order. */
  ghost function Update(s: State, t: Target, mtime: int): seq<Action> {
    [BeginInstall(t)] + (Prunes(|Doomed(Entries(s.store), Protected(s), RETAINED_AGENTS)| + 1)
    + ([WriteBinary(mtime)] + (INSTALLING + (RESTARTING + CONFIRMING))))
  }

  /**
   * From any reachable state in which the validated agent serves and nothing is pending, an
   * undisturbed update ends with the new binary selected, running and confirmed, the old one as
   * the way back, and no record of a failure.
   */
  lemma UpdateSucceeds(s: State, rules: Rules, t: Target, mtime: int)
    requires Safe(s) && ServesAlone(s) && s.install.Idle? && s.pending.None?
    requires t != s.current && (rules.reuse || t.version != s.current.version)
    ensures var u := Run(s, rules, Update(s, t, mtime));
            && u.current == t && u.previous == Some(s.current) && u.pending.None? && u.failed.None?
            && u.launcher == Serving(t, false) && u.install.Idle? && t in u.store && u.store[t] == mtime
  {
    var n := |Doomed(Entries(s.store), Protected(s), RETAINED_AGENTS)|;
    var rest4 := RESTARTING + CONFIRMING;
    var rest3 := INSTALLING + rest4;
    var rest2 := [WriteBinary(mtime)] + rest3;
    var s1 := Do(s, rules, BeginInstall(t));
    assert s1 == s.(install := Pruning(t, Doomed(Entries(s.store), Protected(s), RETAINED_AGENTS)));
    DoThenRun(s, rules, BeginInstall(t), Prunes(n + 1) + rest2);
    RunJoin(s1, rules, Prunes(n + 1), rest2);
    PrunesThrough(s1, rules);
    var s2 := Run(s1, rules, Prunes(n + 1));
    DoThenRun(s2, rules, WriteBinary(mtime), rest3);
    var s3 := s2.(store := s2.store[t := mtime], install := Written(t));
    assert Do(s2, rules, WriteBinary(mtime)) == s3;
    hide Do, Run, Safe, INSTALLING, RESTARTING, CONFIRMING;
    RunJoin(s3, rules, INSTALLING, rest4);
    Installs(s3, rules, t);
    var s4 := Run(s3, rules, INSTALLING);
    RunJoin(s4, rules, RESTARTING, CONFIRMING);
    RetryRelaunches(s4, rules);
    Confirms(Run(s4, rules, RESTARTING), rules);
  }
}
