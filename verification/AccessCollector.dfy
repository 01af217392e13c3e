/** internal/telemetry/access.go as it works: the drain loop and one poll, over the real spool and reader. */
module AccessCollector {
  import opened Common
  import opened AccessLine
  import opened EventSpool
  import opened Log = AccessLog
  import EventStore

  const BUFFER_BYTES: nat := 16384

  /** The state machine after `n` more line steps. */
  function Steps(env: Env, s: State, n: nat): (after: State)
    requires s.files != []
    ensures after.files != []
  {
    if n == 0 then s else Log.Do(env, Steps(env, s, n - 1), Line)
  }

  lemma {:induction false} StepsAdd(env: Env, s: State, m: nat, n: nat)
    requires s.files != []
    ensures Steps(env, Steps(env, s, m), n) == Steps(env, s, m + n)
  {
    hide Log.Do;
    if n > 0 { StepsAdd(env, s, m, n - 1); }
  }

  function Lines(n: nat): seq<Action> { seq(n, _ => Line) }

  lemma {:induction false} StepsRun(env: Env, s: State, n: nat)
    requires s.files != []
    ensures Log.Run(env, s, Lines(n)) == Steps(env, s, n)
    decreases n
  {
    hide Log.Do;
    if n > 0 {
      assert Lines(n)[1..] == Lines(n - 1);
      StepsRun(env, Log.Do(env, s, Line), n - 1);
      assert Steps(env, s, 1) == Log.Do(env, Steps(env, s, 0), Line) == Log.Do(env, s, Line);
      StepsAdd(env, s, 1, n - 1);
    }
  }

  /** Fill the buffer up to a newline, its capacity, or the end of the file, until a line is complete. */
  method ReadFragments(s: seq<Byte>) returns (fragments: seq<seq<Byte>>)
    ensures Cut(fragments) && Flatten(fragments) <= s
    ensures Flatten(fragments) == s || (NEWLINE in Flatten(fragments))
  {
    hide Flatten;
    fragments := [];
    var i := 0;
    assert Flatten([]) == [] by { NothingFlat(); }
    while i < |s|
      invariant i <= |s| && Cut(fragments) && Flatten(fragments) == s[..i]
    {
      var fragment := ReadSlice(s[i..]);
      FlattenAppend(fragments, fragment);
      fragments := fragments + [fragment];
      i := i + |fragment|;
      if fragment[|fragment| - 1] == NEWLINE {
        assert fragment[|fragment| - 1] in Flatten(fragments);
        return;
      }
    }
  }

  lemma NothingFlat()
    ensures Flatten([]) == []
  {
  }

  method ReadSlice(s: seq<Byte>) returns (fragment: seq<Byte>)
    requires s != []
    ensures fragment != [] && fragment <= s && |fragment| <= BUFFER_BYTES
    ensures forall k :: 0 <= k < |fragment| - 1 ==> fragment[k] != NEWLINE
  {
    var i := 0;
    while i < |s| && i < BUFFER_BYTES
      invariant i <= |s| && i <= BUFFER_BYTES
      invariant forall k :: 0 <= k < i ==> s[k] != NEWLINE
    {
      i := i + 1;
      if s[i - 1] == NEWLINE { break; }
    }
    return s[..i];
  }

  /** The buffered reader delivers the first line of the rest of the file, and nothing about the cut matters. */
  lemma CutKeepsLine(fragments: seq<seq<Byte>>, s: seq<Byte>)
    requires Flatten(fragments) <= s && (Flatten(fragments) == s || NEWLINE in Flatten(fragments))
    ensures FirstLine(Flatten(fragments)) == FirstLine(s)
  {
    var p := Flatten(fragments);
    var line := FirstLine(p);
    if p != s {
      FoundIsComplete(p);
      assert s == line + s[|line|..];
      FirstLineStops(line, s[|line|..]);
    }
  }

  lemma {:induction false} FoundIsComplete(s: seq<Byte>)
    requires NEWLINE in s
    ensures Complete(FirstLine(s))
  {
    if s[0] != NEWLINE { FoundIsComplete(s[1..]); }
  }

  ghost predicate Matches(store: EventStore.Store, env: Env)
    reads store
  {
    store.Valid() && store.limits == env.limits && store.codec == env.codec
  }

  ghost function LifeOf(store: EventStore.Store): Life
    reads store
  {
    Life(store.Content(), store.history)
  }

  datatype LineResult = Advanced(cp: Checkpoint) | AtEnd(whole: bool) | Failed

  ghost predicate Did(outcome: LineOutcome, r: LineResult, before: Life, after: Life) {
    match outcome
    case Committed(life, next) => r == Advanced(next) && after == life
    case EndOfFile(whole) => r == AtEnd(whole) && after == before
    case Rejected(_) => r == Failed && after == before
  }

  /** Read the next line and commit it with the position behind it. */
  method DrainNext(env: Env, store: EventStore.Store, file: seq<Byte>, cp: Checkpoint) returns (r: LineResult)
    requires Matches(store, env) && 0 <= cp.offset <= |file|
    modifies store
    ensures Matches(store, env)
    ensures Did(DrainLine(env, old(LifeOf(store)), file, cp), r, old(LifeOf(store)), LifeOf(store))
  {
    hide EventStore.Store.Valid, Enqueue, Flatten, FirstLine;
    var fragments := ReadFragments(file[cp.offset..]);
    CutKeepsLine(fragments, file[cp.offset..]);
    var data, anchor, bytesRead, complete, tooLong := ReadBoundedLine(fragments);
    if !complete { return AtEnd(bytesRead == 0); }
    var next := cp.(offset := cp.offset + bytesRead);
    next := next.(anchorOffset := next.offset - |anchor|, anchorDigest := env.sha(anchor));
    if tooLong {
      store.SetCheckpoint(KEY, next);
      return Advanced(next);
    }
    match env.parse(TrimNewline(data))
    case Unrecognized =>
      store.SetCheckpoint(KEY, next);
      return Advanced(next);
    case Ignored =>
      store.SetCheckpoint(KEY, next);
      return Advanced(next);
    case Kept(observedAt, payload) =>
      var accepted := store.Enqueue(Submission(Access, observedAt, payload, SetCheckpoint(KEY, next)));
      return if accepted.Success? then Advanced(next) else Failed;
  }

  /** At most `budget` lines before the context is cancelled. `n` counts the committed ones. */
  method Drain(env: Env, store: EventStore.Store, file: seq<Byte>, start: Checkpoint, budget: nat, ghost s: State)
    returns (r: LineResult, cp: Checkpoint, ghost n: nat)
    requires Matches(store, env) && s.files != [] && s.life == LifeOf(store)
    requires s.phase.Draining? && s.phase.cp == start && s.phase.generation < |s.files| && file == s.files[s.phase.generation]
    requires 0 <= start.offset <= |file|
    modifies store
    ensures Matches(store, env)
    ensures Steps(env, s, n) == s.(life := LifeOf(store), phase := s.phase.(cp := cp))
    ensures 0 <= cp.offset <= |file|
    ensures r.AtEnd? ==> DrainLine(env, LifeOf(store), file, cp) == EndOfFile(r.whole)
  {
    hide DrainLine, Matches;
    cp, n, r := start, 0, Failed;
    var left := budget;
    while left > 0
      invariant Matches(store, env) && 0 <= cp.offset <= |file|
      invariant Steps(env, s, n) == s.(life := LifeOf(store), phase := s.phase.(cp := cp))
      invariant r.AtEnd? ==> DrainLine(env, LifeOf(store), file, cp) == EndOfFile(r.whole)
    {
      ghost var before := LifeOf(store);
      r := DrainNext(env, store, file, cp);
      if !r.Advanced? { return; }
      AdvancedStays(env, before, file, cp);
      cp, n, left := r.cp, n + 1, left - 1;
    }
  }

  lemma AdvancedStays(env: Env, life: Life, file: seq<Byte>, cp: Checkpoint)
    requires 0 <= cp.offset <= |file|
    ensures var r := DrainLine(env, life, file, cp);
            r.Committed? ==> 0 <= r.cp.offset <= |file|
  {
  }

  /** The machine at rest around this spool and these files. */
  ghost function AtRest(store: EventStore.Store, files: seq<seq<Byte>>, first: nat, visited: seq<nat>): State
    reads store
  {
    State(LifeOf(store), files, Resting, first, visited)
  }

  /** A stored position is a position; an older generation was not truncated behind it. */
  predicate Positioned(s: State) {
    && s.files != []
    && (Stored(s).Some? ==>
          var cp := Stored(s).value;
          0 <= cp.offset && (0 <= cp.inode < |s.files| - 1 ==> cp.offset <= |s.files[cp.inode]|))
  }

  lemma PollBegins(env: Env, s: State)
    requires s.files != [] && s.phase.Resting?
    ensures Log.Do(env, s, Poll) == BeginPoll(env, s)
  {
  }

  /**
   * One poll. It does to the spool what a poll of the state machine followed by `n` line steps
   * does, so every result about its runs holds of this code.
   */
  method CollectOnce(env: Env, store: EventStore.Store, files: seq<seq<Byte>>, budget: nat,
                     ghost first: nat, ghost visited: seq<nat>) returns (ghost n: nat)
    requires Matches(store, env) && Positioned(AtRest(store, files, first, visited))
    modifies store
    ensures Matches(store, env)
    ensures LifeOf(store) == Steps(env, Log.Do(env, old(AtRest(store, files, first, visited)), Poll), n).life
  {
    hide DrainLine, Log.Do, Steps, AnchorMatches, EventStore.Store.Valid;
    ghost var s := AtRest(store, files, first, visited);
    PollBegins(env, s);
    ghost var polled := Log.Do(env, s, Poll);
    n := 0;
    NoSteps(env, polled);
    var current := |files| - 1;
    if KEY !in store.checkpoints {
      store.SetCheckpoint(KEY, WithFileAnchor(env, NewCheckpoint(current).(offset := |files[current]|), files[current]));
      return;
    }
    var cp := store.checkpoints[KEY];
    if cp.inode == current {
      if |files[current]| < cp.offset || !AnchorMatches(env, cp, files[current]) {
        cp := cp.(offset := 0, anchorOffset := 0, anchorDigest := "");
        store.SetCheckpoint(KEY, cp);
      }
      var _, _, k := Drain(env, store, files[current], cp, budget, polled);
      n := k;
      return;
    }
    if 0 <= cp.inode < current && AnchorMatches(env, cp, files[cp.inode]) {
      var r, last, k := Drain(env, store, files[cp.inode], cp, budget, polled);
      n := k;
      if r != AtEnd(true) { return; }
      ghost var drained := Steps(env, polled, k);
      Moved(env, drained);
      store.SetCheckpoint(KEY, NewCheckpoint(current));
      var _, _, m := Drain(env, store, files[current], NewCheckpoint(current), budget, Log.Do(env, drained, Line));
      n := k + 1 + m;
      OneStep(env, drained);
      StepsAdd(env, polled, k, 1);
      StepsAdd(env, polled, k + 1, m);
    } else {
      store.SetCheckpoint(KEY, NewCheckpoint(current));
      var _, _, k := Drain(env, store, files[current], NewCheckpoint(current), budget, polled);
      n := k;
    }
  }

  /** In an accounted state the precondition of a poll holds. */
  lemma HoldsIsPositioned(env: Env, s: State)
    requires Holds(env, s)
    ensures Positioned(s)
  {
  }

  lemma NoSteps(env: Env, s: State)
    requires s.files != []
    ensures Steps(env, s, 0) == s
  {
  }

  lemma OneStep(env: Env, s: State)
    requires s.files != []
    ensures Steps(env, s, 1) == Log.Do(env, s, Line)
  {
    hide Log.Do;
    assert Steps(env, s, 0) == s;
  }

  /** At the end of an older generation the next line step moves on to the current one. */
  lemma Moved(env: Env, s: State)
    requires s.files != [] && s.phase.Draining? && s.phase.generation < |s.files|
    requires 0 <= s.phase.cp.offset <= |s.files[s.phase.generation]| && s.phase.rotation == Some(|s.files| - 1)
    requires DrainLine(env, s.life, s.files[s.phase.generation], s.phase.cp) == EndOfFile(true)
    ensures Log.Do(env, s, Line) == MoveTo(s, |s.files| - 1)
  {
  }

  /** What the code above guarantees of a poll: every complete line behind the position is in the spool exactly once. */
  lemma PollsKeepExactlyOnce(env: Env, s: State, n: nat)
    requires Holds(env, s) && s.phase.Resting? && s.files != []
    ensures Holds(env, Steps(env, Log.Do(env, s, Poll), n))
  {
    hide Holds, Log.Do, Steps, Log.Run;
    Log.DoKeeps(env, s, Poll);
    StepsRun(env, Log.Do(env, s, Poll), n);
    Log.RunKeeps(env, Log.Do(env, s, Poll), Lines(n));
  }

  // ---------------------------------------------------------------- a poll reads what is there

  /** Draining generation `g`, with the position stored. */
  predicate Reading(s: State, g: nat) {
    && s.phase.Draining? && s.phase.generation == g && g < |s.files| && 0 <= s.phase.cp.offset <= |s.files[g]|
    && Stored(s) == Some(s.phase.cp)
  }

  /** `t` is `s` further on in the same file, with exactly the events of the lines in between. */
  ghost predicate Advances(env: Env, s: State, t: State, g: nat) {
    && Reading(s, g) && Reading(t, g)
    && t == s.(life := t.life, phase := s.phase.(cp := t.phase.cp))
    && s.phase.cp.offset <= t.phase.cp.offset
    && var read := s.files[g][s.phase.cp.offset..t.phase.cp.offset];
       Whole(read) && Accesses(t.life.history) == Accesses(s.life.history) + Events(env, read)
  }

  lemma AdvancesByLine(env: Env, s: State, g: nat)
    requires Reading(s, g) && DrainLine(env, s.life, s.files[g], s.phase.cp).Committed?
    ensures var t := Log.Do(env, s, Line);
            Advances(env, s, t, g) && s.phase.cp.offset < t.phase.cp.offset
  {
    hide DrainLine, Expected, Events, FirstLine;
    var file, cp := s.files[g], s.phase.cp;
    CommittedEvents(env, s.life, file, cp);
    var line := FirstLine(file[cp.offset..]);
    assert [] + line == line == file[cp.offset..cp.offset + |line|];
    EventsOfNothing(env);
    EventsAppend(env, [], line);
  }

  lemma AdvancesOn(env: Env, s: State, t: State, u: State, g: nat)
    requires Advances(env, s, t, g) && Advances(env, t, u, g)
    ensures Advances(env, s, u, g)
  {
    hide Events, Accesses;
    var file := s.files[g];
    var a, b, c := s.phase.cp.offset, t.phase.cp.offset, u.phase.cp.offset;
    assert file[a..c] == file[a..b] + file[b..c];
    EventsJoin(env, file[a..b], file[b..c]);
  }

  lemma {:induction false} EventsJoin(env: Env, a: seq<Byte>, b: seq<Byte>)
    requires Whole(a) && Whole(b)
    ensures Events(env, a + b) == Events(env, a) + Events(env, b) && Whole(a + b)
    decreases |a|
  {
    hide FirstLine, Expected, Events;
    EventsOfNothing(env);
    if a == [] {
      assert a + b == b;
    } else {
      HeadLine(a, b);
      HeadLine(a, []);
      assert a + [] == a;
      var head := FirstLine(a);
      var rest := a[|head|..];
      EventsHead(env, a, head, rest);
      assert a + b == head + (rest + b);
      EventsHead(env, a + b, head, rest + b);
      EventsJoin(env, rest, b);
    }
  }

  lemma AdvancesNowhere(env: Env, s: State, g: nat)
    requires Reading(s, g)
    ensures Advances(env, s, s, g)
  {
    assert s.files[g][s.phase.cp.offset..s.phase.cp.offset] == [];
    EventsOfNothing(env);
  }

  /** The spool refuses the next line, or there is none. */
  predicate AtStop(env: Env, s: State, g: nat)
    requires Reading(s, g)
  {
    DrainLine(env, s.life, s.files[g], s.phase.cp).Rejected? || NEWLINE !in s.files[g][s.phase.cp.offset..]
  }

  /** The line steps of a poll go on to the last complete line, unless the spool refuses one. */
  lemma {:induction false} ReadsOn(env: Env, s: State, g: nat) returns (n: nat)
    requires Reading(s, g)
    ensures n <= |s.files[g]| - s.phase.cp.offset
    ensures Advances(env, s, Steps(env, s, n), g) && AtStop(env, Steps(env, s, n), g)
    decreases |s.files[g]| - s.phase.cp.offset
  {
    hide Log.Do, DrainLine, Steps, Events, Accesses;
    if DrainLine(env, s.life, s.files[g], s.phase.cp).Committed? {
      AdvancesByLine(env, s, g);
      var t := Log.Do(env, s, Line);
      var k := ReadsOn(env, t, g);
      OneStep(env, s);
      StepsAdd(env, s, 1, k);
      n := 1 + k;
      AdvancesOn(env, s, t, Steps(env, t, k), g);
    } else {
      n := 0;
      NoSteps(env, s);
      AdvancesNowhere(env, s, g);
      if DrainLine(env, s.life, s.files[g], s.phase.cp).EndOfFile? { NothingLeft(env, s.life, s.files[g], s.phase.cp); }
    }
  }

  lemma NothingLeft(env: Env, life: Life, file: seq<Byte>, cp: Checkpoint)
    requires 0 <= cp.offset <= |file| && DrainLine(env, life, file, cp).EndOfFile?
    ensures NEWLINE !in file[cp.offset..]
  {
    var rest := file[cp.offset..];
    if NEWLINE in rest { FoundIsComplete(rest); }
  }

  /**
   * In every state that a run can reach, a poll that is not interrupted reads every complete line
   * behind the position in the file that the position is in, unless the spool refuses a line.
   */
  lemma PollReadsEverything(env: Env, s: State) returns (n: nat)
    requires s.files != [] && Holds(env, s) && s.phase.Resting? && Stored(s).Some?
    ensures Holds(env, Steps(env, Log.Do(env, s, Poll), n))
    ensures var g := Stored(s).value.inode;
            var t := Steps(env, Log.Do(env, s, Poll), n);
            && 0 <= g < |s.files| && t.files == s.files && t.visited == s.visited
            && Reading(t, g) && Stored(s).value.offset <= Stored(t).value.offset
            && (DrainLine(env, t.life, s.files[g], Stored(t).value).Rejected? || NEWLINE !in s.files[g][Stored(t).value.offset..])
  {
    hide DrainLine, Consumed, Events, Accesses, Steps;
    var g := Stored(s).value.inode;
    PollGoesOn(env, s);
    var polled := Log.Do(env, s, Poll);
    n := ReadsOn(env, polled, g);
    PollsKeepExactlyOnce(env, s, n);
  }

  lemma PollGoesOn(env: Env, s: State)
    requires s.files != [] && Holds(env, s) && s.phase.Resting? && Stored(s).Some?
    ensures var t := Log.Do(env, s, Poll);
            && 0 <= Stored(s).value.inode < |s.files| && Reading(t, Stored(s).value.inode)
            && t.phase.cp == Stored(s).value && t.files == s.files && t.visited == s.visited
  {
    hide Consumed, Events, Accesses;
    var cp := Stored(s).value;
    GrownFileMatches(env, cp, s.files[cp.inode], []);
    assert s.files[cp.inode] + [] == s.files[cp.inode];
  }

  /**
   * A log that shrank, or whose bytes before the position changed, is taken for a truncated one.
   * The poll stores the start of the file, without an anchor, and reads it again from there.
   */
  lemma TruncatedLogIsReadAgain(env: Env, s: State) returns (n: nat)
    requires s.files != [] && s.phase.Resting? && Stored(s).Some? && Stored(s).value.inode == |s.files| - 1
    requires var cp, file := Stored(s).value, s.files[|s.files| - 1];
             |file| < cp.offset || !AnchorMatches(env, cp, file)
    ensures var g := |s.files| - 1;
            var reset := Stored(s).value.(offset := 0, anchorOffset := 0, anchorDigest := "");
            var polled := Log.Do(env, s, Poll);
            var t := Steps(env, polled, n);
            && Stored(polled) == Some(reset) && polled.life.history == s.life.history && Reading(polled, g)
            && t.files == s.files && Reading(t, g)
            && Accesses(t.life.history) == Accesses(s.life.history) + Events(env, s.files[g][..Stored(t).value.offset])
            && (DrainLine(env, t.life, s.files[g], Stored(t).value).Rejected? || NEWLINE !in s.files[g][Stored(t).value.offset..])
  {
    hide DrainLine, Events, Accesses, AnchorMatches, Steps;
    var g := |s.files| - 1;
    var polled := Log.Do(env, s, Poll);
    n := ReadsOn(env, polled, g);
    var t := Steps(env, polled, n);
    assert s.files[g][0..t.phase.cp.offset] == s.files[g][..t.phase.cp.offset];
  }
}
