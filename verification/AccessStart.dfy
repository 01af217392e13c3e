/** Where tailing starts, computed from the actions alone, and what the collector does with the bytes behind that point. */
module AccessStart {
  import opened Common
  import opened AccessLine
  import EventSpool
  import opened Log = AccessLog

  // ---------------------------------------------------------------- where tailing starts

  /** The generation and the length of the current file at the first poll, read off the actions alone. */
  function FirstPoll(generation: nat, length: nat, actions: seq<Action>): Option<(nat, nat)>
    decreases |actions|
  {
    if actions == [] then None
    else
      match actions[0]
      case Poll => Some((generation, length))
      case Grow(bytes) => FirstPoll(generation, length + |bytes|, actions[1..])
      case Rotate => FirstPoll(generation + 1, 0, actions[1..])
      case _ => FirstPoll(generation, length, actions[1..])
  }

  predicate StartedAt(s: State, generation: nat, length: nat) {
    Stored(s).Some? && s.visited != [] && s.visited[0] == generation && s.first == length
  }

  lemma StartStays(env: Env, s: State, a: Action, generation: nat, length: nat)
    requires Holds(env, s) && StartedAt(s, generation, length)
    ensures StartedAt(Do(env, s, a), generation, length)
  {
    hide Consumed, Events, Accesses, AnchorHolds, AnchorMatches, DrainLine;
    match a
    case Other(op) =>
      if Foreign(op) { ForeignOp(env, s.life, op); }
      hide EventSpool.Do;
    case Line => if s.phase.Draining? { CommitKeeps(env, s, s.phase.cp); }
    case _ =>
  }

  lemma {:induction false} RunStartStays(env: Env, s: State, actions: seq<Action>, generation: nat, length: nat)
    requires s.files != [] && Holds(env, s) && StartedAt(s, generation, length)
    ensures StartedAt(Run(env, s, actions), generation, length)
    decreases |actions|
  {
    hide Holds, Do, StartedAt;
    if actions != [] {
      DoKeeps(env, s, actions[0]);
      StartStays(env, s, actions[0], generation, length);
      RunStartStays(env, Do(env, s, actions[0]), actions[1..], generation, length);
    }
  }

  /** Before the first poll only the files move. */
  lemma Unpolled(env: Env, s: State, a: Action)
    requires Holds(env, s) && Stored(s).None?
    ensures var t := Do(env, s, a);
            var current := |s.files| - 1;
            && (a.Poll? ==> StartedAt(t, current, |s.files[current]|))
            && (!a.Poll? ==> Stored(t).None?)
            && (a.Grow? ==> |t.files| == |s.files| && |t.files[current]| == |s.files[current]| + |a.bytes|)
            && (a.Rotate? ==> t.files == s.files + [[]])
            && (!a.Grow? && !a.Rotate? ==> t.files == s.files)
  {
    if a.Other? && Foreign(a.op) { ForeignOp(env, s.life, a.op); }
    hide EventSpool.Do, Accesses;
  }

  lemma {:induction false} RunStarts(env: Env, s: State, actions: seq<Action>)
    requires s.files != [] && Holds(env, s) && Stored(s).None?
    ensures match FirstPoll(|s.files| - 1, |s.files[|s.files| - 1]|, actions)
            case None => Stored(Run(env, s, actions)).None?
            case Some((generation, length)) => StartedAt(Run(env, s, actions), generation, length)
    decreases |actions|
  {
    hide Holds, Do, StartedAt, Stored;
    if actions != [] {
      var t := Do(env, s, actions[0]);
      DoKeeps(env, s, actions[0]);
      Unpolled(env, s, actions[0]);
      if actions[0].Poll? {
        RunStartStays(env, t, actions[1..], |s.files| - 1, |s.files[|s.files| - 1]|);
      } else {
        RunStarts(env, t, actions[1..]);
      }
    }
  }

  /**
   * In every run tailing starts where the log ended when it was first polled: what was written
   * before, in that file or in an older one, never becomes an access event.
   */
  lemma TailingStartsAtFirstPoll(env: Env, randomId: string, log: seq<Byte>, actions: seq<Action>)
    requires randomId != ""
    ensures var s := Run(env, Start(randomId, log), actions);
            match FirstPoll(0, |log|, actions)
            case None => Stored(s).None? && Accesses(s.life.history) == []
            case Some((generation, length)) =>
              && Stored(s).Some? && s.visited != [] && s.visited[0] == generation
              && Trail(s.files, length, s.visited, Stored(s).value.offset)
              && Accesses(s.life.history) == Events(env, Consumed(s.files, length, s.visited, Stored(s).value.offset))
  {
    hide Run, Events, Consumed, Trail, Accesses;
    var s0 := Start(randomId, log);
    assert Holds(env, s0) by { StartHolds(env, randomId, log); }
    assert Stored(s0).None?;
    RunKeeps(env, s0, actions);
    RunStarts(env, s0, actions);
  }

  /** How far the collector is through the generation it started in. */
  function ReadOfFirst(files: seq<seq<Byte>>, visited: seq<nat>, offset: nat): nat
    requires visited != [] && visited[0] < |files|
  {
    if |visited| == 1 then offset else |files[visited[0]]|
  }

  /** Whatever was appended to that file afterwards is consumed as soon as the position has passed it. */
  lemma {:induction false} AppendedIsConsumed(files: seq<seq<Byte>>, first: nat, visited: seq<nat>, offset: nat, end: nat)
    requires Trail(files, first, visited, offset) && visited[0] < |files|
    requires first <= end <= ReadOfFirst(files, visited, offset) <= |files[visited[0]]|
    ensures files[visited[0]][first..end] <= Consumed(files, first, visited, offset)
    decreases |visited|
  {
    var n := |visited| - 1;
    if n == 0 {
      assert files[visited[0]][first..end] == files[visited[0]][first..offset][..end - first];
    } else {
      AppendedIsConsumed(files, first, visited[..n], |files[visited[n - 1]]|, end);
    }
  }

  lemma TrimsTheNewline(bytes: seq<Byte>)
    ensures TrimNewline(bytes + [NEWLINE]) == bytes
  {
    assert (bytes + [NEWLINE])[..|bytes|] == bytes;
  }

  /** The parser sees the bytes of a line without its newline; a line that is too long never reaches it. */
  lemma ParserSeesTheLine(env: Env, bytes: seq<Byte>)
    requires NEWLINE !in bytes
    ensures Events(env, bytes + [NEWLINE]) ==
            if |bytes| + 1 > 65536 || !env.parse(bytes).Kept? then []
            else [(env.parse(bytes).observedAt, env.parse(bytes).payload)]
  {
    hide Events, FirstLine, TrimNewline;
    var line := bytes + [NEWLINE];
    TrimsTheNewline(bytes);
    FirstLineStops(line, []);
    assert line + [] == line;
    EventsHead(env, line, line, []);
    EventsOfNothing(env);
  }
}
