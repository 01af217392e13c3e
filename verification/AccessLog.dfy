/**
 * internal/telemetry/access.go: tailing an access log that grows and is rotated by renaming.
 * Each line is committed in one transaction with the position behind it, so a collector that is
 * stopped anywhere goes on exactly where its last transaction ended.
 */
module AccessLog {
  import opened Common
  import opened AccessLine
  import opened EventSpool

  const KEY := "xray-access-v1"

  datatype Parsed = Unrecognized | Ignored | Kept(observedAt: int, payload: string)

  /** The parser, the digest and the spool's settings, about which nothing is assumed. */
  datatype Env = Env(parse: seq<Byte> -> Parsed, sha: seq<Byte> -> string, limits: Limits, codec: Codec)

  function TrimNewline(line: seq<Byte>): seq<Byte> {
    if Complete(line) then line[..|line| - 1] else line
  }

  /** What a complete line contributes: an event's time and payload, or nothing. */
  function Expected(env: Env, line: seq<Byte>): seq<(int, string)> {
    if |line| > MAX_LINE_BYTES then []
    else
      match env.parse(TrimNewline(line))
      case Unrecognized => []
      case Ignored => []
      case Kept(observedAt, payload) => [(observedAt, payload)]
  }

  /** The events of all complete lines of `s`, in order. */
  function Events(env: Env, s: seq<Byte>): seq<(int, string)>
    decreases |s|
  {
    var line := FirstLine(s);
    if Complete(line) then Expected(env, line) + Events(env, s[|line|..]) else []
  }

  /** The access events among everything the spool accepted. */
  function Accesses(history: seq<Event>): seq<(int, string)> {
    if history == [] then []
    else
      var e := history[|history| - 1];
      Accesses(history[..|history| - 1]) + if e.kind.Access? then [(e.observedAt, e.payload)] else []
  }

  // ---------------------------------------------------------------- checkpoints

  /** The identity of a file is the number of its generation; `rotated` names stay findable. */
  function NewCheckpoint(generation: nat): Checkpoint { Checkpoint(0, generation, 0, 0, "", true) }

  function WithLineAnchor(env: Env, cp: Checkpoint, line: seq<Byte>): Checkpoint {
    var tail := Last(line, ANCHOR_BYTES);
    cp.(anchorOffset := cp.offset - |tail|, anchorDigest := env.sha(tail))
  }

  function WithFileAnchor(env: Env, cp: Checkpoint, file: seq<Byte>): Checkpoint
    requires 0 <= cp.offset <= |file|
  {
    if cp.offset == 0 then cp
    else
      var length := if cp.offset < ANCHOR_BYTES then cp.offset else ANCHOR_BYTES;
      cp.(anchorOffset := cp.offset - length, anchorDigest := env.sha(file[cp.offset - length..cp.offset]))
  }

  predicate AnchorMatches(env: Env, cp: Checkpoint, file: seq<Byte>) {
    if cp.offset == 0 || cp.anchorDigest == "" then true
    else
      var length := cp.offset - cp.anchorOffset;
      if length <= 0 || length > ANCHOR_BYTES then false
      else if cp.anchorOffset < 0 || cp.offset > |file| then false
      else env.sha(file[cp.anchorOffset..cp.offset]) == cp.anchorDigest
  }

  // ---------------------------------------------------------------- one line

  datatype LineOutcome =
    | Committed(life: Life, cp: Checkpoint)
    | EndOfFile(drained: bool)
    | Rejected(error: Error)

  /** The body of the drain loop at the checkpoint's offset. */
  function DrainLine(env: Env, life: Life, file: seq<Byte>, cp: Checkpoint): LineOutcome
    requires 0 <= cp.offset <= |file|
  {
    var line := FirstLine(file[cp.offset..]);
    if !Complete(line) then EndOfFile(line == [])
    else
      var next := WithLineAnchor(env, cp.(offset := cp.offset + |line|), line);
      var skipped := Committed(life.(db := SaveCheckpoint(life.db, KEY, next)), next);
      if |line| > MAX_LINE_BYTES then skipped
      else
        match env.parse(TrimNewline(line))
        case Unrecognized => skipped
        case Ignored => skipped
        case Kept(observedAt, payload) =>
          match Enqueue(life.db, env.limits, env.codec, Submission(Access, observedAt, payload, SetCheckpoint(KEY, next)))
          case Success((db, e)) => Committed(Life(db, life.history + [e]), next)
          case Failure(error) => Rejected(error)
  }

  // ---------------------------------------------------------------- the collector beside a growing log

  /** `rotation`: the current generation when a drain of an older one began. */
  datatype Phase = Resting | Draining(generation: nat, cp: Checkpoint, rotation: Option<nat>)

  /**
   * `files`: every generation of the log, the last one current. `first`: the offset of the first
   * checkpoint. `visited`: the generations that the position has been in, oldest first.
   */
  datatype State = State(life: Life, files: seq<seq<Byte>>, phase: Phase, first: nat, visited: seq<nat>)

  datatype Action =
    | Grow(bytes: seq<Byte>)
    | Rotate                 // rename the log away and start a new one; never during a poll
    | Poll
    | Line
    | Interrupt              // cancellation, a crash, a read error
    | Other(op: Op)          // the rest of the agent uses the spool too

  function Stored(s: State): Option<Checkpoint> {
    if KEY in s.life.db.checkpoints then Some(s.life.db.checkpoints[KEY]) else None
  }

  function Save(s: State, cp: Checkpoint): State {
    s.(life := s.life.(db := SaveCheckpoint(s.life.db, KEY, cp)))
  }

  /** Go on at the start of a generation. */
  function MoveTo(s: State, generation: nat): State {
    var cp := NewCheckpoint(generation);
    Save(s, cp).(phase := Draining(generation, cp, None), visited := s.visited + [generation])
  }

  function BeginPoll(env: Env, s: State): State
    requires s.files != []
  {
    var current := |s.files| - 1;
    var file := s.files[current];
    match Stored(s)
    case None =>
      var cp := WithFileAnchor(env, NewCheckpoint(current).(offset := |file|), file);
      Save(s, cp).(first := |file|, visited := [current])
    case Some(cp) =>
      if cp.inode == current then
        if |file| < cp.offset || !AnchorMatches(env, cp, file) then
          var reset := cp.(offset := 0, anchorOffset := 0, anchorDigest := "");
          Save(s, reset).(phase := Draining(current, reset, None))
        else s.(phase := Draining(current, cp, None))
      else if 0 <= cp.inode < current && AnchorMatches(env, cp, s.files[cp.inode]) then
        s.(phase := Draining(cp.inode, cp, Some(current)))
      else
        MoveTo(s, current)
  }

  function NextLine(env: Env, s: State): State
    requires s.phase.Draining?
  {
    var g, cp := s.phase.generation, s.phase.cp;
    if !(g < |s.files| && 0 <= cp.offset <= |s.files[g]|) then s.(phase := Resting)
    else
      match DrainLine(env, s.life, s.files[g], cp)
      case Committed(life, next) => s.(life := life, phase := s.phase.(cp := next))
      case Rejected(_) => s.(phase := Resting)
      case EndOfFile(drained) =>
        if drained && s.phase.rotation.Some? then MoveTo(s, s.phase.rotation.value) else s.(phase := Resting)
  }

  /** The rest of the agent enqueues no access events and keeps its hands off the access checkpoint. */
  predicate Foreign(op: Op) {
    match op
    case Submit(s) => !s.kind.Access? && !(s.effect.SetCheckpoint? && s.effect.key == KEY)
    case Save(key, _) => key != KEY
    case _ => true
  }

  function Do(env: Env, s: State, a: Action): (after: State)
    requires s.files != []
    ensures after.files != []
  {
    match a
    case Grow(bytes) => s.(files := s.files[|s.files| - 1 := s.files[|s.files| - 1] + bytes])
    case Rotate => if s.phase.Resting? then s.(files := s.files + [[]]) else s
    case Poll => if s.phase.Resting? then BeginPoll(env, s) else s
    case Line => if s.phase.Draining? then NextLine(env, s) else s
    case Interrupt => s.(phase := Resting)
    case Other(op) => if Foreign(op) then s.(life := EventSpool.Do(s.life, env.limits, env.codec, op)) else s
  }

  // ---------------------------------------------------------------- what was consumed

  /** A position and the way that led to it: every generation but the last was read to its end. */
  predicate Trail(files: seq<seq<Byte>>, first: nat, visited: seq<nat>, offset: int) {
    && visited != [] && (forall i, j :: 0 <= i < j < |visited| ==> visited[i] < visited[j])
    && visited[|visited| - 1] < |files| && first <= |files[visited[0]]|
    && 0 <= offset <= |files[visited[|visited| - 1]]|
    && (|visited| == 1 ==> first <= offset)
  }

  /** Everything from the first checkpoint up to the given position, across the visited generations. */
  function Consumed(files: seq<seq<Byte>>, first: nat, visited: seq<nat>, offset: nat): seq<Byte>
    requires Trail(files, first, visited, offset)
    decreases |visited|
  {
    var n := |visited| - 1;
    if n == 0 then files[visited[0]][first..offset]
    else Consumed(files, first, visited[..n], |files[visited[n - 1]]|) + files[visited[n]][..offset]
  }

  /** Complete lines only. */
  predicate Whole(s: seq<Byte>) { s == [] || s[|s| - 1] == NEWLINE }

  predicate IsLine(line: seq<Byte>) { Complete(line) && forall i :: 0 <= i < |line| - 1 ==> line[i] != NEWLINE }

  /** The first of complete lines is complete, whatever follows. */
  lemma HeadLine(s: seq<Byte>, more: seq<Byte>)
    requires s != [] && Whole(s)
    ensures var head := FirstLine(s);
            Complete(head) && FirstLine(s + more) == head && Whole(s[|head|..])
  {
    var head := FirstLine(s);
    if |head| == |s| { assert head == s; }
    assert s + more == head + (s[|head|..] + more);
    FirstLineStops(head, s[|head|..] + more);
  }

  lemma EventsHead(env: Env, s: seq<Byte>, head: seq<Byte>, rest: seq<Byte>)
    requires s == head + rest && FirstLine(s) == head && Complete(head)
    ensures Events(env, s) == Expected(env, head) + Events(env, rest)
  {
    assert s[|head|..] == rest;
    hide FirstLine, Expected;
  }

  lemma EventsOfNothing(env: Env)
    ensures Events(env, []) == []
  {
  }

  lemma {:induction false} EventsAppend(env: Env, s: seq<Byte>, line: seq<Byte>)
    requires Whole(s) && IsLine(line)
    ensures Events(env, s + line) == Events(env, s) + Expected(env, line) && Whole(s + line)
    decreases |s|
  {
    hide FirstLine, Expected, Events;
    EventsOfNothing(env);
    if s == [] {
      assert s + line == line == line + [];
      FirstLineStops(line, []);
      EventsHead(env, line, line, []);
      assert Expected(env, line) + [] == Expected(env, line) == [] + Expected(env, line);
    } else {
      HeadLine(s, line);
      HeadLine(s, []);
      assert s + [] == s;
      var head := FirstLine(s);
      var rest := s[|head|..];
      EventsHead(env, s, head, rest);
      assert s + line == head + (rest + line);
      EventsHead(env, s + line, head, rest + line);
      EventsAppend(env, rest, line);
      assert Expected(env, head) + (Events(env, rest) + Expected(env, line)) ==
             Expected(env, head) + Events(env, rest) + Expected(env, line);
    }
  }

  predicate AnchorHolds(env: Env, cp: Checkpoint, file: seq<Byte>) {
    && 0 <= cp.offset <= |file|
    && (cp.offset > 0 ==>
          && 0 <= cp.anchorOffset < cp.offset && cp.offset - cp.anchorOffset <= ANCHOR_BYTES
          && cp.anchorDigest == env.sha(file[cp.anchorOffset..cp.offset]))
  }

  /** An append-only file is never mistaken for a truncated one. */
  lemma GrownFileMatches(env: Env, cp: Checkpoint, file: seq<Byte>, more: seq<Byte>)
    requires AnchorHolds(env, cp, file)
    ensures AnchorMatches(env, cp, file + more) && AnchorHolds(env, cp, file + more)
  {
    if cp.offset > 0 {
      assert (file + more)[cp.anchorOffset..cp.offset] == file[cp.anchorOffset..cp.offset];
    }
  }

  lemma LineAnchorHolds(env: Env, cp: Checkpoint, file: seq<Byte>, line: seq<Byte>)
    requires 0 <= cp.offset && cp.offset + |line| <= |file| && line != [] && line == file[cp.offset..cp.offset + |line|]
    ensures AnchorHolds(env, WithLineAnchor(env, cp.(offset := cp.offset + |line|), line), file)
  {
    var end := cp.offset + |line|;
    var tail := Last(line, ANCHOR_BYTES);
    assert tail == file[end - |tail|..end];
  }

  /** Files only grow, so what was consumed stays what it was. */
  lemma {:induction false} ConsumedStays(files: seq<seq<Byte>>, later: seq<seq<Byte>>, first: nat, visited: seq<nat>, offset: nat)
    requires Trail(files, first, visited, offset)
    requires var g := visited[|visited| - 1];
             g < |later| && files[g] <= later[g] && forall k :: 0 <= k < g ==> later[k] == files[k]
    ensures Trail(later, first, visited, offset)
    ensures Consumed(later, first, visited, offset) == Consumed(files, first, visited, offset)
    decreases |visited|
  {
    var n := |visited| - 1;
    var g := visited[n];
    if n > 0 {
      ConsumedStays(files, later, first, visited[..n], |files[visited[n - 1]]|);
      assert later[g][..offset] == files[g][..offset];
    } else {
      assert later[g][first..offset] == files[g][first..offset];
    }
  }

  lemma ConsumedLine(files: seq<seq<Byte>>, first: nat, visited: seq<nat>, offset: nat, line: seq<Byte>)
    requires Trail(files, first, visited, offset)
    requires var file := files[visited[|visited| - 1]];
             offset + |line| <= |file| && line == file[offset..offset + |line|]
    ensures Trail(files, first, visited, offset + |line|)
    ensures Consumed(files, first, visited, offset + |line|) == Consumed(files, first, visited, offset) + line
  {
    var n := |visited| - 1;
    var file := files[visited[n]];
    if n > 0 {
      assert file[..offset + |line|] == file[..offset] + line;
    } else {
      assert file[first..offset + |line|] == file[first..offset] + line;
    }
  }

  /** A generation read to its end is followed by any later one, from its start. */
  lemma ConsumedMoves(files: seq<seq<Byte>>, first: nat, visited: seq<nat>, next: nat)
    requires visited != [] && visited[|visited| - 1] < next < |files|
    requires Trail(files, first, visited, |files[visited[|visited| - 1]]|)
    ensures Trail(files, first, visited + [next], 0)
    ensures Consumed(files, first, visited + [next], 0) == Consumed(files, first, visited, |files[visited[|visited| - 1]]|)
  {
    assert (visited + [next])[..|visited|] == visited;
    assert files[next][..0] == [];
  }

  // ---------------------------------------------------------------- the invariant

  /** The stored position is in the generation visited last, and everything before it is accounted for. */
  predicate Located(s: State, cp: Checkpoint) {
    Trail(s.files, s.first, s.visited, cp.offset) && cp.inode == s.visited[|s.visited| - 1]
  }

  ghost predicate Accounted(env: Env, s: State, cp: Checkpoint) {
    && Located(s, cp)
    && AnchorHolds(env, cp, s.files[cp.inode])
    && var consumed := Consumed(s.files, s.first, s.visited, cp.offset);
       Whole(consumed) && Accesses(s.life.history) == Events(env, consumed)
  }

  ghost predicate Holds(env: Env, s: State) {
    && s.files != []
    && match Stored(s)
       case None => s.phase.Resting? && Accesses(s.life.history) == []
       case Some(cp) =>
         && Accounted(env, s, cp)
         && (s.phase.Draining? ==>
               && s.phase.cp == cp && s.phase.generation == cp.inode
               && s.phase.rotation == (if cp.inode == |s.files| - 1 then None else Some(|s.files| - 1)))
  }

  lemma GrowKeeps(env: Env, s: State, bytes: seq<Byte>)
    requires Holds(env, s)
    ensures Holds(env, Do(env, s, Grow(bytes)))
  {
    if Stored(s).Some? {
      var cp := Stored(s).value;
      var after := Do(env, s, Grow(bytes));
      GrownFileMatches(env, cp, s.files[cp.inode], bytes);
      ConsumedStays(s.files, after.files, s.first, s.visited, cp.offset);
      hide Consumed, Events, AnchorHolds, Trail;
    }
  }

  lemma RotateKeeps(env: Env, s: State)
    requires Holds(env, s)
    ensures Holds(env, Do(env, s, Rotate))
  {
    if Stored(s).Some? {
      var cp := Stored(s).value;
      ConsumedStays(s.files, s.files + [[]], s.first, s.visited, cp.offset);
      hide Consumed, Events, AnchorHolds, Trail;
    }
  }

  /** Polling an intact log resets nothing: it starts where the checkpoint says. */
  lemma PollKeeps(env: Env, s: State)
    requires Holds(env, s) && s.phase.Resting?
    ensures Holds(env, BeginPoll(env, s))
    ensures Stored(s).Some? ==> BeginPoll(env, s).life == s.life
  {
    match Stored(s)
    case None =>
      var current := |s.files| - 1;
      var file := s.files[current];
      assert file[|file|..|file|] == [];
    case Some(cp) =>
      GrownFileMatches(env, cp, s.files[cp.inode], []);
      assert s.files[cp.inode] + [] == s.files[cp.inode];
      hide Consumed, Events;
  }

  lemma AccessAppends(history: seq<Event>, e: Event)
    ensures Accesses(history + [e]) == Accesses(history) + if e.kind.Access? then [(e.observedAt, e.payload)] else []
  {
    assert (history + [e])[..|history|] == history;
  }

  /** A committed line moves the position, the anchor and the events together. */
  lemma CommitKeeps(env: Env, s: State, cp: Checkpoint)
    requires Accounted(env, s, cp)
    ensures var r := DrainLine(env, s.life, s.files[cp.inode], cp);
            r.Committed? ==>
              && r.cp.inode == cp.inode && KEY in r.life.db.checkpoints && r.life.db.checkpoints[KEY] == r.cp
              && Accounted(env, s.(life := r.life), r.cp)
  {
    hide DrainLine, WithLineAnchor, FirstLine, Consumed, Events, Expected, Accesses;
    var file := s.files[cp.inode];
    CommittedEvents(env, s.life, file, cp);
    if DrainLine(env, s.life, file, cp).Committed? {
      var line := FirstLine(file[cp.offset..]);
      assert line == file[cp.offset..cp.offset + |line|];
      LineAnchorHolds(env, cp, file, line);
      ConsumedLine(s.files, s.first, s.visited, cp.offset, line);
      EventsAppend(env, Consumed(s.files, s.first, s.visited, cp.offset), line);
    }
  }

  /** What a committed line adds to the spool. */
  lemma CommittedEvents(env: Env, life: Life, file: seq<Byte>, cp: Checkpoint)
    requires 0 <= cp.offset <= |file|
    ensures var r := DrainLine(env, life, file, cp);
            var line := FirstLine(file[cp.offset..]);
            r.Committed? ==>
              && Complete(line) && r.cp == WithLineAnchor(env, cp.(offset := cp.offset + |line|), line)
              && r.cp.offset == cp.offset + |line| && r.cp.inode == cp.inode
              && KEY in r.life.db.checkpoints && r.life.db.checkpoints[KEY] == r.cp
              && Accesses(r.life.history) == Accesses(life.history) + Expected(env, line)
  {
    hide FirstLine, EventSpool.Store;
    var r := DrainLine(env, life, file, cp);
    if r.Committed? && r.life.history != life.history {
      AccessAppends(life.history, r.life.history[|r.life.history| - 1]);
    }
  }

  /** An older generation read to its very end hands over to the current one. */
  lemma HandOver(env: Env, s: State, cp: Checkpoint)
    requires s.files != [] && Accounted(env, s, cp) && cp.offset == |s.files[cp.inode]| && cp.inode < |s.files| - 1
    ensures Accounted(env, MoveTo(s, |s.files| - 1), NewCheckpoint(|s.files| - 1))
  {
    hide Events, Accesses, Consumed;
    ConsumedMoves(s.files, s.first, s.visited, |s.files| - 1);
  }

  lemma DrainedIsTheEnd(env: Env, life: Life, file: seq<Byte>, cp: Checkpoint)
    requires 0 <= cp.offset <= |file| && DrainLine(env, life, file, cp) == EndOfFile(true)
    ensures cp.offset == |file|
  {
  }

  lemma LineKeeps(env: Env, s: State)
    requires Holds(env, s) && s.phase.Draining?
    ensures Holds(env, NextLine(env, s))
  {
    hide Consumed, Events, Accesses, DrainLine, AnchorHolds;
    var cp := s.phase.cp;
    CommitKeeps(env, s, cp);
    var r := DrainLine(env, s.life, s.files[cp.inode], cp);
    if r.EndOfFile? && r.drained && s.phase.rotation.Some? {
      DrainedIsTheEnd(env, s.life, s.files[cp.inode], cp);
      HandOver(env, s, cp);
    }
  }

  /** The node reads the spool through its access events and its access checkpoint. */
  lemma SpoolMoves(env: Env, s: State, life: Life)
    requires Holds(env, s) && Accesses(life.history) == Accesses(s.life.history)
    requires KEY in life.db.checkpoints <==> KEY in s.life.db.checkpoints
    requires KEY in s.life.db.checkpoints ==> life.db.checkpoints[KEY] == s.life.db.checkpoints[KEY]
    ensures Holds(env, s.(life := life))
  {
    hide Consumed, Events, Accesses, AnchorHolds, Trail;
  }

  /** Nothing else in the agent touches the access events or their position. */
  lemma OtherKeeps(env: Env, s: State, op: Op)
    requires Holds(env, s)
    ensures Holds(env, Do(env, s, Other(op)))
  {
    hide Holds, Accesses, EventSpool.Do;
    if Foreign(op) {
      ForeignOp(env, s.life, op);
      SpoolMoves(env, s, EventSpool.Do(s.life, env.limits, env.codec, op));
    }
  }

  lemma ForeignOp(env: Env, life: Life, op: Op)
    requires Foreign(op)
    ensures var after := EventSpool.Do(life, env.limits, env.codec, op);
            && Accesses(after.history) == Accesses(life.history)
            && (KEY in after.db.checkpoints <==> KEY in life.db.checkpoints)
            && (KEY in life.db.checkpoints ==> after.db.checkpoints[KEY] == life.db.checkpoints[KEY])
  {
    hide EventSpool.Store, Drain;
    if op.Submit? {
      AccessAppends(life.history, Event(life.db.next, op.s.kind, op.s.observedAt, op.s.payload));
    }
  }

  lemma InterruptKeeps(env: Env, s: State)
    requires Holds(env, s)
    ensures Holds(env, s.(phase := Resting))
  {
    hide Accounted;
    if Stored(s).Some? { PositionStays(env, s, Stored(s).value); }
  }

  lemma PositionStays(env: Env, s: State, cp: Checkpoint)
    requires Accounted(env, s, cp)
    ensures Accounted(env, s.(phase := Resting), cp)
  {
    hide Consumed, Events, Accesses, AnchorHolds, Trail;
  }

  lemma PassKeeps(env: Env, s: State, a: Action)
    requires s.files != [] && Holds(env, s) && (a.Poll? || a.Line? || a.Interrupt?)
    ensures Holds(env, Do(env, s, a))
  {
    hide Holds, BeginPoll, NextLine;
    if a.Poll? && s.phase.Resting? { PollKeeps(env, s); }
    if a.Line? && s.phase.Draining? { LineKeeps(env, s); }
    if a.Interrupt? { InterruptKeeps(env, s); }
  }

  lemma DoKeeps(env: Env, s: State, a: Action)
    requires s.files != [] && Holds(env, s)
    ensures Holds(env, Do(env, s, a))
  {
    hide Holds, Do;
    match a
    case Grow(bytes) => GrowKeeps(env, s, bytes);
    case Rotate => RotateKeeps(env, s);
    case Other(op) => OtherKeeps(env, s, op);
    case _ => PassKeeps(env, s, a);
  }

  // ---------------------------------------------------------------- every run

  function Run(env: Env, s: State, actions: seq<Action>): State
    requires s.files != []
    decreases |actions|
  {
    if actions == [] then s else Run(env, Do(env, s, actions[0]), actions[1..])
  }

  /** A new spool beside a log that may already hold anything. */
  function Start(randomId: string, log: seq<Byte>): State { State(Opened(randomId), [log], Resting, 0, []) }

  lemma {:induction false} RunKeeps(env: Env, s: State, actions: seq<Action>)
    requires s.files != [] && Holds(env, s)
    ensures Holds(env, Run(env, s, actions))
    decreases |actions|
  {
    hide Holds, Do;
    if actions != [] {
      DoKeeps(env, s, actions[0]);
      RunKeeps(env, Do(env, s, actions[0]), actions[1..]);
    }
  }

  /**
   * Exactly once: after any sequence of polls stopped anywhere, with the log growing and rotating
   * in between, a full spool and whatever else uses it, the access events ever accepted are the
   * events of the complete lines of the visited generations, from the first checkpoint to the
   * current position, in order; and the position is the first one, the start of a generation, or
   * just behind a newline.
   */
  lemma TailsExactlyOnce(env: Env, randomId: string, log: seq<Byte>, actions: seq<Action>)
    requires randomId != ""
    ensures var s := Run(env, Start(randomId, log), actions);
            match Stored(s)
            case None => Accesses(s.life.history) == []
            case Some(cp) =>
              && Located(s, cp)
              && Accesses(s.life.history) == Events(env, Consumed(s.files, s.first, s.visited, cp.offset))
              && ((|s.visited| == 1 && cp.offset == s.first) || cp.offset == 0 || s.files[cp.inode][cp.offset - 1] == NEWLINE)
  {
    hide Run, Events;
    var s0 := Start(randomId, log);
    assert Holds(env, s0) by { StartHolds(env, randomId, log); }
    RunKeeps(env, s0, actions);
    var s := Run(env, s0, actions);
    if Stored(s).Some? {
      var cp := Stored(s).value;
      if (|s.visited| > 1 || cp.offset != s.first) && cp.offset != 0 {
        EndsBehindNewline(s.files, s.first, s.visited, cp.offset);
      }
    }
  }

  lemma EndsBehindNewline(files: seq<seq<Byte>>, first: nat, visited: seq<nat>, offset: nat)
    requires Trail(files, first, visited, offset) && Whole(Consumed(files, first, visited, offset))
    requires (|visited| > 1 || offset != first) && offset != 0
    ensures files[visited[|visited| - 1]][offset - 1] == NEWLINE
  {
    var s := Consumed(files, first, visited, offset);
    assert s[|s| - 1] == files[visited[|visited| - 1]][offset - 1];
  }

  /**
   * In every run, polling never takes the log for a truncated one: the stored anchor matches however
   * far the file has grown. Another file of at least that length matches exactly when the digest of
   * its last bytes before the position is that of the log's.
   */
  lemma NeverMistakenForTruncated(env: Env, randomId: string, log: seq<Byte>, actions: seq<Action>, more: seq<Byte>, other: seq<Byte>)
    requires randomId != ""
    ensures var s := Run(env, Start(randomId, log), actions);
            Stored(s).Some? ==>
              var cp := Stored(s).value;
              && 0 <= cp.inode < |s.files|
              && cp.offset <= |s.files[cp.inode] + more| && AnchorMatches(env, cp, s.files[cp.inode] + more)
              && (cp.offset > 0 ==>
                    && 1 <= cp.offset - cp.anchorOffset <= ANCHOR_BYTES && 0 <= cp.anchorOffset && cp.offset <= |s.files[cp.inode]|
                    && (cp.anchorDigest != "" && cp.offset <= |other| ==>
                          (AnchorMatches(env, cp, other) <==>
                           env.sha(other[cp.anchorOffset..cp.offset]) == env.sha(s.files[cp.inode][cp.anchorOffset..cp.offset]))))
  {
    hide Run, Events, Consumed, Accesses;
    var s0 := Start(randomId, log);
    assert Holds(env, s0) by { StartHolds(env, randomId, log); }
    RunKeeps(env, s0, actions);
    var s := Run(env, s0, actions);
    if Stored(s).Some? { GrownFileMatches(env, Stored(s).value, s.files[Stored(s).value.inode], more); }
  }

  lemma StartHolds(env: Env, randomId: string, log: seq<Byte>)
    ensures Holds(env, Start(randomId, log))
  {
  }

  // ---------------------------------------------------------------- what rotations cost

  /** The log was rotated again before the collector had left an older generation. */
  predicate Untimely(s: State, a: Action) {
    && a.Rotate? && s.phase.Resting?
    && Stored(s).Some? && Stored(s).value.inode != |s.files| - 1
  }

  function UntimelyRotations(env: Env, s: State, actions: seq<Action>): nat
    requires s.files != []
    decreases |actions|
  {
    if actions == [] then 0
    else (if Untimely(s, actions[0]) then 1 else 0) + UntimelyRotations(env, Do(env, s, actions[0]), actions[1..])
  }

  /** Generations passed over between the first visited one and the current position. */
  function Skipped(visited: seq<nat>): int {
    if visited == [] then 0 else visited[|visited| - 1] - visited[0] + 1 - |visited|
  }

  /** Generations that lie between the position and the current file, all of which the next move passes over. */
  function AboutToSkip(s: State): int {
    match Stored(s)
    case None => 0
    case Some(cp) => if cp.inode == |s.files| - 1 then 0 else |s.files| - 2 - cp.inode
  }

  lemma StepCost(env: Env, s: State, a: Action)
    requires Holds(env, s) && (Stored(s).None? ==> s.visited == [])
    ensures var t := Do(env, s, a);
            && Skipped(t.visited) + AboutToSkip(t) == Skipped(s.visited) + AboutToSkip(s) + (if Untimely(s, a) then 1 else 0)
            && (Stored(t).None? ==> t.visited == [])
  {
    match a
    case Other(op) =>
      if Foreign(op) { ForeignOp(env, s.life, op); }
      hide EventSpool.Do, Consumed, Events, Accesses, AnchorHolds;
    case Poll =>
      if s.phase.Resting? { PollKeeps(env, s); PollSkipsNothing(env, s); }
      hide BeginPoll, Consumed, Events, Accesses, AnchorHolds;
    case Line =>
      if s.phase.Draining? { LineCost(env, s); }
      hide NextLine, Consumed, Events, Accesses, AnchorHolds;
    case _ => hide Consumed, Events, Accesses, AnchorHolds;
  }

  lemma PollSkipsNothing(env: Env, s: State)
    requires Holds(env, s) && s.phase.Resting? && (Stored(s).None? ==> s.visited == [])
    ensures var t := BeginPoll(env, s);
            && Stored(t).Some? && t.files == s.files
            && Skipped(t.visited) == Skipped(s.visited) && AboutToSkip(t) == AboutToSkip(s)
  {
    hide Consumed, Events, Accesses;
    if Stored(s).Some? {
      var cp := Stored(s).value;
      GrownFileMatches(env, cp, s.files[cp.inode], []);
      assert s.files[cp.inode] + [] == s.files[cp.inode];
    }
  }

  lemma LineCost(env: Env, s: State)
    requires Holds(env, s) && s.phase.Draining?
    ensures var t := NextLine(env, s);
            Stored(t).Some? && Skipped(t.visited) + AboutToSkip(t) == Skipped(s.visited) + AboutToSkip(s)
  {
    hide Consumed, Events, Accesses, AnchorHolds, DrainLine;
    CommitKeeps(env, s, s.phase.cp);
  }

  lemma {:induction false} RunCost(env: Env, s: State, actions: seq<Action>)
    requires s.files != [] && Holds(env, s) && (Stored(s).None? ==> s.visited == [])
    ensures var t := Run(env, s, actions);
            Skipped(t.visited) + AboutToSkip(t) == Skipped(s.visited) + AboutToSkip(s) + UntimelyRotations(env, s, actions)
    decreases |actions|
  {
    hide Holds, Do, Skipped, AboutToSkip, Untimely, Stored;
    if actions != [] {
      DoKeeps(env, s, actions[0]);
      StepCost(env, s, actions[0]);
      RunCost(env, Do(env, s, actions[0]), actions[1..]);
    }
  }

  /**
   * Each rotation that comes before the collector has left an older generation costs exactly one
   * generation, passed over already or at the next move; no other rotation costs anything.
   */
  lemma SkipsExactly(env: Env, randomId: string, log: seq<Byte>, actions: seq<Action>)
    requires randomId != ""
    ensures var s0 := Start(randomId, log);
            var s := Run(env, s0, actions);
            Skipped(s.visited) + AboutToSkip(s) == UntimelyRotations(env, s0, actions)
  {
    hide Run, Holds;
    StartHolds(env, randomId, log);
    assert Stored(Start(randomId, log)).None?;
    RunCost(env, Start(randomId, log), actions);
  }

  lemma {:induction false} IncreasingSpan(visited: seq<nat>, k: nat)
    requires k < |visited| && forall i, j :: 0 <= i < j < |visited| ==> visited[i] < visited[j]
    ensures visited[0] + k <= visited[k] && visited[k] + (|visited| - 1 - k) <= visited[|visited| - 1]
    decreases |visited|
  {
    var n := |visited| - 1;
    if k < n {
      IncreasingSpan(visited[..n], k);
    } else if k > 0 {
      IncreasingSpan(visited[..n], k - 1);
    }
  }

  /**
   * With a single rotation between the moves of the collector nothing is skipped: it visits every
   * generation from the first one on, and the position is at most one behind the current file.
   */
  lemma TimelyRotationsSkipNothing(env: Env, randomId: string, log: seq<Byte>, actions: seq<Action>, k: nat)
    requires randomId != "" && UntimelyRotations(env, Start(randomId, log), actions) == 0
    ensures var s := Run(env, Start(randomId, log), actions);
            && (k < |s.visited| ==> s.visited[k] == s.visited[0] + k)
            && (Stored(s).Some? ==> |s.files| - 2 <= Stored(s).value.inode < |s.files|)
  {
    hide Run, Consumed, Events, Accesses, AnchorHolds, UntimelyRotations;
    var s0 := Start(randomId, log);
    assert Holds(env, s0) by { StartHolds(env, randomId, log); }
    RunKeeps(env, s0, actions);
    SkipsExactly(env, randomId, log, actions);
    var s := Run(env, s0, actions);
    if Stored(s).Some? {
      IncreasingSpan(s.visited, 0);
      if k < |s.visited| { IncreasingSpan(s.visited, k); }
    } else {
      NothingVisited(env, s0, actions);
    }
  }

  lemma {:induction false} NothingVisited(env: Env, s: State, actions: seq<Action>)
    requires s.files != [] && Holds(env, s) && (Stored(s).None? ==> s.visited == [])
    ensures Stored(Run(env, s, actions)).None? ==> Run(env, s, actions).visited == []
    decreases |actions|
  {
    hide Holds, Do, Stored, Skipped, AboutToSkip, Untimely;
    if actions != [] {
      DoKeeps(env, s, actions[0]);
      StepCost(env, s, actions[0]);
      NothingVisited(env, Do(env, s, actions[0]), actions[1..]);
    }
  }

  /** Two rotations between two polls: a complete line is never read, although the file is still there. */
  lemma SkippedFile(env: Env, randomId: string, line: seq<Byte>)
    requires randomId != "" && IsLine(line)
    ensures exists actions ::
              var s := Run(env, Start(randomId, []), actions);
              s.files == [[], line, []] && s.visited == [0, 2] && Accesses(s.life.history) == []
              && Stored(s) == Some(NewCheckpoint(2))
  {
    var s0 := Start(randomId, []);
    var s1 := Save(s0, NewCheckpoint(0)).(first := 0, visited := [0]);
    assert Do(env, s0, Poll) == s1;
    var s2 := s1.(files := [[], []]);
    assert Do(env, s1, Rotate) == s2;
    var s3 := s1.(files := [[], line]);
    assert s2.files[1] + line == line;
    assert Do(env, s2, Grow(line)) == s3;
    var s4 := s1.(files := [[], line, []]);
    assert Do(env, s3, Rotate) == s4;
    var s5 := s4.(phase := Draining(0, NewCheckpoint(0), Some(2)));
    assert Do(env, s4, Poll) == s5;
    var s6 := MoveTo(s5, 2);
    assert Do(env, s5, Line) == s6;
    RunSix(env, s0, [Poll, Rotate, Grow(line), Rotate, Poll, Line]);
    assert Run(env, s0, [Poll, Rotate, Grow(line), Rotate, Poll, Line]) == s6;
  }

  lemma RunSix(env: Env, s: State, a: seq<Action>)
    requires s.files != [] && |a| == 6
    ensures Run(env, s, a) == Do(env, Do(env, Do(env, Do(env, Do(env, Do(env, s, a[0]), a[1]), a[2]), a[3]), a[4]), a[5])
  {
    hide Do;
    var s1 := Do(env, s, a[0]);
    var s2 := Do(env, s1, a[1]);
    var s3 := Do(env, s2, a[2]);
    var s4 := Do(env, s3, a[3]);
    var s5 := Do(env, s4, a[4]);
    assert a[1..][1..] == a[2..] && a[2..][1..] == a[3..] && a[3..][1..] == a[4..] && a[4..][1..] == a[5..];
    assert a[5..][1..] == [];
    var s6 := Do(env, s5, a[5]);
    assert Run(env, s6, []) == s6;
    assert Run(env, s5, a[5..]) == Run(env, s6, []);
    assert Run(env, s4, a[4..]) == Run(env, s5, a[5..]);
    assert Run(env, s3, a[3..]) == Run(env, s4, a[4..]);
    assert Run(env, s2, a[2..]) == Run(env, s3, a[3..]);
    assert Run(env, s1, a[1..]) == Run(env, s2, a[2..]);
  }

  // ---------------------------------------------------------------- where progress ends

  /** A poll that reads one line of the rotated file. */
  function PollOnce(env: Env, s: State): State
    requires s.files != []
  {
    Do(env, Do(env, s, Poll), Line)
  }

  /**
   * A rotated file is left behind exactly when it was read to its end. If it ends in an
   * unfinished line, which nobody will ever finish, each poll changes nothing and the current
   * file is never looked at.
   */
  lemma LeavesRotatedFileIffDrained(env: Env, s: State, cp: Checkpoint)
    requires Holds(env, s) && Stored(s) == Some(cp) && s.phase.Resting? && cp.inode < |s.files| - 1
    requires NEWLINE !in s.files[cp.inode][cp.offset..]
    ensures var rest := s.files[cp.inode][cp.offset..];
            && (rest != [] <==> PollOnce(env, s) == s)
            && (rest == [] <==> Stored(PollOnce(env, s)) == Some(NewCheckpoint(|s.files| - 1)))
  {
    hide Consumed, Events, Accesses;
    var rest := s.files[cp.inode][cp.offset..];
    FirstLineRunsOut(rest);
    GrownFileMatches(env, cp, s.files[cp.inode], []);
    assert s.files[cp.inode] + [] == s.files[cp.inode];
  }
}
