/**
 * internal/telemetry/xray.go: traffic counters become monotone streams by splitting them into
 * epochs. A snapshot and the counters it was computed from are stored in one transaction.
 */
module Traffic {
  import opened Common
  import opened EventSpool
  import EventStore

  datatype Pair = Pair(up: nat, down: nat)

  datatype Usage = Usage(up: nat, down: nat, epoch: nat)

  datatype Snapshot = Snapshot(runtimeId: string, users: map<string, Usage>)

  /** The epoch of a reading: a counter that went down within one runtime starts a new one. */
  function Epoch(counters: map<string, Counter>, runtimeId: string, email: string, current: Pair): nat {
    if email in counters && counters[email].runtimeId == runtimeId then
      var last := counters[email];
      if current.up < last.up || current.down < last.down then last.epoch + 1 else last.epoch
    else 0
  }

  function UsageOf(counters: map<string, Counter>, runtimeId: string, email: string, current: Pair): Usage {
    Usage(current.up, current.down, Epoch(counters, runtimeId, email, current))
  }

  function Measure(counters: map<string, Counter>, runtimeId: string, current: map<string, Pair>): Snapshot {
    Snapshot(runtimeId, map email | email in current :: UsageOf(counters, runtimeId, email, current[email]))
  }

  function Remember(s: Snapshot): map<string, Counter> {
    map email | email in s.users :: Counter(s.runtimeId, s.users[email].up, s.users[email].down, s.users[email].epoch)
  }

  /** The loop over the parsed statistics. */
  method MeasureAll(counters: map<string, Counter>, runtimeId: string, current: map<string, Pair>)
    returns (snapshot: Snapshot, stored: map<string, Counter>)
    ensures snapshot == Measure(counters, runtimeId, current)
    ensures stored == Remember(snapshot)
  {
    var users: map<string, Usage> := map[];
    stored := map[];
    var todo := current.Keys;
    while todo != {}
      invariant todo <= current.Keys
      invariant users == map e | e in current.Keys - todo :: UsageOf(counters, runtimeId, e, current[e])
      invariant stored == Remember(Snapshot(runtimeId, users))
      decreases |todo|
    {
      var email :| email in todo;
      todo := todo - {email};
      var values := current[email];
      var epoch := 0;
      if email in counters && counters[email].runtimeId == runtimeId {
        epoch := counters[email].epoch;
        if values.up < counters[email].up || values.down < counters[email].down {
          epoch := epoch + 1;
        }
      }
      users := users[email := Usage(values.up, values.down, epoch)];
      stored := stored[email := Counter(runtimeId, values.up, values.down, epoch)];
    }
    snapshot := Snapshot(runtimeId, users);
  }

  /** A snapshot has the users of the reading, with the counters that were read; what is remembered for next time are these too. */
  lemma SnapshotIsTheReading(counters: map<string, Counter>, runtimeId: string, current: map<string, Pair>, email: string)
    ensures var snapshot := Measure(counters, runtimeId, current);
            var stored := Remember(snapshot);
            && snapshot.runtimeId == runtimeId
            && (email in snapshot.users <==> email in current) && (email in stored <==> email in current)
            && (email in current ==>
                  && snapshot.users[email].up == current[email].up && snapshot.users[email].down == current[email].down
                  && stored[email].runtimeId == runtimeId && stored[email].epoch == snapshot.users[email].epoch
                  && stored[email].up == current[email].up && stored[email].down == current[email].down)
  {
    hide Epoch;
  }

  // ---------------------------------------------------------------- the stream of stored snapshots

  /** `render`: the JSON of a snapshot. */
  datatype Env = Env(limits: Limits, codec: Codec, render: Snapshot -> string)

  datatype State = State(life: Life, stream: seq<Snapshot>)

  datatype Action =
    | Collect(runtimeId: string, current: map<string, Pair>, observedAt: int)
    | Other(op: Op)

  /** Only the collector submits traffic snapshots and writes counters. */
  predicate Foreign(op: Op) {
    op.Submit? ==> !op.s.kind.TrafficSnapshot? && !op.s.effect.SetCounters?
  }

  /** A runtime id is the running one's, or it was never seen; `recur` lifts that. */
  predicate MayRun(stream: seq<Snapshot>, runtimeId: string, recur: bool) {
    || recur || stream == [] || stream[|stream| - 1].runtimeId == runtimeId
    || forall k :: 0 <= k < |stream| ==> stream[k].runtimeId != runtimeId
  }

  function CollectTraffic(env: Env, s: State, runtimeId: string, current: map<string, Pair>, observedAt: int): State {
    var snapshot := Measure(s.life.db.counters, runtimeId, current);
    var submission := Submission(TrafficSnapshot, observedAt, env.render(snapshot), SetCounters(Remember(snapshot)));
    match Enqueue(s.life.db, env.limits, env.codec, submission)
    case Failure(_) => s
    case Success((db, e)) => State(Life(db, s.life.history + [e]), s.stream + [snapshot])
  }

  function Do(env: Env, s: State, recur: bool, a: Action): State {
    match a
    case Collect(runtimeId, current, observedAt) =>
      if MayRun(s.stream, runtimeId, recur) then CollectTraffic(env, s, runtimeId, current, observedAt) else s
    case Other(op) => if Foreign(op) then s.(life := EventSpool.Do(s.life, env.limits, env.codec, op)) else s
  }

  function Run(env: Env, s: State, recur: bool, actions: seq<Action>): State
    decreases |actions|
  {
    if actions == [] then s else Run(env, Do(env, s, recur, actions[0]), recur, actions[1..])
  }

  function Start(randomId: string): State { State(Opened(randomId), []) }

  // ---------------------------------------------------------------- monotone streams

  predicate Follows(a: Usage, b: Usage) {
    a.epoch <= b.epoch && (a.epoch == b.epoch ==> a.up <= b.up && a.down <= b.down)
  }

  /** Snapshots `i` and `j` of one runtime both report the user. */
  predicate Both(stream: seq<Snapshot>, email: string, i: int, j: int) {
    0 <= i < j < |stream| && stream[i].runtimeId == stream[j].runtimeId && email in stream[i].users && email in stream[j].users
  }

  /** Epochs never fall, and within an epoch neither counter does. */
  ghost predicate Monotone(stream: seq<Snapshot>) {
    forall email, i, j :: Both(stream, email, i, j) ==> Follows(stream[i].users[email], stream[j].users[email])
  }

  /** The epoch of report `b` after report `a`: the next one if a counter fell, and otherwise the same. */
  predicate NextEpoch(a: Usage, b: Usage) {
    b.epoch == a.epoch + if b.up < a.up || b.down < a.down then 1 else 0
  }

  /** From one report of a user to the next the epoch rises by one exactly when a counter fell. */
  ghost predicate Gradual(stream: seq<Snapshot>) {
    forall email, i, j :: Both(stream, email, i, j) && (forall k :: i < k < j ==> !Both(stream, email, k, j)) ==>
      NextEpoch(stream[i].users[email], stream[j].users[email])
  }

  predicate Reports(stream: seq<Snapshot>, email: string, j: int) { 0 <= j < |stream| && email in stream[j].users }

  /** The first report of a user in a runtime is epoch 0. */
  ghost predicate FromZero(stream: seq<Snapshot>) {
    forall email, j :: Reports(stream, email, j) && (forall i :: !Both(stream, email, i, j)) ==> stream[j].users[email].epoch == 0
  }

  /** Snapshots of one runtime follow each other without another runtime between them. */
  predicate Contiguous(stream: seq<Snapshot>) {
    forall i, k, j :: 0 <= i < k < j < |stream| && stream[i].runtimeId == stream[j].runtimeId ==> stream[k].runtimeId == stream[i].runtimeId
  }

  /** `k` is the last snapshot that reports the user. */
  predicate LastReport(stream: seq<Snapshot>, email: string, k: int) {
    0 <= k < |stream| && email in stream[k].users && forall m :: k < m < |stream| ==> email !in stream[m].users
  }

  /** A stored counter is the last report of its user. */
  ghost predicate Remembered(counters: map<string, Counter>, stream: seq<Snapshot>) {
    && (forall k, email :: 0 <= k < |stream| && email in stream[k].users ==> email in counters)
    && (forall email :: email in counters ==>
          exists k :: LastReport(stream, email, k) &&
                      counters[email] == Remember(stream[k])[email])
  }

  /** The traffic events of the spool are the stream, rendered. */
  ghost function Payloads(history: seq<Event>): seq<string> {
    if history == [] then []
    else
      var e := history[|history| - 1];
      Payloads(history[..|history| - 1]) + if e.kind.TrafficSnapshot? then [e.payload] else []
  }

  function Rendered(env: Env, stream: seq<Snapshot>): seq<string> {
    seq(|stream|, i requires 0 <= i < |stream| => env.render(stream[i]))
  }

  /** Kept by every run, runtime ids coming back or not. */
  ghost predicate Holds(env: Env, s: State) {
    && Remembered(s.life.db.counters, s.stream)
    && FromZero(s.stream)
    && (Contiguous(s.stream) ==> Monotone(s.stream) && Gradual(s.stream))
    && Payloads(s.life.history) == Rendered(env, s.stream)
  }

  // ---------------------------------------------------------------- one more snapshot

  lemma RememberedGrows(counters: map<string, Counter>, stream: seq<Snapshot>, s: Snapshot)
    requires Remembered(counters, stream)
    ensures Remembered(counters + Remember(s), stream + [s])
  {
    var after, n := stream + [s], |stream|;
    forall email | email in counters + Remember(s)
      ensures exists k :: LastReport(after, email, k) && (counters + Remember(s))[email] == Remember(after[k])[email]
    {
      if email in s.users {
        assert LastReport(after, email, n) && after[n] == s;
      } else {
        var k :| LastReport(stream, email, k) && counters[email] == Remember(stream[k])[email];
        assert LastReport(after, email, k) && after[k] == stream[k];
      }
    }
  }

  lemma ContiguousGrows(stream: seq<Snapshot>, s: Snapshot)
    requires Contiguous(stream) && MayRun(stream, s.runtimeId, false)
    ensures Contiguous(stream + [s])
  {
  }

  /** The new report of a user follows the last one of the same runtime. */
  lemma FollowsLast(counters: map<string, Counter>, stream: seq<Snapshot>, runtimeId: string, current: map<string, Pair>, email: string, k: int)
    requires LastReport(stream, email, k) && stream[k].runtimeId == runtimeId && email in current
    requires email in counters && counters[email] == Remember(stream[k])[email]
    ensures var a, b := stream[k].users[email], Measure(counters, runtimeId, current).users[email];
            Follows(a, b) && NextEpoch(a, b)
  {
  }

  /** What the two reports must satisfy; the second part speaks of a report and the next one. */
  ghost predicate Steady(stream: seq<Snapshot>, email: string, i: int, j: int)
    requires Both(stream, email, i, j)
  {
    var a, b := stream[i].users[email], stream[j].users[email];
    Follows(a, b) && ((forall k :: i < k < j ==> !Both(stream, email, k, j)) ==> NextEpoch(a, b))
  }

  lemma AllSteady(stream: seq<Snapshot>)
    requires forall email, i, j :: Both(stream, email, i, j) ==> Steady(stream, email, i, j)
    ensures Monotone(stream) && Gradual(stream)
  {
    hide Both, Follows, NextEpoch;
  }

  lemma OldReport(stream: seq<Snapshot>, after: seq<Snapshot>, email: string, i: int, j: int)
    requires Monotone(stream) && Gradual(stream) && stream <= after && j < |stream| && Both(after, email, i, j)
    ensures Steady(after, email, i, j)
  {
    assert Both(stream, email, i, j);
    assert forall k :: i < k < j ==> Both(stream, email, k, j) == Both(after, email, k, j);
  }

  /** A new report that follows the last one of its user is steady with all earlier ones. */
  lemma NewReport(after: seq<Snapshot>, n: nat, email: string, i: int, k: int)
    requires |after| == n + 1 && Contiguous(after) && Monotone(after[..n])
    requires Both(after, email, i, n) && LastReport(after[..n], email, k)
    requires after[k].runtimeId == after[n].runtimeId ==>
               Follows(after[k].users[email], after[n].users[email]) && NextEpoch(after[k].users[email], after[n].users[email])
    ensures Steady(after, email, i, n)
  {
    var stream := after[..n];
    assert email in stream[i].users;
    assert k >= i;
    assert after[k].runtimeId == after[n].runtimeId;
    if i < k {
      assert Both(stream, email, i, k);
      assert Both(after, email, k, n);
    }
  }

  lemma LastOf(counters: map<string, Counter>, stream: seq<Snapshot>, email: string, i: int) returns (k: int)
    requires Remembered(counters, stream) && 0 <= i < |stream| && email in stream[i].users
    ensures LastReport(stream, email, k) && email in counters && counters[email] == Remember(stream[k])[email]
  {
    k :| LastReport(stream, email, k) && counters[email] == Remember(stream[k])[email];
  }

  lemma ReportsGrow(counters: map<string, Counter>, stream: seq<Snapshot>, runtimeId: string, current: map<string, Pair>)
    requires Remembered(counters, stream) && Monotone(stream) && Gradual(stream)
    requires Contiguous(stream + [Measure(counters, runtimeId, current)])
    ensures var after := stream + [Measure(counters, runtimeId, current)];
            Monotone(after) && Gradual(after)
  {
    assert Measure(counters, runtimeId, current).runtimeId == runtimeId && Measure(counters, runtimeId, current).users.Keys == current.Keys;
    hide Measure, Remembered, Contiguous, Monotone, Gradual, Steady, Remember, Follows, NextEpoch;
    var after, n := stream + [Measure(counters, runtimeId, current)], |stream|;
    assert after[..n] == stream;
    forall email, i, j | Both(after, email, i, j) ensures Steady(after, email, i, j) {
      if j < n {
        OldReport(stream, after, email, i, j);
      } else {
        var k := LastOf(counters, stream, email, i);
        if stream[k].runtimeId == runtimeId { FollowsLast(counters, stream, runtimeId, current, email, k); }
        NewReport(after, n, email, i, k);
      }
    }
    AllSteady(after);
  }

  /** A user whom this runtime never reported starts at epoch 0. */
  lemma ZeroGrows(counters: map<string, Counter>, stream: seq<Snapshot>, runtimeId: string, current: map<string, Pair>)
    requires Remembered(counters, stream) && FromZero(stream)
    ensures FromZero(stream + [Measure(counters, runtimeId, current)])
  {
    hide Remembered, FromZero;
    var after, n := stream + [Measure(counters, runtimeId, current)], |stream|;
    forall email, j | Reports(after, email, j) && forall i :: !Both(after, email, i, j) ensures after[j].users[email].epoch == 0 {
      if j < n {
        OldZero(stream, after, email, j);
      } else {
        NewZero(counters, stream, runtimeId, current, email);
      }
    }
    AllZero(after);
  }

  lemma AllZero(stream: seq<Snapshot>)
    requires forall email, j :: Reports(stream, email, j) && (forall i :: !Both(stream, email, i, j)) ==> stream[j].users[email].epoch == 0
    ensures FromZero(stream)
  {
  }

  lemma OldZero(stream: seq<Snapshot>, after: seq<Snapshot>, email: string, j: int)
    requires FromZero(stream) && stream <= after && j < |stream| && Reports(after, email, j) && forall i :: !Both(after, email, i, j)
    ensures after[j].users[email].epoch == 0
  {
    assert Reports(stream, email, j);
    assert forall i :: Both(stream, email, i, j) == Both(after, email, i, j);
  }

  lemma NewZero(counters: map<string, Counter>, stream: seq<Snapshot>, runtimeId: string, current: map<string, Pair>, email: string)
    requires Remembered(counters, stream) && email in current
    requires var after := stream + [Measure(counters, runtimeId, current)];
             forall i :: !Both(after, email, i, |stream|)
    ensures Measure(counters, runtimeId, current).users[email].epoch == 0
  {
    var after := stream + [Measure(counters, runtimeId, current)];
    if email in counters && counters[email].runtimeId == runtimeId {
      var k :| LastReport(stream, email, k) && counters[email] == Remember(stream[k])[email];
      assert Both(after, email, k, |stream|);
    }
  }

  lemma PayloadAppends(history: seq<Event>, e: Event)
    ensures Payloads(history + [e]) == Payloads(history) + if e.kind.TrafficSnapshot? then [e.payload] else []
  {
    assert (history + [e])[..|history|] == history;
  }

  // ---------------------------------------------------------------- every run

  /** A snapshot is stored with its counters or not at all. */
  lemma CollectStores(env: Env, s: State, runtimeId: string, current: map<string, Pair>, observedAt: int)
    ensures var after := CollectTraffic(env, s, runtimeId, current, observedAt);
            var snapshot := Measure(s.life.db.counters, runtimeId, current);
            || after == s
            || (&& after.stream == s.stream + [snapshot] && after.life.db.counters == s.life.db.counters + Remember(snapshot)
                && Payloads(after.life.history) == Payloads(s.life.history) + [env.render(snapshot)])
  {
    hide Measure, Remember, EventSpool.Store;
    var snapshot := Measure(s.life.db.counters, runtimeId, current);
    PayloadAppends(s.life.history, Event(s.life.db.next, TrafficSnapshot, observedAt, env.render(snapshot)));
  }

  lemma ContiguousShrinks(stream: seq<Snapshot>, s: Snapshot)
    requires Contiguous(stream + [s])
    ensures Contiguous(stream)
  {
    assert forall k :: 0 <= k < |stream| ==> (stream + [s])[k] == stream[k];
  }

  lemma CollectKeeps(env: Env, s: State, runtimeId: string, current: map<string, Pair>, observedAt: int)
    requires Holds(env, s)
    ensures Holds(env, CollectTraffic(env, s, runtimeId, current, observedAt))
  {
    hide Remembered, Contiguous, Monotone, Gradual, FromZero, Payloads, CollectTraffic, Remember;
    CollectStores(env, s, runtimeId, current, observedAt);
    var after := CollectTraffic(env, s, runtimeId, current, observedAt);
    if after != s {
      var snapshot := Measure(s.life.db.counters, runtimeId, current);
      RememberedGrows(s.life.db.counters, s.stream, snapshot);
      ZeroGrows(s.life.db.counters, s.stream, runtimeId, current);
      if Contiguous(s.stream + [snapshot]) {
        ContiguousShrinks(s.stream, snapshot);
        ReportsGrow(s.life.db.counters, s.stream, runtimeId, current);
      }
      assert Rendered(env, s.stream + [snapshot]) == Rendered(env, s.stream) + [env.render(snapshot)];
    }
  }

  lemma ForeignOp(env: Env, life: Life, op: Op)
    requires Foreign(op)
    ensures var after := EventSpool.Do(life, env.limits, env.codec, op);
            after.db.counters == life.db.counters && Payloads(after.history) == Payloads(life.history)
  {
    hide EventSpool.Store, Drain, Payloads;
    if op.Submit? {
      PayloadAppends(life.history, Event(life.db.next, op.s.kind, op.s.observedAt, op.s.payload));
    }
  }

  lemma OtherKeeps(env: Env, s: State, op: Op)
    requires Holds(env, s) && Foreign(op)
    ensures Holds(env, s.(life := EventSpool.Do(s.life, env.limits, env.codec, op)))
  {
    hide Remembered, Contiguous, Monotone, Gradual, FromZero, Rendered, Payloads, EventSpool.Do;
    ForeignOp(env, s.life, op);
  }

  lemma DoKeeps(env: Env, s: State, recur: bool, a: Action)
    requires Holds(env, s)
    ensures Holds(env, Do(env, s, recur, a))
  {
    hide Holds, CollectTraffic, EventSpool.Do, MayRun;
    match a
    case Collect(runtimeId, current, observedAt) => CollectKeeps(env, s, runtimeId, current, observedAt);
    case Other(op) => if Foreign(op) { OtherKeeps(env, s, op); }
  }

  lemma {:induction false} RunKeeps(env: Env, s: State, recur: bool, actions: seq<Action>)
    requires Holds(env, s)
    ensures Holds(env, Run(env, s, recur, actions))
    decreases |actions|
  {
    hide Holds, Do;
    if actions != [] {
      DoKeeps(env, s, recur, actions[0]);
      RunKeeps(env, Do(env, s, recur, actions[0]), recur, actions[1..]);
    }
  }

  /**
   * Of any one run: the stored snapshots are what the spool accepted, and if no runtime id came
   * back in them after another one, they are monotone per user and runtime.
   */
  lemma ContiguousIsMonotone(env: Env, randomId: string, recur: bool, actions: seq<Action>)
    ensures var s := Run(env, Start(randomId), recur, actions);
            && Payloads(s.life.history) == Rendered(env, s.stream) && FromZero(s.stream)
            && (Contiguous(s.stream) ==> Monotone(s.stream) && Gradual(s.stream))
  {
    hide Run, Contiguous, Monotone, Gradual, FromZero, Payloads, Rendered;
    assert Holds(env, Start(randomId)) by { StartHolds(env, randomId); }
    RunKeeps(env, Start(randomId), recur, actions);
  }

  lemma {:induction false} RunContiguous(env: Env, s: State, actions: seq<Action>)
    requires Contiguous(s.stream)
    ensures Contiguous(Run(env, s, false, actions).stream)
    decreases |actions|
  {
    hide Contiguous, EventSpool.Do, CollectTraffic, MayRun;
    if actions != [] {
      var a := actions[0];
      if a.Collect? {
        var snapshot := Measure(s.life.db.counters, a.runtimeId, a.current);
        CollectStores(env, s, a.runtimeId, a.current, a.observedAt);
        if MayRun(s.stream, a.runtimeId, false) { ContiguousGrows(s.stream, snapshot); }
      }
      RunContiguous(env, Do(env, s, false, a), actions[1..]);
    }
  }

  /** When no runtime id comes back, the stored snapshots are monotone in every run. */
  lemma StreamIsMonotone(env: Env, randomId: string, actions: seq<Action>)
    ensures var s := Run(env, Start(randomId), false, actions);
            Monotone(s.stream) && Gradual(s.stream) && FromZero(s.stream) && Payloads(s.life.history) == Rendered(env, s.stream)
  {
    hide Run, Contiguous, Monotone, Gradual, FromZero, Payloads, Rendered;
    ContiguousIsMonotone(env, randomId, false, actions);
    assert Contiguous(Start(randomId).stream) by { NothingIsContiguous(); }
    RunContiguous(env, Start(randomId), actions);
  }

  lemma NothingIsContiguous()
    ensures Contiguous([])
  {
  }

  lemma StartHolds(env: Env, randomId: string)
    ensures Holds(env, Start(randomId))
  {
  }

  /** The collector itself: measure against the stored counters, then store snapshot and counters together. */
  method CollectInto(env: Env, store: EventStore.Store, runtimeId: string, current: map<string, Pair>, observedAt: int, ghost stream: seq<Snapshot>)
    returns (stored: bool)
    requires store.Valid() && store.limits == env.limits && store.codec == env.codec
    modifies store
    ensures store.Valid()
    ensures var before := State(Life(old(store.Content()), old(store.history)), stream);
            Life(store.Content(), store.history) == CollectTraffic(env, before, runtimeId, current, observedAt).life
  {
    hide EventStore.Store.Valid, Enqueue, Measure, Remember;
    var snapshot, counters := MeasureAll(store.counters, runtimeId, current);
    var r := store.Enqueue(Submission(TrafficSnapshot, observedAt, env.render(snapshot), SetCounters(counters)));
    stored := r.Success?;
  }

  // ---------------------------------------------------------------- when a runtime id comes back

  /** A spool with room for everything; the encoding does not matter here. */
  const ROOMY := Env(Limits(10, 10), Codec(_ => "", _ => None), _ => "{}")

  predicate Roomy(s: State) { s.life.db.pendingBytes == 0 && s.life.db.pendingEvents < 10 }

  /** One user's reading, stored. */
  lemma RoomyStores(s: State, runtimeId: string, up: nat) returns (usage: Usage, after: State)
    requires Roomy(s) && s.life.db.pendingEvents < 9
    ensures usage == UsageOf(s.life.db.counters, runtimeId, "u", Pair(up, 0))
    ensures after == CollectTraffic(ROOMY, s, runtimeId, map["u" := Pair(up, 0)], 1)
    ensures Roomy(after) && after.life.db.pendingEvents == s.life.db.pendingEvents + 1
    ensures |after.stream| == |s.stream| + 1 && after.stream[..|s.stream|] == s.stream
    ensures var last := after.stream[|s.stream|];
            last.runtimeId == runtimeId && "u" in last.users && last.users["u"] == usage
    ensures "u" in after.life.db.counters && after.life.db.counters["u"] == Counter(runtimeId, up, 0, usage.epoch)
  {
    hide EventSpool.Store;
    usage := UsageOf(s.life.db.counters, runtimeId, "u", Pair(up, 0));
    after := CollectTraffic(ROOMY, s, runtimeId, map["u" := Pair(up, 0)], 1);
  }

  /** The counter of a runtime dips, another runtime follows, and the first id comes back: its epoch starts over. */
  lemma RecurrenceBreaks()
    ensures exists actions :: !Monotone(Run(ROOMY, Start("s"), true, actions).stream)
  {
    hide CollectTraffic;
    var s0 := Start("s");
    var u1, s1 := RoomyStores(s0, "1", 1);
    var u2, s2 := RoomyStores(s1, "1", 0);
    var u3, s3 := RoomyStores(s2, "2", 0);
    var u4, s4 := RoomyStores(s3, "1", 0);
    assert u2.epoch == u1.epoch + 1 && u4.epoch == 0;
    assert s4.stream[1] == s3.stream[1] == s2.stream[1];
    assert Both(s4.stream, "u", 1, 3) && !Follows(s4.stream[1].users["u"], s4.stream[3].users["u"]);
    var one, zero := map["u" := Pair(1, 0)], map["u" := Pair(0, 0)];
    var a, b, c, d := Collect("1", one, 1), Collect("1", zero, 1), Collect("2", zero, 1), Collect("1", zero, 1);
    RunFour(ROOMY, s0, a, b, c, d);
    assert Run(ROOMY, s0, true, [a, b, c, d]) == s4;
  }

  lemma RunFour(env: Env, s: State, a: Action, b: Action, c: Action, d: Action)
    ensures Run(env, s, true, [a, b, c, d]) == Do(env, Do(env, Do(env, Do(env, s, true, a), true, b), true, c), true, d)
  {
    hide Do;
    assert [a, b, c, d][1..] == [b, c, d] && [b, c, d][1..] == [c, d] && [c, d][1..] == [d] && [d][1..] == [];
    var s3 := Do(env, Do(env, Do(env, s, true, a), true, b), true, c);
    assert Run(env, s3, true, [d]) == Run(env, Do(env, s3, true, d), true, []);
    assert Run(env, Do(env, Do(env, s, true, a), true, b), true, [c, d]) == Run(env, s3, true, [d]);
  }

  ghost predicate AlwaysMonotone(recur: bool) {
    forall env, randomId, actions :: Monotone(Run(env, Start(randomId), recur, actions).stream)
  }

  /** Streams are monotone in every run exactly when no runtime id comes back after another one. */
  lemma MonotoneUnlessRecurrence(recur: bool)
    ensures AlwaysMonotone(recur) <==> !recur
  {
    hide Run, Monotone;
    if recur {
      RecurrenceBreaks();
      var actions :| !Monotone(Run(ROOMY, Start("s"), true, actions).stream);
      assert !Monotone(Run(ROOMY, Start("s"), recur, actions).stream);
    } else {
      forall env, randomId, actions ensures Monotone(Run(env, Start(randomId), recur, actions).stream) {
        StreamIsMonotone(env, randomId, actions);
      }
    }
  }
}
