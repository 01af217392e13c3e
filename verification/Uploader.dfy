/**
 * internal/telemetry/uploader.go: batches leave the spool, cross a lossy network and are deleted
 * once the center acknowledged them, while other goroutines keep enqueueing.
 */
module Uploader {
  import opened Common
  import opened EventSpool
  import EventStore

  const UPLOAD_BYTES: nat := 524288
  const VERSION := "1"

  datatype Ack = Ack(version: string, streamId: string, highest: nat)

  datatype UploadError = ContractMismatch | BelowFirst | BeyondLast | Spool(error: Error) | Undecodable | Unavailable

  /** An acknowledgement counts only if it ends inside the uploaded batch. */
  function Check(batch: Batch, ack: Ack): Option<UploadError> {
    if ack.version != VERSION || ack.streamId != batch.streamId then Some(ContractMismatch)
    else if ack.highest < batch.first then Some(BelowFirst)
    else if ack.highest > batch.last then Some(BeyondLast)
    else None
  }

  function Settle(db: Db, batch: Batch, ack: Ack, now: int): Outcome<Db> {
    if Check(batch, ack).Some? then Failure(StreamMismatch) else Acknowledge(db, ack.streamId, ack.highest, now)
  }

  // ---------------------------------------------------------------- spool, network and center

  /** What the uploader waits for. */
  datatype Phase = Resting | Waiting(batch: Batch) | Answered(batch: Batch, ack: Ack)

  /** `sent` holds every request ever sent: it may arrive late, twice or never. */
  datatype State = State(life: Life, center: map<nat, Event>, sent: seq<Batch>, phase: Phase)

  datatype Action =
    | Submitted(s: Submission)                 // any goroutine, at any time
    | TakeAndSend
    | Arrive(k: nat, keep: set<nat>)           // the center stores some of a request's events
    | Reply(highest: nat)
    | GiveUp                                   // lost request, lost reply, or an agent restart
    | Accept(now: int)
    | Restart(randomId: string)

  predicate Contiguous(center: map<nat, Event>, n: nat) {
    forall i :: 1 <= i <= n ==> i in center
  }

  /** What a request adds to the center. */
  function Stored(center: map<nat, Event>, events: seq<Event>, keep: set<nat>): map<nat, Event>
    decreases |events|
  {
    if events == [] then center
    else
      var e := events[0];
      Stored(if e.sequence in keep then center[e.sequence := e] else center, events[1..], keep)
  }

  function Do(s: State, limits: Limits, codec: Codec, a: Action): State {
    match a
    case Submitted(submission) => s.(life := EventSpool.Do(s.life, limits, codec, Submit(submission)))
    case TakeAndSend =>
      if !s.phase.Resting? then s
      else
        (match TakeBatch(s.life.db, codec, MAX_BATCH_EVENTS, UPLOAD_BYTES)
         case None => s
         case Some(b) => if b.events == [] then s else s.(sent := s.sent + [b], phase := Waiting(b)))
    case Arrive(k, keep) =>
      if k < |s.sent| then s.(center := Stored(s.center, s.sent[k].events, keep)) else s
    case Reply(highest) =>
      if s.phase.Waiting? && Contiguous(s.center, highest) && highest + 1 !in s.center then
        s.(phase := Answered(s.phase.batch, Ack(VERSION, s.phase.batch.streamId, highest)))
      else s
    case GiveUp => s.(phase := Resting)
    case Accept(now) =>
      if !s.phase.Answered? then s
      else
        (match Settle(s.life.db, s.phase.batch, s.phase.ack, now)
         case Failure(_) => s.(phase := Resting)
         case Success(db) => s.(life := s.life.(db := db), phase := Resting))
    case Restart(randomId) => s.(life := EventSpool.Do(s.life, limits, codec, Reopen(randomId)), phase := Resting)
  }

  function Run(s: State, limits: Limits, codec: Codec, actions: seq<Action>): State
    decreases |actions|
  {
    if actions == [] then s else Run(Do(s, limits, codec, actions[0]), limits, codec, actions[1..])
  }

  function Start(randomId: string): State { State(Opened(randomId), map[], [], Resting) }

  // ---------------------------------------------------------------- what every step keeps

  /** The batch is a stretch of the accepted events. */
  predicate FromHistory(b: Batch, history: seq<Event>) {
    && 1 <= b.first <= b.last <= |history| && b.events == history[b.first - 1..b.last]
  }

  ghost predicate CenterHolds(center: map<nat, Event>, history: seq<Event>) {
    forall i :: i in center ==> 1 <= i <= |history| && center[i] == history[i - 1]
  }

  /** The batch in flight still begins at the head of the queue. */
  predicate InFlight(b: Batch, s: State) {
    FromHistory(b, s.life.history) && b.first == s.life.db.acked + 1
  }

  ghost predicate Holds(s: State, limits: Limits, codec: Codec) {
    && Invariant(s.life.db, limits, codec, s.life.history)
    && CenterHolds(s.center, s.life.history) && Contiguous(s.center, s.life.db.acked)
    && (forall k :: 0 <= k < |s.sent| ==> FromHistory(s.sent[k], s.life.history))
    && match s.phase
       case Resting => true
       case Waiting(b) => InFlight(b, s)
       case Answered(b, ack) => InFlight(b, s) && Contiguous(s.center, ack.highest)
  }

  lemma {:induction false} StoredHolds(center: map<nat, Event>, events: seq<Event>, keep: set<nat>, history: seq<Event>)
    requires CenterHolds(center, history)
    requires forall i :: 0 <= i < |events| ==> 1 <= events[i].sequence <= |history| && events[i] == history[events[i].sequence - 1]
    ensures CenterHolds(Stored(center, events, keep), history)
    ensures center.Keys <= Stored(center, events, keep).Keys
    decreases |events|
  {
    if events != [] {
      var e := events[0];
      StoredHolds(if e.sequence in keep then center[e.sequence := e] else center, events[1..], keep, history);
    }
  }

  /** Accepting more events disturbs nothing that is already under way. */
  lemma GrowKeeps(s: State, limits: Limits, codec: Codec, life: Life)
    requires Holds(s, limits, codec) && Invariant(life.db, limits, codec, life.history)
    requires s.life.history <= life.history && life.db.acked == s.life.db.acked
    ensures Holds(s.(life := life), limits, codec)
  {
    hide Invariant;
    forall b | FromHistory(b, s.life.history) ensures FromHistory(b, life.history) {
      assert life.history[b.first - 1..b.last] == s.life.history[b.first - 1..b.last];
    }
  }

  lemma TakeKeeps(s: State, limits: Limits, codec: Codec)
    requires Holds(s, limits, codec) && Faithful(codec)
    ensures Holds(Do(s, limits, codec, TakeAndSend), limits, codec)
  {
    hide Queue, Total, TakeBatch, Contiguous, CenterHolds;
    BatchIsLongestPrefix(s.life.db, limits, codec, s.life.history, MAX_BATCH_EVENTS, UPLOAD_BYTES);
  }

  lemma ArriveKeeps(s: State, limits: Limits, codec: Codec, k: nat, keep: set<nat>)
    requires Holds(s, limits, codec)
    ensures Holds(Do(s, limits, codec, Arrive(k, keep)), limits, codec)
  {
    if k < |s.sent| {
      var b, h := s.sent[k], s.life.history;
      forall i | 0 <= i < |b.events| ensures 1 <= b.events[i].sequence <= |h| && b.events[i] == h[b.events[i].sequence - 1] {
        assert b.events[i] == h[b.first - 1 + i];
      }
      hide Invariant;
      StoredHolds(s.center, b.events, keep, h);
    }
  }

  lemma AcceptKeeps(s: State, limits: Limits, codec: Codec, now: int)
    requires Holds(s, limits, codec)
    ensures Holds(Do(s, limits, codec, Accept(now)), limits, codec)
  {
    if s.phase.Answered? {
      AcknowledgeKeeps(s.life.db, limits, codec, s.phase.ack.streamId, s.phase.ack.highest, now, s.life.history);
      hide Invariant, Acknowledge;
    }
  }

  lemma DoKeeps(s: State, limits: Limits, codec: Codec, a: Action)
    requires Holds(s, limits, codec) && Faithful(codec)
    ensures Holds(Do(s, limits, codec, a), limits, codec)
  {
    match a
    case Submitted(submission) =>
      EventSpool.DoKeeps(s.life, limits, codec, Submit(submission));
      EnqueueKeeps(s.life.db, limits, codec, submission, s.life.history);
      hide Invariant, Holds, Enqueue;
      GrowKeeps(s, limits, codec, EventSpool.Do(s.life, limits, codec, Submit(submission)));
    case TakeAndSend => TakeKeeps(s, limits, codec);
    case Arrive(k, keep) => ArriveKeeps(s, limits, codec, k, keep);
    case Accept(now) => AcceptKeeps(s, limits, codec, now);
    case Restart(randomId) =>
      EventSpool.DoKeeps(s.life, limits, codec, Reopen(randomId));
      hide Invariant;
    case Reply(_) => hide Invariant;
    case GiveUp => hide Invariant;
  }

  lemma {:induction false} RunKeeps(s: State, limits: Limits, codec: Codec, actions: seq<Action>)
    requires Holds(s, limits, codec) && Faithful(codec)
    ensures Holds(Run(s, limits, codec, actions), limits, codec)
    decreases |actions|
  {
    hide Holds, Do, Faithful;
    if actions != [] {
      DoKeeps(s, limits, codec, actions[0]);
      RunKeeps(Do(s, limits, codec, actions[0]), limits, codec, actions[1..]);
    }
  }

  /** Event `i` waits in the spool, encoded as it was accepted. */
  predicate Queued(s: State, codec: Codec, i: nat) {
    exists k :: 0 <= k < |s.life.db.events| && s.life.db.events[k].key == i && 0 < i <= |s.life.history|
                && s.life.db.events[k] == Record(i, codec.encode(s.life.history[i - 1]))
  }

  /**
   * No event is lost: whatever the network and the scheduler did, every event ever accepted is
   * queued, or the center has it, unchanged, and has everything before it too.
   */
  lemma NothingIsLost(randomId: string, limits: Limits, codec: Codec, actions: seq<Action>, i: nat)
    requires randomId != "" && Faithful(codec)
    ensures var s := Run(Start(randomId), limits, codec, actions);
            1 <= i <= |s.life.history| ==>
              || Queued(s, codec, i)
              || (i <= s.life.db.acked && Contiguous(s.center, i) && s.center[i] == s.life.history[i - 1])
  {
    hide Run;
    RunKeeps(Start(randomId), limits, codec, actions);
    var s := Run(Start(randomId), limits, codec, actions);
    if s.life.db.acked < i <= |s.life.history| {
      var k := i - s.life.db.acked - 1;
      assert s.life.db.events[k] == Record(i, codec.encode(s.life.history[i - 1]));
    }
  }

  /**
   * Between taking a batch and its acknowledgement others enqueued `later`. An acknowledgement
   * that is accepted removes exactly the batch's events up to its sequence, and at least one.
   */
  lemma AcknowledgementIsExact(db: Db, limits: Limits, codec: Codec, history: seq<Event>, later: seq<Event>, db': Db,
                               batch: Batch, ack: Ack, now: int)
    requires Invariant(db, limits, codec, history) && Faithful(codec)
    requires TakeBatch(db, codec, MAX_BATCH_EVENTS, UPLOAD_BYTES) == Some(batch) && batch.events != []
    requires Invariant(db', limits, codec, history + later) && db'.acked == db.acked && db'.streamId == db.streamId
    ensures Settle(db', batch, ack, now).Success? <==>
              ack.version == VERSION && ack.streamId == db.streamId && db.acked < ack.highest <= db.acked + |batch.events|
    ensures var r := Settle(db', batch, ack, now);
            r.Success? ==> r.value.acked == ack.highest && r.value.events == db'.events[ack.highest - db.acked..]
  {
    BatchIsLongestPrefix(db, limits, codec, history, MAX_BATCH_EVENTS, UPLOAD_BYTES);
    assert db.acked + |batch.events| <= |history|;
    AcknowledgeKeeps(db', limits, codec, ack.streamId, ack.highest, now, history + later);
    if db.acked <= ack.highest <= |history + later| {
      SuffixOfQueue(codec, history + later, db.acked, ack.highest);
    }
    hide Queue, Total, Acknowledge, TakeBatch, IsLongestPrefix;
  }

  lemma SuffixOfQueue(codec: Codec, history: seq<Event>, from: nat, n: nat)
    requires from <= n <= |history|
    ensures Queue(codec, history, from)[n - from..] == Queue(codec, history, n)
  {
  }

  // ---------------------------------------------------------------- the queue drains

  /** What a stretch of events weighs in a request. */
  function Bytes(codec: Codec, events: seq<Event>): nat {
    if events == [] then 0 else |codec.encode(events[0])| + Bytes(codec, events[1..])
  }

  lemma {:induction false} BytesJoin(codec: Codec, a: seq<Event>, b: seq<Event>)
    ensures Bytes(codec, a + b) == Bytes(codec, a) + Bytes(codec, b)
  {
    if a == [] {
      assert a + b == b;
    } else {
      assert (a + b)[1..] == a[1..] + b;
      BytesJoin(codec, a[1..], b);
    }
  }

  lemma {:induction false} QueueBytes(codec: Codec, history: seq<Event>, from: nat, n: nat)
    requires from + n <= |history|
    ensures Total(Queue(codec, history, from)[..n]) == Bytes(codec, history[from..from + n])
    decreases n
  {
    hide Queue;
    var q := Queue(codec, history, from);
    if n > 0 {
      QueueBytes(codec, history, from, n - 1);
      TakeOneMore(q, n - 1);
      assert history[from..from + n] == history[from..from + n - 1] + [history[from + n - 1]];
      BytesJoin(codec, history[from..from + n - 1], [history[from + n - 1]]);
      assert Bytes(codec, [history[from + n - 1]]) == |codec.encode(history[from + n - 1])| by { OneWeighs(codec, history[from + n - 1]); }
    } else {
      assert q[..0] == [] && history[from..from] == [];
    }
  }

  lemma OneWeighs(codec: Codec, e: Event)
    ensures Bytes(codec, [e]) == |codec.encode(e)|
  {
    assert [e][1..] == [];
  }

  /** Small enough for one request. */
  predicate Fits(codec: Codec, events: seq<Event>) {
    |events| <= MAX_BATCH_EVENTS && (|events| <= 1 || Bytes(codec, events) <= UPLOAD_BYTES)
  }

  /** The longest prefix of what is queued reaches at least as far as any fitting stretch that began no later. */
  lemma ReachesFurthest(codec: Codec, history: seq<Event>, acked: nat, n: nat, first: nat, last: nat)
    requires acked <= |history| && 1 <= first <= acked + 1 && first <= last <= |history|
    requires IsLongestPrefix(Queue(codec, history, acked), MAX_BATCH_EVENTS, UPLOAD_BYTES, n) && Fits(codec, history[first - 1..last])
    ensures last <= acked + n
  {
    hide Queue, Total, Bytes;
    if last > acked + n {
      QueueBytes(codec, history, acked, n + 1);
      var head, rest := history[first - 1..acked], history[acked..last];
      var part, tail := history[acked..acked + n + 1], history[acked + n + 1..last];
      assert history[first - 1..last] == head + rest && rest == part + tail;
      BytesJoin(codec, head, rest);
      BytesJoin(codec, part, tail);
    }
  }

  lemma BatchReachesFurthest(s: State, limits: Limits, codec: Codec, earlier: Batch)
    requires Invariant(s.life.db, limits, codec, s.life.history) && Faithful(codec)
    requires FromHistory(earlier, s.life.history) && Fits(codec, earlier.events) && earlier.first <= s.life.db.acked + 1
    ensures var b := TakeBatch(s.life.db, codec, MAX_BATCH_EVENTS, UPLOAD_BYTES);
            b.Some? && earlier.last <= s.life.db.acked + |b.value.events|
  {
    hide Queue, Total, TakeBatch, Fits, IsLongestPrefix;
    var db := s.life.db;
    BatchIsLongestPrefix(db, limits, codec, s.life.history, MAX_BATCH_EVENTS, UPLOAD_BYTES);
    var n := |TakeBatch(db, codec, MAX_BATCH_EVENTS, UPLOAD_BYTES).value.events|;
    ReachesFurthest(codec, s.life.history, db.acked, n, earlier.first, earlier.last);
  }

  lemma BatchFits(s: State, limits: Limits, codec: Codec)
    requires Invariant(s.life.db, limits, codec, s.life.history) && Faithful(codec)
    ensures var b := TakeBatch(s.life.db, codec, MAX_BATCH_EVENTS, UPLOAD_BYTES);
            b.Some? && Fits(codec, b.value.events)
  {
    var db, history := s.life.db, s.life.history;
    BatchIsLongestPrefix(db, limits, codec, history, MAX_BATCH_EVENTS, UPLOAD_BYTES);
    hide Queue, Total, TakeBatch, Bytes;
    QueueBytes(codec, history, db.acked, |TakeBatch(db, codec, MAX_BATCH_EVENTS, UPLOAD_BYTES).value.events|);
  }

  /** Every request sent so far fits and began no later than the queue does now, and no one reached beyond the batch in flight. */
  ghost predicate Ordered(s: State, codec: Codec) {
    && (forall k :: 0 <= k < |s.sent| ==> s.sent[k].first <= s.life.db.acked + 1 && Fits(codec, s.sent[k].events))
    && (forall i :: i in s.center ==> exists k :: 0 <= k < |s.sent| && i <= s.sent[k].last)
    && (!s.phase.Resting? ==> forall k :: 0 <= k < |s.sent| ==> s.sent[k].last <= s.phase.batch.last)
    && (s.phase.Answered? ==> s.phase.ack.highest <= s.phase.batch.last
                              && s.phase.ack.version == VERSION && s.phase.ack.streamId == s.phase.batch.streamId)
    && (!s.phase.Resting? ==> s.phase.batch.streamId == s.life.db.streamId)
  }

  lemma TakeOrders(s: State, limits: Limits, codec: Codec)
    requires Holds(s, limits, codec) && Faithful(codec) && Ordered(s, codec)
    ensures Ordered(Do(s, limits, codec, TakeAndSend), codec)
  {
    hide Invariant, Contiguous, CenterHolds, Fits, TakeBatch, IsLongestPrefix;
    BatchIsLongestPrefix(s.life.db, limits, codec, s.life.history, MAX_BATCH_EVENTS, UPLOAD_BYTES);
    BatchFits(s, limits, codec);
    forall k | 0 <= k < |s.sent|
      ensures var b := TakeBatch(s.life.db, codec, MAX_BATCH_EVENTS, UPLOAD_BYTES);
              b.Some? && (b.value.events != [] ==> s.sent[k].last <= b.value.last)
    {
      BatchReachesFurthest(s, limits, codec, s.sent[k]);
    }
    var t := Do(s, limits, codec, TakeAndSend);
    forall i | i in s.center ensures exists k :: 0 <= k < |t.sent| && i <= t.sent[k].last {
      var k :| 0 <= k < |s.sent| && i <= s.sent[k].last;
      assert t.sent[k] == s.sent[k];
    }
  }

  lemma {:induction false} StoredBelow(center: map<nat, Event>, events: seq<Event>, keep: set<nat>, last: nat)
    requires forall i :: 0 <= i < |events| ==> events[i].sequence <= last
    ensures forall i :: i in Stored(center, events, keep) ==> i in center || i <= last
    decreases |events|
  {
    if events != [] {
      var e := events[0];
      StoredBelow(if e.sequence in keep then center[e.sequence := e] else center, events[1..], keep, last);
    }
  }

  lemma ArriveOrders(s: State, limits: Limits, codec: Codec, k: nat, keep: set<nat>)
    requires Holds(s, limits, codec) && Ordered(s, codec)
    ensures Ordered(Do(s, limits, codec, Arrive(k, keep)), codec)
  {
    if k < |s.sent| {
      var b := s.sent[k];
      forall i | 0 <= i < |b.events| ensures b.events[i].sequence <= b.last {
        assert b.events[i] == s.life.history[b.first - 1 + i];
      }
      hide Invariant, Fits;
      StoredBelow(s.center, b.events, keep, b.last);
    }
  }

  lemma ReplyOrders(s: State, limits: Limits, codec: Codec, highest: nat)
    requires Holds(s, limits, codec) && Ordered(s, codec)
    ensures Ordered(Do(s, limits, codec, Reply(highest)), codec)
  {
    hide Invariant, Fits;
    if s.phase.Waiting? && Contiguous(s.center, highest) && highest > 0 {
      assert highest in s.center;
    }
  }

  lemma DoOrders(s: State, limits: Limits, codec: Codec, a: Action)
    requires Holds(s, limits, codec) && Faithful(codec) && Ordered(s, codec)
    ensures Ordered(Do(s, limits, codec, a), codec)
  {
    match a
    case Submitted(submission) =>
      EnqueueKeeps(s.life.db, limits, codec, submission, s.life.history);
      hide Invariant, Fits, Enqueue;
    case TakeAndSend => TakeOrders(s, limits, codec);
    case Arrive(k, keep) => ArriveOrders(s, limits, codec, k, keep);
    case Reply(highest) => ReplyOrders(s, limits, codec, highest);
    case GiveUp => hide Invariant, Fits;
    case Accept(now) =>
      if s.phase.Answered? {
        AcknowledgeKeeps(s.life.db, limits, codec, s.phase.ack.streamId, s.phase.ack.highest, now, s.life.history);
      }
      hide Invariant, Fits, Acknowledge;
    case Restart(_) => hide Fits;
  }

  lemma {:induction false} RunOrders(s: State, limits: Limits, codec: Codec, actions: seq<Action>)
    requires Holds(s, limits, codec) && Faithful(codec) && Ordered(s, codec)
    ensures Holds(Run(s, limits, codec, actions), limits, codec) && Ordered(Run(s, limits, codec, actions), codec)
    decreases |actions|
  {
    hide Holds, Ordered, Do, Faithful;
    if actions != [] {
      DoKeeps(s, limits, codec, actions[0]);
      DoOrders(s, limits, codec, actions[0]);
      RunOrders(Do(s, limits, codec, actions[0]), limits, codec, actions[1..]);
    }
  }

  /**
   * However many requests arrived late, twice or never: the answer of a center that tells what it
   * has is never beyond the batch in flight, so it is refused only when it acknowledges nothing new.
   */
  lemma AnswersAreNeverBeyond(randomId: string, limits: Limits, codec: Codec, actions: seq<Action>, now: int)
    requires randomId != "" && Faithful(codec)
    ensures var s := Run(Start(randomId), limits, codec, actions);
            s.phase.Answered? ==>
              && s.phase.ack.highest <= s.phase.batch.last
              && (Settle(s.life.db, s.phase.batch, s.phase.ack, now).Success? <==> s.phase.ack.highest > s.life.db.acked)
  {
    hide Run;
    RunOrders(Start(randomId), limits, codec, actions);
    var s := Run(Start(randomId), limits, codec, actions);
    if s.phase.Answered? {
      AcknowledgeKeeps(s.life.db, limits, codec, s.phase.ack.streamId, s.phase.ack.highest, now, s.life.history);
    }
    hide Invariant, Acknowledge, Fits;
  }

  lemma {:induction false} StoresAll(center: map<nat, Event>, events: seq<Event>, keep: set<nat>)
    requires forall i :: 0 <= i < |events| ==> events[i].sequence in keep
    ensures center.Keys <= Stored(center, events, keep).Keys
    ensures forall i :: 0 <= i < |events| ==> events[i].sequence in Stored(center, events, keep)
    decreases |events|
  {
    if events != [] {
      var e := events[0];
      var next := center[e.sequence := e];
      StoresAll(next, events[1..], keep);
      forall i | 0 <= i < |events| ensures events[i].sequence in Stored(center, events, keep) {
        if i > 0 { assert events[i] == events[1..][i - 1]; }
      }
    }
  }

  function Sequences(events: seq<Event>): set<nat> { set e | e in events :: e.sequence }

  /** One round in which nothing goes wrong. */
  function Round(s: State, codec: Codec, now: int): seq<Action> {
    match TakeBatch(s.life.db, codec, MAX_BATCH_EVENTS, UPLOAD_BYTES)
    case None => []
    case Some(b) => [GiveUp, TakeAndSend, Arrive(|s.sent|, Sequences(b.events)), Reply(b.last), Accept(now)]
  }

  lemma RunFive(s: State, limits: Limits, codec: Codec, a: seq<Action>)
    requires |a| == 5
    ensures Run(s, limits, codec, a) ==
            Do(Do(Do(Do(Do(s, limits, codec, a[0]), limits, codec, a[1]), limits, codec, a[2]), limits, codec, a[3]), limits, codec, a[4])
  {
    hide Do;
    var s1 := Do(s, limits, codec, a[0]);
    var s2 := Do(s1, limits, codec, a[1]);
    var s3 := Do(s2, limits, codec, a[2]);
    var s4 := Do(s3, limits, codec, a[3]);
    assert a[1..][1..] == a[2..] && a[2..][1..] == a[3..] && a[3..][1..] == a[4..] && a[4..][1..] == [];
    var s5 := Do(s4, limits, codec, a[4]);
    assert Run(s5, limits, codec, []) == s5;
    assert Run(s4, limits, codec, a[4..]) == s5;
    assert Run(s3, limits, codec, a[3..]) == Run(s4, limits, codec, a[4..]);
    assert Run(s2, limits, codec, a[2..]) == Run(s3, limits, codec, a[3..]);
    assert Run(s1, limits, codec, a[1..]) == Run(s2, limits, codec, a[2..]);
  }

  /** The batch is taken, arrives whole and is answered for. */
  lemma BatchArrives(s: State, limits: Limits, codec: Codec) returns (b: Batch)
    requires Holds(s, limits, codec) && Ordered(s, codec) && Faithful(codec) && s.phase.Resting? && s.life.db.acked < |s.life.history|
    ensures TakeBatch(s.life.db, codec, MAX_BATCH_EVENTS, UPLOAD_BYTES) == Some(b) && s.life.db.acked < b.last
    ensures var t := Do(s, limits, codec, TakeAndSend);
            var u := Do(t, limits, codec, Arrive(|s.sent|, Sequences(b.events)));
            && t.phase == Waiting(b) && t.life == s.life
            && u.phase == Waiting(b) && u.life == s.life && Contiguous(u.center, b.last) && b.last + 1 !in u.center
  {
    hide Fits, TakeBatch, IsLongestPrefix, Queue, Total;
    BatchIsLongestPrefix(s.life.db, limits, codec, s.life.history, MAX_BATCH_EVENTS, UPLOAD_BYTES);
    b := TakeBatch(s.life.db, codec, MAX_BATCH_EVENTS, UPLOAD_BYTES).value;
    DoKeeps(s, limits, codec, TakeAndSend);
    DoOrders(s, limits, codec, TakeAndSend);
    var t := Do(s, limits, codec, TakeAndSend);
    DoOrders(t, limits, codec, Arrive(|s.sent|, Sequences(b.events)));
    assert t.sent[|s.sent|] == b;
    AllArrives(t, b);
  }

  lemma AllArrives(s: State, b: Batch)
    requires FromHistory(b, s.life.history) && b.first == s.life.db.acked + 1 && Contiguous(s.center, s.life.db.acked)
    requires forall i :: 0 <= i < |s.life.history| ==> s.life.history[i].sequence == i + 1
    ensures Contiguous(Stored(s.center, b.events, Sequences(b.events)), b.last)
  {
    forall i | 0 <= i < |b.events| ensures b.events[i].sequence == b.first + i && b.events[i].sequence in Sequences(b.events) {
      assert b.events[i] == s.life.history[b.first - 1 + i];
      assert b.events[i] in b.events;
    }
    StoresAll(s.center, b.events, Sequences(b.events));
    forall i | 1 <= i <= b.last ensures i in Stored(s.center, b.events, Sequences(b.events)) {
      if i >= b.first { assert b.events[i - b.first].sequence == i; }
    }
  }

  /** In any reachable state a round that goes well removes the whole batch from the spool, and nothing else changes in it. */
  lemma RoundDelivers(s: State, limits: Limits, codec: Codec, now: int)
    requires Holds(s, limits, codec) && Ordered(s, codec) && Faithful(codec) && s.life.db.acked < |s.life.history|
    ensures var b := TakeBatch(s.life.db, codec, MAX_BATCH_EVENTS, UPLOAD_BYTES);
            var t := Run(s, limits, codec, Round(s, codec, now));
            && b.Some? && t.phase.Resting? && t.life.history == s.life.history
            && t.life.db.acked == b.value.last && s.life.db.acked < t.life.db.acked <= |s.life.history|
  {
    hide Holds, Ordered, TakeBatch, Run, Faithful, Acknowledge, Contiguous, Stored;
    var r := s.(phase := Resting);
    GivesUp(s, limits, codec);
    var b := BatchArrives(r, limits, codec);
    var t := Do(r, limits, codec, TakeAndSend);
    var u := Do(t, limits, codec, Arrive(|s.sent|, Sequences(b.events)));
    RunFive(s, limits, codec, Round(s, codec, now));
    hide Do;
    Answers(u, limits, codec, b);
    SettlesWhole(s, limits, codec, b, Do(u, limits, codec, Reply(b.last)), now);
  }

  lemma GivesUp(s: State, limits: Limits, codec: Codec)
    requires Holds(s, limits, codec) && Ordered(s, codec) && Faithful(codec)
    ensures var r := s.(phase := Resting);
            Do(s, limits, codec, GiveUp) == r && Holds(r, limits, codec) && Ordered(r, codec)
  {
    hide Holds, Ordered;
    DoKeeps(s, limits, codec, GiveUp);
    DoOrders(s, limits, codec, GiveUp);
  }

  lemma Answers(s: State, limits: Limits, codec: Codec, b: Batch)
    requires s.phase == Waiting(b) && Contiguous(s.center, b.last) && b.last + 1 !in s.center
    ensures Do(s, limits, codec, Reply(b.last)) == s.(phase := Answered(b, Ack(VERSION, b.streamId, b.last)))
  {
    hide Contiguous;
  }

  lemma SettlesWhole(s: State, limits: Limits, codec: Codec, b: Batch, v: State, now: int)
    requires Holds(s, limits, codec) && Faithful(codec) && s.life.db.acked < b.last
    requires TakeBatch(s.life.db, codec, MAX_BATCH_EVENTS, UPLOAD_BYTES) == Some(b)
    requires v.life == s.life && v.phase == Answered(b, Ack(VERSION, b.streamId, b.last))
    ensures var t := Do(v, limits, codec, Accept(now));
            t.phase.Resting? && t.life.history == s.life.history && t.life.db.acked == b.last <= |s.life.history|
  {
    BatchIsLongestPrefix(s.life.db, limits, codec, s.life.history, MAX_BATCH_EVENTS, UPLOAD_BYTES);
    AcknowledgeKeeps(s.life.db, limits, codec, b.streamId, b.last, now, s.life.history);
    hide Queue, Total, TakeBatch, IsLongestPrefix, Acknowledge, CenterHolds, Contiguous;
  }

  /** Whatever happened, the queue can still be emptied: every event accepted so far reaches the center. */
  lemma {:induction false} QueueDrains(s: State, limits: Limits, codec: Codec, now: int) returns (actions: seq<Action>)
    requires Holds(s, limits, codec) && Ordered(s, codec) && Faithful(codec)
    ensures var t := Run(s, limits, codec, actions);
            t.life.history == s.life.history && t.life.db.acked == |s.life.history| && Contiguous(t.center, |s.life.history|)
    decreases |s.life.history| - s.life.db.acked
  {
    hide Do, Run, Round, Invariant, Ordered, TakeBatch, Contiguous, CenterHolds, FromHistory, InFlight;
    if s.life.db.acked < |s.life.history| {
      RoundDelivers(s, limits, codec, now);
      var round := Round(s, codec, now);
      RunOrders(s, limits, codec, round);
      var rest := QueueDrains(Run(s, limits, codec, round), limits, codec, now);
      RunJoin(s, limits, codec, round, rest);
      actions := round + rest;
    } else {
      actions := [];
      assert Run(s, limits, codec, []) == s && s.life.db.acked == |s.life.history| by { NothingQueued(s, limits, codec); }
    }
  }

  lemma NothingQueued(s: State, limits: Limits, codec: Codec)
    requires Holds(s, limits, codec) && s.life.db.acked >= |s.life.history|
    ensures Run(s, limits, codec, []) == s && s.life.db.acked == |s.life.history|
  {
  }

  lemma {:induction false} RunJoin(s: State, limits: Limits, codec: Codec, a: seq<Action>, b: seq<Action>)
    ensures Run(s, limits, codec, a + b) == Run(Run(s, limits, codec, a), limits, codec, b)
    decreases |a|
  {
    hide Do;
    if a == [] {
      assert a + b == b;
    } else {
      assert (a + b)[1..] == a[1..] + b;
      RunJoin(Do(s, limits, codec, a[0]), limits, codec, a[1..], b);
    }
  }

  lemma StartOrders(randomId: string, limits: Limits, codec: Codec)
    requires randomId != ""
    ensures Holds(Start(randomId), limits, codec) && Ordered(Start(randomId), codec)
  {
  }

  /** After any run of agent, network and center there is a continuation that delivers everything accepted so far. */
  lemma EverythingCanBeDelivered(randomId: string, limits: Limits, codec: Codec, actions: seq<Action>)
    requires randomId != "" && Faithful(codec)
    ensures exists more ::
              var s := Run(Start(randomId), limits, codec, actions);
              var t := Run(Start(randomId), limits, codec, actions + more);
              t.life.history == s.life.history && t.life.db.acked == |s.life.history| && Contiguous(t.center, |s.life.history|)
  {
    hide Run, Holds, Ordered, Contiguous;
    StartOrders(randomId, limits, codec);
    RunOrders(Start(randomId), limits, codec, actions);
    var s := Run(Start(randomId), limits, codec, actions);
    var more := QueueDrains(s, limits, codec, 0);
    RunJoin(Start(randomId), limits, codec, actions, more);
  }

  // ---------------------------------------------------------------- the loop body

  /** What came back for a request, if anything usable did. */
  datatype Response = NoResponse | Response(ack: Ack)

  /** Enqueueing by other goroutines while the request is under way. */
  function SubmitAll(life: Life, limits: Limits, codec: Codec, submissions: seq<Submission>): Life
    decreases |submissions|
  {
    if submissions == [] then life
    else SubmitAll(EventSpool.Do(life, limits, codec, Submit(submissions[0])), limits, codec, submissions[1..])
  }

  method SubmitEach(store: EventStore.Store, submissions: seq<Submission>)
    requires store.Valid()
    modifies store
    ensures store.Valid()
    ensures Life(store.Content(), store.history) ==
            SubmitAll(Life(old(store.Content()), old(store.history)), store.limits, store.codec, submissions)
  {
    hide EventStore.Store.Valid, EventSpool.Enqueue;
    var i := 0;
    while i < |submissions|
      invariant i <= |submissions| && store.Valid()
      invariant SubmitAll(Life(store.Content(), store.history), store.limits, store.codec, submissions[i..]) ==
                SubmitAll(Life(old(store.Content()), old(store.history)), store.limits, store.codec, submissions)
    {
      assert submissions[i..][1..] == submissions[i + 1..];
      var _ := store.Enqueue(submissions[i]);
      i := i + 1;
    }
  }

  /**
   * One upload: take a batch, exchange it while others enqueue, and settle the answer. Whatever
   * the response says, the only thing an upload can do to the spool is to advance the
   * acknowledged sequence within the batch it took.
   */
  method UploadOnce(store: EventStore.Store, during: seq<Submission>, response: Response, now: int)
    returns (hadEvents: bool, error: Option<UploadError>)
    requires store.Valid() && Faithful(store.codec)
    modifies store
    ensures store.Valid()
    ensures hadEvents <==> old(store.acked) < |old(store.history)|
    ensures !hadEvents ==> error.None? && store.Content() == old(store.Content()) && store.history == old(store.history)
    ensures hadEvents ==>
              var life := SubmitAll(Life(old(store.Content()), old(store.history)), store.limits, store.codec, during);
              var batch := TakeBatch(old(store.Content()), store.codec, MAX_BATCH_EVENTS, UPLOAD_BYTES);
              && store.history == life.history && batch.Some?
              && (error.None? <==> response.Response? && Settle(life.db, batch.value, response.ack, now).Success?)
              && store.Content() == if error.None? then Settle(life.db, batch.value, response.ack, now).value else life.db
  {
    BatchIsLongestPrefix(store.Content(), store.limits, store.codec, store.history, MAX_BATCH_EVENTS, UPLOAD_BYTES);
    var taken := store.Batch(MAX_BATCH_EVENTS, UPLOAD_BYTES);
    hide EventSpool.Invariant, TakeBatch, IsLongestPrefix, EventSpool.Acknowledge;
    var batch := taken.value;
    if batch.events == [] { return false, None; }
    SubmitEach(store, during);
    if response.NoResponse? { return true, Some(Unavailable); }
    var refused := Check(batch, response.ack);
    if refused.Some? { return true, refused; }
    var settled := store.Acknowledge(response.ack.streamId, response.ack.highest, now);
    match settled
    case Success(_) => return true, None;
    case Failure(e) => return true, Some(Spool(e));
  }
}
