/** internal/eventspool/store.go as it works: transactions that update the buckets in place. */
module EventStore {
  import opened Common
  import opened Spec = EventSpool

  class Store {
    var streamId: string
    var next: nat
    var acked: nat
    var pendingBytes: nat
    var pendingEvents: nat
    var events: seq<Record>
    var checkpoints: map<string, Checkpoint>
    var counters: map<string, Counter>
    var lastSeen: map<Kind, int>
    var lastAckAt: int
    var lastErrorCode: string

    const limits: Limits
    const codec: Codec

    /** Everything ever accepted. */
    ghost var history: seq<Event>

    function Content(): Db
      reads this
    {
      Db(streamId, next, acked, pendingBytes, pendingEvents, events, checkpoints, counters, lastSeen, lastAckAt, lastErrorCode)
    }

    ghost predicate Valid()
      reads this
    {
      Invariant(Content(), limits, codec, history)
    }

    /** A new database file, opened for the first time. */
    constructor (limits: Limits, codec: Codec, randomId: string)
      requires randomId != ""
      ensures Valid() && history == [] && Content() == Initialize(BLANK, randomId)
      ensures this.limits == limits && this.codec == codec
    {
      this.limits, this.codec := limits, codec;
      streamId, next, acked, pendingBytes, pendingEvents, events := randomId, 1, 0, 0, 0, [];
      checkpoints, counters, lastSeen, lastAckAt, lastErrorCode := map[], map[], map[], 0, "";
      history := [];
    }

    method WriteEffect(effect: SideEffect)
      modifies `checkpoints, `counters
      ensures Content() == WithEffect(old(Content()), effect)
    {
      match effect
      case Nothing =>
      case SetCheckpoint(key, checkpoint) => checkpoints := checkpoints[key := checkpoint];
      case SetCounters(update) => counters := counters + update;
    }

    method Append(encoded: string)
      modifies `events, `next, `pendingBytes, `pendingEvents
      ensures var db := old(Content());
              Content() == db.(events := Spec.Store(db.events, Record(db.next, encoded)), next := db.next + 1,
                               pendingBytes := db.pendingBytes + |encoded|, pendingEvents := db.pendingEvents + 1)
    {
      events := Spec.Store(events, Record(next, encoded));
      next, pendingBytes, pendingEvents := next + 1, pendingBytes + |encoded|, pendingEvents + 1;
    }

    method MarkSeen(s: Submission)
      modifies `lastSeen
      ensures Content() == Seen(old(Content()), s)
    {
      if !s.kind.Heartbeat? && !s.kind.Unsupported? {
        lastSeen := lastSeen[s.kind := s.observedAt];
      }
    }

    /** The transaction that stores an admitted event. */
    method Write(s: Submission, event: Event, encoded: string)
      modifies this
      ensures var db := WithEffect(old(Content()), s.effect);
              Content() == Seen(db.(events := Spec.Store(db.events, Record(db.next, encoded)), next := db.next + 1,
                                    pendingBytes := db.pendingBytes + |encoded|, pendingEvents := db.pendingEvents + 1), s)
      ensures history == old(history) + [event]
    {
      hide WithEffect, Seen, Spec.Store;
      WriteEffect(s.effect);
      Append(encoded);
      MarkSeen(s);
      history := history + [event];
    }

    /** Accept an event and its side effect together, or neither. */
    method Enqueue(s: Submission) returns (r: Outcome<Event>)
      requires Valid()
      modifies this
      ensures Valid()
      ensures match Spec.Enqueue(old(Content()), limits, codec, s)
              case Success((db, e)) => r == Success(e) && Content() == db && history == old(history) + [e]
              case Failure(error) => r == Failure(error) && Content() == old(Content()) && history == old(history)
    {
      EnqueueKeeps(Content(), limits, codec, s, history);
      hide Invariant, WithEffect, Seen, Spec.Store;
      if s.kind.Unsupported? { return Failure(UnsupportedKind); }
      if s.observedAt <= 0 { return Failure(ObservedTimeRequired); }
      if |s.payload| == 0 || |s.payload| > MAX_EVENT_BYTES { return Failure(PayloadSize); }
      var event := Event(next, s.kind, s.observedAt, s.payload);
      var encoded := codec.encode(event);
      if |encoded| > MAX_EVENT_BYTES { return Failure(EventSize); }
      if |encoded| + pendingBytes > limits.maxBytes || pendingEvents >= limits.maxEvents { return Failure(Full); }
      if s.effect.SetCheckpoint? && s.effect.key == "" { return Failure(CheckpointKeyRequired); }
      Write(s, event, encoded);
      return Success(event);
    }

    method SetCheckpoint(key: string, checkpoint: Checkpoint)
      requires Valid()
      modifies `checkpoints
      ensures Valid() && Content() == SaveCheckpoint(old(Content()), key, checkpoint)
    {
      hide Queue, Total;
      checkpoints := checkpoints[key := checkpoint];
    }

    /** The longest allowed prefix of the queue, decoded. */
    method Batch(maxEvents: int, maxBytes: int) returns (batch: Option<Spec.Batch>)
      requires Valid()
      ensures batch == TakeBatch(Content(), codec, maxEvents, maxBytes)
    {
      hide Invariant;
      var eventLimit, byteLimit := EventLimit(maxEvents), ByteLimit(maxBytes);
      var taken: seq<Event>, total: nat, i: nat := [], 0, 0;
      ghost var n := PrefixLength(events, eventLimit, byteLimit, 0, 0);
      while i < |events| && |taken| < eventLimit
        invariant i <= |events| && i == |taken| <= n
        invariant n == PrefixLength(events, eventLimit, byteLimit, i, total)
        invariant DecodeAll(codec, events[..i]) == Some(taken)
      {
        if total + |events[i].value| > byteLimit && |taken| > 0 { break; }
        assert events[..i + 1][..i] == events[..i];
        var e := codec.decode(events[i].value);
        if e.None? {
          Undecodable(codec, events, i, n);
          return None;
        }
        taken, total, i := taken + [e.value], total + |events[i].value|, i + 1;
      }
      if |taken| == 0 { return Some(Spec.Batch(streamId, 0, 0, [])); }
      return Some(Spec.Batch(streamId, taken[0].sequence, taken[|taken| - 1].sequence, taken));
    }

    /** Delete everything up to `sequence`, one record at a time, all or nothing. */
    method Acknowledge(stream: string, sequence: nat, now: int) returns (r: Outcome<()>)
      requires Valid()
      modifies this
      ensures Valid() && history == old(history) && r != Failure(Inconsistent)
      ensures match Spec.Acknowledge(old(Content()), stream, sequence, now)
              case Success(db) => r == Success(()) && Content() == db
              case Failure(error) => r == Failure(error) && Content() == old(Content())
    {
      AcknowledgeKeeps(Content(), limits, codec, stream, sequence, now, history);
      hide Invariant, Drain;
      if stream != streamId { return Failure(StreamMismatch); }
      if sequence >= next { return Failure(BeyondLastAssigned); }
      if sequence < acked { return Success(()); }
      var drained := DeleteThrough(events, sequence, pendingBytes, pendingEvents);
      if drained.None? { return Failure(Inconsistent); }
      Remove(drained.value.0, drained.value.1, drained.value.2, sequence, now);
      return Success(());
    }

    method Remove(left: seq<Record>, bytes: nat, count: nat, sequence: nat, now: int)
      modifies `events, `pendingBytes, `pendingEvents, `acked, `lastAckAt, `lastErrorCode
      ensures Content() == old(Content()).(events := left, pendingBytes := bytes, pendingEvents := count, acked := sequence,
                                           lastAckAt := now, lastErrorCode := "")
    {
      events, pendingBytes, pendingEvents := left, bytes, count;
      acked, lastAckAt, lastErrorCode := sequence, now, "";
    }
  }

  /** The cursor loop: delete leading records up to `sequence`, charging each to the counters. */
  method DeleteThrough(events: seq<Record>, sequence: nat, pendingBytes: nat, pendingEvents: nat)
    returns (drained: Option<(seq<Record>, nat, nat)>)
    ensures drained == Drain(events, sequence, pendingBytes, pendingEvents)
  {
    var left: seq<Record>, bytes: nat, count: nat := events, pendingBytes, pendingEvents;
    while left != [] && left[0].key <= sequence
      invariant Drain(left, sequence, bytes, count) == Drain(events, sequence, pendingBytes, pendingEvents)
      decreases |left|
    {
      if |left[0].value| > bytes || count == 0 { return None; }
      left, bytes, count := left[1..], bytes - |left[0].value|, count - 1;
    }
    return Some((left, bytes, count));
  }

  lemma {:induction false} Undecodable(codec: Codec, events: seq<Record>, i: nat, n: nat)
    requires i < n <= |events| && codec.decode(events[i].value).None?
    ensures DecodeAll(codec, events[..n]).None?
    decreases n
  {
    assert events[..n][..n - 1] == events[..n - 1];
    assert events[..n][n - 1] == events[n - 1];
    if i < n - 1 { Undecodable(codec, events, i, n - 1); }
  }
}
