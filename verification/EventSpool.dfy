/**
 * internal/eventspool/store.go: a bounded durable queue. The database is an ordered map of
 * encoded events plus a few counters; every operation is one atomic transaction on it.
 */
module EventSpool {
  import opened Common

  const MAX_EVENT_BYTES: nat := 262144
  const MAX_BATCH_EVENTS: nat := 500
  const MAX_EXPANDED_BYTES: nat := 4194304

  datatype Kind = Access | Route | Heartbeat | TrafficSnapshot | OnlineSnapshot | Unsupported(name: string)

  datatype Event = Event(sequence: nat, kind: Kind, observedAt: int, payload: string)

  /** JSON: any encoding that decodes back. */
  datatype Codec = Codec(encode: Event -> string, decode: string -> Option<Event>)

  ghost predicate Faithful(codec: Codec) {
    forall e :: codec.decode(codec.encode(e)) == Some(e)
  }

  datatype Checkpoint = Checkpoint(device: int, inode: int, offset: int, anchorOffset: int, anchorDigest: string, initialized: bool)

  datatype Counter = Counter(runtimeId: string, up: nat, down: nat, epoch: nat)

  datatype Record = Record(key: nat, value: string)

  datatype Db = Db(streamId: string, next: nat, acked: nat, pendingBytes: nat, pendingEvents: nat, events: seq<Record>,
                   checkpoints: map<string, Checkpoint>, counters: map<string, Counter>,
                   lastSeen: map<Kind, int>, lastAckAt: int, lastErrorCode: string)

  datatype Limits = Limits(maxBytes: nat, maxEvents: nat)

  datatype Error =
    | UnsupportedKind | ObservedTimeRequired | PayloadSize | EventSize | Full | CheckpointKeyRequired
    | StreamMismatch | BeyondLastAssigned | Inconsistent

  // ---------------------------------------------------------------- the ordered map

  /** Store a value under its key, keeping keys in order. */
  function Store(records: seq<Record>, r: Record): seq<Record> {
    if records == [] || r.key < records[0].key then [r] + records
    else if r.key == records[0].key then [r] + records[1..]
    else [records[0]] + Store(records[1..], r)
  }

  lemma {:induction false} StoreLast(records: seq<Record>, r: Record)
    requires forall i :: 0 <= i < |records| ==> records[i].key < r.key
    ensures Store(records, r) == records + [r]
  {
    if records != [] {
      StoreLast(records[1..], r);
      assert records == [records[0]] + records[1..];
    }
  }

  function Total(records: seq<Record>): nat {
    if records == [] then 0 else |records[0].value| + Total(records[1..])
  }

  lemma {:induction false} TotalConcat(a: seq<Record>, b: seq<Record>)
    ensures Total(a + b) == Total(a) + Total(b)
  {
    if a == [] {
      assert a + b == b;
    } else {
      assert (a + b)[1..] == a[1..] + b;
      TotalConcat(a[1..], b);
    }
  }

  lemma TotalGrows(records: seq<Record>, m: nat, n: nat)
    requires m <= n <= |records|
    ensures Total(records[..m]) <= Total(records[..n])
  {
    assert records[..n] == records[..m] + records[m..n];
    TotalConcat(records[..m], records[m..n]);
  }

  // ---------------------------------------------------------------- operations

  function Initialize(db: Db, randomId: string): Db {
    db.(streamId := if db.streamId == "" then randomId else db.streamId,
        next := if db.next == 0 then 1 else db.next)
  }

  /** What a transaction writes beside the event. */
  datatype SideEffect = Nothing | SetCheckpoint(key: string, checkpoint: Checkpoint) | SetCounters(counters: map<string, Counter>)

  datatype Submission = Submission(kind: Kind, observedAt: int, payload: string, effect: SideEffect)

  /** A failed transaction leaves the database as it was. */
  datatype Outcome<T> = Success(value: T) | Failure(error: Error)

  function WithEffect(db: Db, effect: SideEffect): Db {
    match effect
    case Nothing => db
    case SetCheckpoint(key, checkpoint) => db.(checkpoints := db.checkpoints[key := checkpoint])
    case SetCounters(counters) => db.(counters := db.counters + counters)
  }

  function Seen(db: Db, s: Submission): Db {
    if s.kind.Heartbeat? || s.kind.Unsupported? then db else db.(lastSeen := db.lastSeen[s.kind := s.observedAt])
  }

  function Enqueue(db: Db, limits: Limits, codec: Codec, s: Submission): Outcome<(Db, Event)> {
    if s.kind.Unsupported? then Failure(UnsupportedKind)
    else if s.observedAt <= 0 then Failure(ObservedTimeRequired)
    else if |s.payload| == 0 || |s.payload| > MAX_EVENT_BYTES then Failure(PayloadSize)
    else
      var event := Event(db.next, s.kind, s.observedAt, s.payload);
      var encoded := codec.encode(event);
      if |encoded| > MAX_EVENT_BYTES then Failure(EventSize)
      else if |encoded| + db.pendingBytes > limits.maxBytes || db.pendingEvents >= limits.maxEvents then Failure(Full)
      else if s.effect.SetCheckpoint? && s.effect.key == "" then Failure(CheckpointKeyRequired)
      else
        var stored := WithEffect(db, s.effect).(
          events := Store(db.events, Record(db.next, encoded)), next := db.next + 1,
          pendingBytes := db.pendingBytes + |encoded|, pendingEvents := db.pendingEvents + 1);
        Success((Seen(stored, s), event))
  }

  /** A position on its own, without an event. */
  function SaveCheckpoint(db: Db, key: string, checkpoint: Checkpoint): Db {
    db.(checkpoints := db.checkpoints[key := checkpoint])
  }

  /** The deletion loop: drop leading records up to `sequence`, charging them to the counters. */
  function Drain(events: seq<Record>, sequence: nat, bytes: nat, count: nat): Option<(seq<Record>, nat, nat)> {
    if events == [] || events[0].key > sequence then Some((events, bytes, count))
    else if |events[0].value| > bytes || count == 0 then None
    else Drain(events[1..], sequence, bytes - |events[0].value|, count - 1)
  }

  function Acknowledge(db: Db, streamId: string, sequence: nat, now: int): Outcome<Db> {
    if streamId != db.streamId then Failure(StreamMismatch)
    else if sequence >= db.next then Failure(BeyondLastAssigned)
    else if sequence < db.acked then Success(db)
    else
      match Drain(db.events, sequence, db.pendingBytes, db.pendingEvents)
      case None => Failure(Inconsistent)
      case Some((events, bytes, count)) =>
        Success(db.(events := events, pendingBytes := bytes, pendingEvents := count, acked := sequence,
                    lastAckAt := now, lastErrorCode := ""))
  }

  // ---------------------------------------------------------------- the invariant

  /** The stored form of the events after the first `from`. */
  function Queue(codec: Codec, history: seq<Event>, from: nat): (q: seq<Record>)
    requires from <= |history|
    ensures |q| == |history| - from
    ensures forall i :: 0 <= i < |q| ==> q[i] == Record(from + i + 1, codec.encode(history[from + i]))
    decreases |history| - from
  {
    if from == |history| then []
    else [Record(from + 1, codec.encode(history[from]))] + Queue(codec, history, from + 1)
  }

  /**
   * `history` is every event ever accepted, in order. The stored keys are exactly acked+1 up to
   * next-1, each holding its event; both counters agree with them and neither cap is exceeded.
   */
  ghost predicate Invariant(db: Db, limits: Limits, codec: Codec, history: seq<Event>) {
    && (forall i :: 0 <= i < |history| ==> history[i].sequence == i + 1)
    && db.next == |history| + 1 && db.acked <= |history|
    && db.events == Queue(codec, history, db.acked)
    && db.pendingEvents == |db.events| && db.pendingBytes == Total(db.events)
    && db.pendingEvents <= limits.maxEvents && db.pendingBytes <= limits.maxBytes
    && db.streamId != ""
  }

  lemma QueueExtends(codec: Codec, history: seq<Event>, from: nat, e: Event)
    requires from <= |history|
    ensures Queue(codec, history + [e], from) == Queue(codec, history, from) + [Record(|history| + 1, codec.encode(e))]
  {
  }

  lemma Appended(records: seq<Record>, r: Record)
    requires forall i :: 0 <= i < |records| ==> records[i].key < r.key
    ensures Store(records, r) == records + [r] && Total(records + [r]) == Total(records) + |r.value|
  {
    StoreLast(records, r);
    TotalConcat(records, [r]);
  }

  lemma EnqueueKeeps(db: Db, limits: Limits, codec: Codec, s: Submission, history: seq<Event>)
    requires Invariant(db, limits, codec, history)
    ensures var r := Enqueue(db, limits, codec, s);
            r.Success? ==>
              var (db', e) := r.value;
              && e == Event(|history| + 1, s.kind, s.observedAt, s.payload)
              && Invariant(db', limits, codec, history + [e])
              && db'.acked == db.acked && db'.streamId == db.streamId
              && db'.checkpoints == WithEffect(db, s.effect).checkpoints && db'.counters == WithEffect(db, s.effect).counters
              && (forall kind: Kind :: kind in db'.lastSeen <==> kind in db.lastSeen || (kind == s.kind && !kind.Heartbeat?))
              && (!s.kind.Heartbeat? ==> db'.lastSeen[s.kind] == e.observedAt)
  {
    hide Queue, Total, Store;
    var e := Event(db.next, s.kind, s.observedAt, s.payload);
    Appended(db.events, Record(db.next, codec.encode(e)));
    QueueExtends(codec, history, db.acked, e);
  }

  /** Accepted exactly when kind, time and sizes are legal and neither cap would be exceeded. */
  lemma EnqueueAccepts(db: Db, limits: Limits, codec: Codec, s: Submission, history: seq<Event>)
    requires Invariant(db, limits, codec, history)
    ensures var size := |codec.encode(Event(|history| + 1, s.kind, s.observedAt, s.payload))|;
            Enqueue(db, limits, codec, s).Success? <==>
              && !s.kind.Unsupported? && s.observedAt > 0 && 0 < |s.payload| <= 262144 && size <= 262144
              && Total(Queue(codec, history, db.acked)) + size <= limits.maxBytes && |history| - db.acked < limits.maxEvents
              && !(s.effect.SetCheckpoint? && s.effect.key == "")
  {
  }

  lemma {:induction false} DrainDrops(codec: Codec, history: seq<Event>, from: nat, sequence: nat)
    requires from <= sequence <= |history|
    ensures var q := Queue(codec, history, from);
            var rest := Queue(codec, history, sequence);
            Drain(q, sequence, Total(q), |q|) == Some((rest, Total(rest), |rest|)) && Total(rest) <= Total(q)
    decreases sequence - from
  {
    if from < sequence {
      DrainDrops(codec, history, from + 1, sequence);
      assert Queue(codec, history, from)[1..] == Queue(codec, history, from + 1);
    }
  }

  /** An acknowledgement is refused exactly for a foreign stream or an unassigned sequence; its accounting cannot fail. */
  lemma AcknowledgeKeeps(db: Db, limits: Limits, codec: Codec, streamId: string, sequence: nat, now: int, history: seq<Event>)
    requires Invariant(db, limits, codec, history)
    ensures var r := Acknowledge(db, streamId, sequence, now);
            if streamId != db.streamId then r == Failure(StreamMismatch)
            else if sequence > |history| then r == Failure(BeyondLastAssigned)
            else
              && r.Success? && Invariant(r.value, limits, codec, history) && r.value.streamId == db.streamId
              && r.value.acked == (if sequence < db.acked then db.acked else sequence)
              && r.value.checkpoints == db.checkpoints && r.value.counters == db.counters
              && (sequence >= db.acked ==> r.value.lastAckAt == now && r.value.lastErrorCode == "")
  {
    if streamId == db.streamId && db.acked <= sequence <= |history| {
      hide Queue, Total, Drain;
      DrainDrops(codec, history, db.acked, sequence);
    }
  }

  // ---------------------------------------------------------------- whole lives

  datatype Op =
    | Save(key: string, checkpoint: Checkpoint)
    | Submit(s: Submission)
    | Confirm(streamId: string, sequence: nat, now: int)
    | Reopen(randomId: string)

  /** The database together with everything it ever accepted. */
  datatype Life = Life(db: Db, history: seq<Event>)

  function Do(life: Life, limits: Limits, codec: Codec, op: Op): Life {
    match op
    case Save(key, checkpoint) => life.(db := SaveCheckpoint(life.db, key, checkpoint))
    case Submit(s) =>
      (match Enqueue(life.db, limits, codec, s)
       case Success((db, e)) => Life(db, life.history + [e])
       case Failure(_) => life)
    case Confirm(streamId, sequence, now) =>
      (match Acknowledge(life.db, streamId, sequence, now)
       case Success(db) => life.(db := db)
       case Failure(_) => life)
    case Reopen(randomId) => life.(db := Initialize(life.db, randomId))
  }

  function Run(life: Life, limits: Limits, codec: Codec, ops: seq<Op>): Life
    decreases |ops|
  {
    if ops == [] then life else Run(Do(life, limits, codec, ops[0]), limits, codec, ops[1..])
  }

  const BLANK := Db("", 0, 0, 0, 0, [], map[], map[], map[], 0, "")

  function Opened(randomId: string): Life { Life(Initialize(BLANK, randomId), []) }

  lemma DoKeeps(life: Life, limits: Limits, codec: Codec, op: Op)
    requires Invariant(life.db, limits, codec, life.history)
    ensures var after := Do(life, limits, codec, op);
            && Invariant(after.db, limits, codec, after.history) && after.db.streamId == life.db.streamId
            && life.history <= after.history && life.db.acked <= after.db.acked
  {
    hide Queue, Total, Store;
    match op
    case Save(_, _) =>
    case Submit(s) => EnqueueKeeps(life.db, limits, codec, s, life.history);
    case Confirm(streamId, sequence, now) => AcknowledgeKeeps(life.db, limits, codec, streamId, sequence, now, life.history);
    case Reopen(_) =>
  }

  lemma {:induction false} RunKeeps(life: Life, limits: Limits, codec: Codec, ops: seq<Op>)
    requires Invariant(life.db, limits, codec, life.history)
    ensures var after := Run(life, limits, codec, ops);
            && Invariant(after.db, limits, codec, after.history) && after.db.streamId == life.db.streamId
            && life.history <= after.history && life.db.acked <= after.db.acked
    decreases |ops|
  {
    hide Invariant, Do;
    if ops != [] {
      DoKeeps(life, limits, codec, ops[0]);
      RunKeeps(Do(life, limits, codec, ops[0]), limits, codec, ops[1..]);
    }
  }

  /** Every life of a spool, reopened any number of times, keeps its accounting. */
  lemma AlwaysInvariant(randomId: string, limits: Limits, codec: Codec, ops: seq<Op>)
    requires randomId != ""
    ensures var life := Run(Opened(randomId), limits, codec, ops);
            Invariant(life.db, limits, codec, life.history) && life.db.streamId == randomId
  {
    hide Run;
    RunKeeps(Opened(randomId), limits, codec, ops);
  }

  // ---------------------------------------------------------------- batches

  datatype Batch = Batch(streamId: string, first: nat, last: nat, events: seq<Event>)

  /** The batch loop: stop at the event limit, or before the record that breaks the byte limit unless it is the first. */
  function PrefixLength(events: seq<Record>, maxEvents: nat, maxBytes: nat, n: nat, total: nat): (r: nat)
    requires n <= |events|
    ensures n <= r <= |events|
    decreases |events| - n
  {
    if n == |events| || n >= maxEvents || (total + |events[n].value| > maxBytes && n > 0) then n
    else PrefixLength(events, maxEvents, maxBytes, n + 1, total + |events[n].value|)
  }

  /** The first `n` records are the longest prefix allowed; a single record may exceed the byte limit. */
  predicate IsLongestPrefix(events: seq<Record>, maxEvents: nat, maxBytes: nat, n: nat) {
    && n <= |events| && n <= maxEvents && (events != [] ==> n > 0)
    && (n <= 1 || Total(events[..n]) <= maxBytes)
    && (n == |events| || n == maxEvents || Total(events[..n + 1]) > maxBytes)
  }

  lemma TakeOneMore(events: seq<Record>, n: nat)
    requires n < |events|
    ensures Total(events[..n + 1]) == Total(events[..n]) + |events[n].value|
  {
    assert events[..n + 1] == events[..n] + [events[n]];
    TotalConcat(events[..n], [events[n]]);
  }

  lemma {:induction false} PrefixFrom(events: seq<Record>, maxEvents: nat, maxBytes: nat, n: nat)
    requires n <= |events| && n <= maxEvents && 0 < maxEvents && (n <= 1 || Total(events[..n]) <= maxBytes)
    ensures IsLongestPrefix(events, maxEvents, maxBytes, PrefixLength(events, maxEvents, maxBytes, n, Total(events[..n])))
    decreases |events| - n
  {
    if n < |events| {
      TakeOneMore(events, n);
      if n < maxEvents && (n == 0 || Total(events[..n + 1]) <= maxBytes) {
        PrefixFrom(events, maxEvents, maxBytes, n + 1);
      }
    }
  }

  lemma LongestPrefixIsUnique(events: seq<Record>, maxEvents: nat, maxBytes: nat, m: nat, n: nat)
    requires IsLongestPrefix(events, maxEvents, maxBytes, m) && IsLongestPrefix(events, maxEvents, maxBytes, n)
    ensures m == n
  {
    if m < n { TotalGrows(events, m + 1, n); }
    if n < m { TotalGrows(events, n + 1, m); }
  }

  function EventLimit(maxEvents: int): nat {
    if maxEvents <= 0 || maxEvents > MAX_BATCH_EVENTS then MAX_BATCH_EVENTS else maxEvents
  }

  function ByteLimit(maxBytes: int): nat {
    if maxBytes <= 0 || maxBytes > MAX_EXPANDED_BYTES then MAX_EXPANDED_BYTES else maxBytes
  }

  function DecodeAll(codec: Codec, records: seq<Record>): Option<seq<Event>> {
    if records == [] then Some([])
    else
      match codec.decode(records[|records| - 1].value)
      case None => None
      case Some(e) =>
        match DecodeAll(codec, records[..|records| - 1])
        case None => None
        case Some(events) => Some(events + [e])
  }

  /** None when a queued record does not decode. */
  function TakeBatch(db: Db, codec: Codec, maxEvents: int, maxBytes: int): Option<Batch> {
    var n := PrefixLength(db.events, EventLimit(maxEvents), ByteLimit(maxBytes), 0, 0);
    match DecodeAll(codec, db.events[..n])
    case None => None
    case Some(events) =>
      if events == [] then Some(Batch(db.streamId, 0, 0, []))
      else Some(Batch(db.streamId, events[0].sequence, events[|events| - 1].sequence, events))
  }

  lemma DecodeOneMore(codec: Codec, records: seq<Record>, r: Record, e: Event)
    requires codec.decode(r.value) == Some(e)
    ensures DecodeAll(codec, records + [r]) == match DecodeAll(codec, records)
                                               case None => None
                                               case Some(events) => Some(events + [e])
  {
    assert (records + [r])[..|records|] == records;
  }

  lemma QueueTakeOne(codec: Codec, history: seq<Event>, from: nat, n: nat)
    requires 0 < n && from + n <= |history|
    ensures var q := Queue(codec, history, from);
            q[..n] == q[..n - 1] + [Record(from + n, codec.encode(history[from + n - 1]))]
  {
    var q := Queue(codec, history, from);
    hide Queue;
    assert q[n - 1] == Record(from + n, codec.encode(history[from + n - 1]));
  }

  lemma {:induction false} DecodesQueue(codec: Codec, history: seq<Event>, from: nat, n: nat)
    requires Faithful(codec) && from + n <= |history|
    ensures DecodeAll(codec, Queue(codec, history, from)[..n]) == Some(history[from..from + n])
    decreases n
  {
    hide DecodeAll, Queue;
    var q := Queue(codec, history, from);
    if n > 0 {
      var e := history[from + n - 1];
      DecodesQueue(codec, history, from, n - 1);
      QueueTakeOne(codec, history, from, n);
      DecodeOneMore(codec, q[..n - 1], Record(from + n, codec.encode(e)), e);
      assert history[from..from + n] == history[from..from + n - 1] + [e];
    } else {
      NothingDecoded(codec);
      assert q[..0] == [];
    }
  }

  lemma NothingDecoded(codec: Codec)
    ensures DecodeAll(codec, []) == Some([])
  {
  }

  /** A batch is the longest allowed prefix of what was accepted and is not acknowledged yet. */
  lemma BatchIsLongestPrefix(db: Db, limits: Limits, codec: Codec, history: seq<Event>, maxEvents: int, maxBytes: int)
    requires Invariant(db, limits, codec, history) && Faithful(codec)
    ensures var b := TakeBatch(db, codec, maxEvents, maxBytes);
            && b.Some? && b.value.streamId == db.streamId
            && IsLongestPrefix(db.events, if 1 <= maxEvents <= 500 then maxEvents else 500,
                               if 1 <= maxBytes <= 4194304 then maxBytes else 4194304, |b.value.events|)
            && b.value.events == history[db.acked..db.acked + |b.value.events|]
            && (b.value.events != [] <==> db.acked < |history|)
            && (b.value.events != [] ==> b.value.first == db.acked + 1 && b.value.last == db.acked + |b.value.events|)
  {
    hide Queue, Total, PrefixLength;
    assert Total(db.events[..0]) == 0 by { TotalOfNothing(db.events); }
    PrefixFrom(db.events, EventLimit(maxEvents), ByteLimit(maxBytes), 0);
    var n := PrefixLength(db.events, EventLimit(maxEvents), ByteLimit(maxBytes), 0, 0);
    DecodesQueue(codec, history, db.acked, n);
  }

  lemma TotalOfNothing(events: seq<Record>)
    ensures Total(events[..0]) == 0
  {
  }
}
