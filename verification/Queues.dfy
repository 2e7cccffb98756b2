/** One queue of the in-memory store as a value, and what each operation makes of it
    (packages/store-memory/src/MemoryQueue.ts). The class `MemoryQueues.MemoryQueue`
    is proved to implement these functions. */
module Queues {
  import opened Basics
  import opened Messages
  import opened Sorting

  const DEFAULT_VISIBILITY_TIMEOUT_MS := 60 * 1000

  datatype NakExpireBehavior = Retry | MoveToEnd | DecreasePriority(amount: int)

  datatype QueueOptions = QueueOptions(
    delayMs: Option<int>,
    deadLetterQueueName: Option<string>,
    deadLetterTopicName: Option<string>,
    visibilityTimeoutMs: Option<int>,
    receiveMessageWaitTimeMs: Option<int>,
    messageRetentionPeriodMs: Option<int>,
    expiresMs: Option<int>,
    maxReceiveCount: Option<int>,
    maxMessageSize: Option<int>,
    nakExpireBehavior: Option<NakExpireBehavior>,
    tags: Option<Attributes>)
  {
    function Tags(): Attributes {
      if tags.Some? then tags.value else map[]
    }

    function Behavior(): NakExpireBehavior {
      if nakExpireBehavior.Some? then nakExpireBehavior.value else Retry
    }

    /** The receive loop passes over a message that used up its deliveries. */
    predicate UsedUp(m: Msg) {
      maxReceiveCount.Some? && m.receiveCount >= maxReceiveCount.value
    }

    /** What polling calls exhausted; a limit of zero never counts here. */
    predicate PollExhausts(m: Msg) {
      maxReceiveCount.Some? && maxReceiveCount.value != 0 && m.receiveCount >= maxReceiveCount.value
    }

    predicate TooLarge(body: string) {
      maxMessageSize.Some? && maxMessageSize.value != 0 && |body| > maxMessageSize.value
    }

    function RetainUntil(now: Instant): Option<Instant> {
      if messageRetentionPeriodMs.None? then None else Some(now + messageRetentionPeriodMs.value)
    }
  }

  datatype SendOptions = SendOptions(
    priority: Option<int>,
    attributes: Option<Attributes>,
    delayMs: Option<int>,
    deduplicationId: Option<string>,
    lastNakReason: Option<string>)

  datatype Queue = Queue(
    name: string,
    created: Instant,
    lastModified: Instant,
    options: QueueOptions,
    expiresMs: Option<int>,
    expiresAt: Option<Instant>,
    paused: bool,
    messages: seq<Msg>)

  function Deadline(expiresMs: Option<int>, now: Instant, otherwise: Option<Instant>): Option<Instant> {
    if expiresMs.Some? then Some(now + expiresMs.value) else otherwise
  }

  function NewQueue(name: string, o: QueueOptions, now: Instant): Queue {
    Queue(name, now, now, o, o.expiresMs, Deadline(o.expiresMs, now, None), false, [])
  }

  function Reconfigure(q: Queue, o: QueueOptions, now: Instant): Queue {
    q.(lastModified := now,
       options := o,
       expiresMs := if o.expiresMs.Some? then o.expiresMs else q.expiresMs,
       expiresAt := Deadline(o.expiresMs, now, q.expiresAt))
  }

  predicate Expired(q: Queue, now: Instant) {
    q.expiresAt.Some? && now > q.expiresAt.value
  }

  function Touch(q: Queue, now: Instant): Queue {
    q.(expiresAt := Deadline(q.expiresMs, now, q.expiresAt))
  }

  // ---- looking messages up

  function HasId(id: Id): Msg -> bool { (m: Msg) => m.id == id }

  function HasHandle(h: Id): Msg -> bool { (m: Msg) => m.receiptHandle == Some(h) }

  function Not(p: Msg -> bool): Msg -> bool { (m: Msg) => !p(m) }

  /** The index `Array.prototype.find` stops at. */
  function Find(ms: seq<Msg>, p: Msg -> bool): (r: Option<nat>)
    ensures r.Some? ==> r.value < |ms| && p(ms[r.value])
    ensures r.Some? ==> forall j | 0 <= j < r.value :: !p(ms[j])
    ensures r.None? ==> forall m | m in ms :: !p(m)
  {
    if ms == [] then None
    else if p(ms[0]) then Some(0)
    else match Find(ms[1..], p) case None => None case Some(i) => Some(i + 1)
  }

  function IsAvailable(now: Instant): Msg -> bool { (m: Msg) => m.Available(now) }

  function IsDelayed(now: Instant): Msg -> bool { (m: Msg) => m.Delayed(now) }

  function IsNotVisible(now: Instant): Msg -> bool { (m: Msg) => m.NotVisible(now) }

  // ---- sending

  /** A message no receiver holds or ever held a handle of, with this deduplication id. */
  predicate IsDuplicate(ms: seq<Msg>, dedup: string) {
    exists m | m in ms :: m.receiptHandle.None? && m.deduplicationId == Some(dedup)
  }

  function SentMsg(q: Queue, id: Id, body: string, o: SendOptions, now: Instant): Msg {
    var delay := if o.delayMs.Some? then o.delayMs else q.options.delayMs;
    NewMsg(id, body,
           if o.attributes.Some? then o.attributes.value else map[],
           if o.priority.Some? then o.priority.value else 0,
           now,
           if delay.None? then None else Some(now + delay.value),
           q.options.RetainUntil(now),
           o.lastNakReason,
           o.deduplicationId)
  }

  function SendError(q: Queue, id: Id, body: string, o: SendOptions): Option<Error> {
    if exists m | m in q.messages :: m.id == id then Some(DuplicateId)
    else if o.deduplicationId.Some? && o.deduplicationId.value != "" && IsDuplicate(q.messages, o.deduplicationId.value)
    then Some(DuplicateMessage)
    else if q.options.TooLarge(body) then Some(MessageTooLarge)
    else None
  }

  function Send(q: Queue, id: Id, body: string, o: SendOptions, now: Instant): Result<Queue> {
    var e := SendError(q, id, body, o);
    if e.Some? then Err(e.value)
    else Ok(q.(messages := q.messages + [SentMsg(q, id, body, o, now)]))
  }

  // ---- receiving

  predicate CanReceive(o: QueueOptions, m: Msg, now: Instant) {
    !o.UsedUp(m) && m.Available(now)
  }

  datatype Pass = Pass(messages: seq<Msg>, delivered: seq<Msg>)

  /** One pass of the receive loop over the sorted messages: every receivable message is
      leased with the next fresh handle, until `room` have been handed out. A room that
      is not positive never fills up. */
  function ScanList(o: QueueOptions, ms: seq<Msg>, now: Instant, deadline: Instant, room: int, nid: Id): (r: Pass)
    ensures |r.messages| == |ms|
    ensures |r.delivered| <= |ms|
  {
    if ms == [] then Pass([], [])
    else if !CanReceive(o, ms[0], now) then
      var r := ScanList(o, ms[1..], now, deadline, room, nid);
      Pass([ms[0]] + r.messages, r.delivered)
    else
      var m := ms[0].MarkReceived(deadline, now, nid);
      if room == 1 then Pass([m] + ms[1..], [m])
      else
        var r := ScanList(o, ms[1..], now, deadline, room - 1, nid + 1);
        Pass([m] + r.messages, [m] + r.delivered)
  }

  /** The same pass as the loop runs it: updating the list at index `i` and collecting in `got`. */
  function ScanFrom(o: QueueOptions, ms: seq<Msg>, i: nat, now: Instant, deadline: Instant, room: int, nid: Id,
                    got: seq<Msg>): Pass
    decreases |ms| - i
  {
    if i >= |ms| then Pass(ms, got)
    else if !CanReceive(o, ms[i], now) then ScanFrom(o, ms, i + 1, now, deadline, room, nid, got)
    else
      var m := ms[i].MarkReceived(deadline, now, nid);
      if room == 1 then Pass(ms[i := m], got + [m])
      else ScanFrom(o, ms[i := m], i + 1, now, deadline, room - 1, nid + 1, got + [m])
  }

  lemma {:induction false} ScanFromIsScanList(o: QueueOptions, ms: seq<Msg>, i: nat, now: Instant, deadline: Instant,
                                              room: int, nid: Id, got: seq<Msg>)
    requires i <= |ms|
    ensures var rest := ScanList(o, ms[i..], now, deadline, room, nid);
            ScanFrom(o, ms, i, now, deadline, room, nid, got) == Pass(ms[..i] + rest.messages, got + rest.delivered)
    decreases |ms| - i
  {
    if i == |ms| {
      assert ms[..i] + [] == ms && got + [] == got;
    } else {
      assert ms[i..][1..] == ms[i + 1..];
      if !CanReceive(o, ms[i], now) {
        ScanFromIsScanList(o, ms, i + 1, now, deadline, room, nid, got);
        var rest := ScanList(o, ms[i + 1..], now, deadline, room, nid);
        assert ms[..i + 1] + rest.messages == ms[..i] + ([ms[i]] + rest.messages);
      } else {
        var m := ms[i].MarkReceived(deadline, now, nid);
        var ms' := ms[i := m];
        assert ms'[..i] == ms[..i] && ms'[i + 1..] == ms[i + 1..];
        if room == 1 {
          assert ms' == ms[..i] + ([m] + ms[i + 1..]);
        } else {
          ScanFromIsScanList(o, ms', i + 1, now, deadline, room - 1, nid + 1, got + [m]);
          var rest := ScanList(o, ms[i + 1..], now, deadline, room - 1, nid + 1);
          assert ms'[..i + 1] + rest.messages == ms[..i] + ([m] + rest.messages);
          assert (got + [m]) + rest.delivered == got + ([m] + rest.delivered);
        }
      }
    }
  }

  lemma ScanFromStart(o: QueueOptions, ms: seq<Msg>, now: Instant, deadline: Instant, room: int, nid: Id)
    ensures ScanFrom(o, ms, 0, now, deadline, room, nid, []) == ScanList(o, ms, now, deadline, room, nid)
  {
    ScanFromIsScanList(o, ms, 0, now, deadline, room, nid, []);
    var rest := ScanList(o, ms, now, deadline, room, nid);
    assert ms[0..] == ms && ms[..0] + rest.messages == rest.messages && [] + rest.delivered == rest.delivered;
  }

  function VisibilityTimeout(q: Queue, visibilityTimeoutMs: Option<int>): int {
    if visibilityTimeoutMs.Some? then visibilityTimeoutMs.value
    else if q.options.visibilityTimeoutMs.Some? then q.options.visibilityTimeoutMs.value
    else DEFAULT_VISIBILITY_TIMEOUT_MS
  }

  datatype Receipt = Receipt(queue: Queue, delivered: seq<Msg>)

  function Scan(q: Queue, now: Instant, visibilityTimeoutMs: Option<int>, room: int, nid: Id): Receipt {
    var t := Touch(q, now);
    if q.paused then Receipt(t, [])
    else
      var r := ScanList(q.options, Sort(q.messages), now, now + VisibilityTimeout(q, visibilityTimeoutMs), room, nid);
      Receipt(t.(messages := r.messages), r.delivered)
  }

  // ---- reading

  function Peekable(includeNotVisible: bool, includeDelayed: bool, now: Instant): Msg -> bool {
    (m: Msg) => (includeNotVisible || !m.NotVisible(now)) && (includeDelayed || !m.Delayed(now))
  }

  function Peek(q: Queue, includeNotVisible: bool, includeDelayed: bool, max: int, now: Instant): seq<Msg> {
    First(Filter(Sort(q.messages), Peekable(includeNotVisible, includeDelayed, now)), max)
  }

  function SortQueue(q: Queue): Queue {
    q.(messages := Sort(q.messages))
  }

  // ---- polling

  datatype Fate = Stays(m: Msg) | Drops | Leaves(m: Msg)

  function Penalised(o: QueueOptions, m: Msg, now: Instant): Msg {
    match o.Behavior()
    case Retry => m
    case MoveToEnd => m.(orderTime := now)
    case DecreasePriority(amount) => m.(priority := m.priority - amount)
  }

  /** What a poll does to one message. */
  function FateOf(o: QueueOptions, m: Msg, now: Instant): Fate {
    if m.OverRetained(now) then Drops
    else if m.LeaseOver(now) then
      var c := m.(expiresAt := None);
      if o.PollExhausts(m) then Leaves(c) else Stays(Penalised(o, c, now))
    else Stays(m)
  }

  function Kept(o: QueueOptions, ms: seq<Msg>, now: Instant): (r: seq<Msg>)
    ensures |r| <= |ms|
  {
    if ms == [] then []
    else match FateOf(o, ms[0], now)
      case Stays(m) => [m] + Kept(o, ms[1..], now)
      case _ => Kept(o, ms[1..], now)
  }

  function Exhausted(o: QueueOptions, ms: seq<Msg>, now: Instant): (r: seq<Msg>)
    ensures |r| <= |ms|
  {
    if ms == [] then []
    else match FateOf(o, ms[0], now)
      case Leaves(m) => [m] + Exhausted(o, ms[1..], now)
      case _ => Exhausted(o, ms[1..], now)
  }

  function PollQueue(q: Queue, now: Instant): Queue {
    q.(messages := Kept(q.options, q.messages, now))
  }

  // ---- holding, returning and removing

  function UpdateVisibility(q: Queue, handle: Id, expiresAt: Instant): Result<Queue> {
    match Find(q.messages, HasHandle(handle))
    case None => Err(InvalidReceiptHandle)
    case Some(i) => Ok(q.(messages := q.messages[i := q.messages[i].(expiresAt := Some(expiresAt))]))
  }

  function UpdateMessage(q: Queue, id: Id, handle: Option<Id>, u: MessageUpdate, now: Instant): Result<Queue> {
    match Find(q.messages, HasId(id))
    case None => Err(MessageNotFound)
    case Some(i) =>
      if handle.None? && u.visibilityTimeoutMs.Some? then Err(InvalidUpdate)
      else if handle.Some? && q.messages[i].receiptHandle != handle then Err(InvalidReceiptHandle)
      else Ok(q.(messages := q.messages[i := q.messages[i].Update(now, u)]))
  }

  function NakMessage(q: Queue, id: Id, handle: Id, reason: Option<string>, now: Instant): Result<Queue> {
    match Find(q.messages, HasId(id))
    case None => Err(MessageNotFound)
    case Some(i) =>
      if q.messages[i].receiptHandle != Some(handle) then Err(InvalidReceiptHandle)
      else Ok(q.(messages := q.messages[i := q.messages[i].Nak(now, reason)]))
  }

  function DeleteByHandle(q: Queue, handle: Id): Queue {
    q.(messages := Filter(q.messages, Not(HasHandle(handle))))
  }

  /** The delete loop runs backwards and removes as it goes; it throws at the first message
      that has the id but not the handle, after removing those behind it. */
  function DeleteFrom(ms: seq<Msg>, id: Id, handle: Option<Id>): (r: (seq<Msg>, bool))
    ensures |r.0| <= |ms|
  {
    if ms == [] then ([], true)
    else
      var rest := DeleteFrom(ms[1..], id, handle);
      if !rest.1 then ([ms[0]] + rest.0, false)
      else if ms[0].id != id then ([ms[0]] + rest.0, true)
      else if handle.Some? && ms[0].receiptHandle != handle then ([ms[0]] + rest.0, false)
      else rest
  }

  datatype Deletion = Deletion(queue: Queue, error: Option<Error>)

  function DeleteMessage(q: Queue, id: Id, handle: Option<Id>): Deletion {
    var r := DeleteFrom(q.messages, id, handle);
    Deletion(q.(messages := r.0),
             if !r.1 then Some(InvalidReceiptHandle)
             else if |r.0| == |q.messages| then Some(MessageNotFound)
             else None)
  }

  // ---- moving

  function Retained(until: Option<Instant>): Msg -> Msg { (m: Msg) => m.(retainUntil := until) }

  /** The available messages, last one first, with the retention of their new queue. */
  function Movers(ms: seq<Msg>, until: Option<Instant>, now: Instant): seq<Msg> {
    Map(Reverse(Filter(ms, IsAvailable(now))), Retained(until))
  }

  function Remaining(ms: seq<Msg>, now: Instant): seq<Msg> {
    Filter(ms, Not(IsAvailable(now)))
  }
}
