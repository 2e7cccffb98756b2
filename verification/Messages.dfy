/** A message of the in-memory store: its value, and the object whose fields the store
    updates in place (packages/store-memory/src/MemoryQueueMessage.ts). */
module Messages {
  import opened Basics

  type Attributes = map<string, string>

  /** What a message holds at one moment. */
  datatype Msg = Msg(
    id: Id,
    body: string,
    attributes: Attributes,
    priority: int,
    expiresAt: Option<Instant>,
    retainUntil: Option<Instant>,
    receiveCount: nat,
    receiptHandle: Option<Id>,
    firstReceiveTime: Option<Instant>,
    delayUntil: Option<Instant>,
    sentTime: Instant,
    orderTime: Instant,
    lastNakReason: Option<string>,
    deduplicationId: Option<string>)
  {
    predicate Delayed(now: Instant) {
      delayUntil.Some? && now < delayUntil.value
    }

    /** Held by a receiver whose deadline has not passed yet. */
    predicate Leased(now: Instant) {
      expiresAt.Some? && expiresAt.value >= now
    }

    predicate Available(now: Instant) {
      !Leased(now) && !Delayed(now)
    }

    predicate NotVisible(now: Instant) {
      !Available(now) && !Delayed(now)
    }

    /** The lease ran out strictly before `now`. */
    predicate LeaseOver(now: Instant) {
      expiresAt.Some? && now > expiresAt.value
    }

    predicate OverRetained(now: Instant) {
      retainUntil.Some? && now > retainUntil.value
    }

    function MarkReceived(deadline: Instant, now: Instant, handle: Id): Msg {
      this.(expiresAt := Some(deadline),
            receiptHandle := Some(handle),
            firstReceiveTime := if firstReceiveTime.None? then Some(now) else firstReceiveTime,
            receiveCount := receiveCount + 1)
    }

    function Nak(now: Instant, reason: Option<string>): Msg {
      this.(expiresAt := Some(now - 1), lastNakReason := reason, receiptHandle := None)
    }

    function Update(now: Instant, u: MessageUpdate): Msg {
      this.(priority := if u.priority.Some? then u.priority.value else priority,
            attributes := if u.attributes.Some? then u.attributes.value else attributes,
            expiresAt := if u.visibilityTimeoutMs.Some? then Some(now + u.visibilityTimeoutMs.value) else expiresAt)
    }
  }

  datatype MessageUpdate = MessageUpdate(
    priority: Option<int>,
    attributes: Option<Attributes>,
    visibilityTimeoutMs: Option<int>)

  /** A message as its constructor leaves it: never received, in send order. */
  function NewMsg(id: Id, body: string, attributes: Attributes, priority: int, sentTime: Instant,
                  delayUntil: Option<Instant>, retainUntil: Option<Instant>,
                  lastNakReason: Option<string>, deduplicationId: Option<string>): Msg
  {
    Msg(id, body, attributes, priority, None, retainUntil, 0, None, None, delayUntil,
        sentTime, sentTime, lastNakReason, deduplicationId)
  }

  /** The sign convention of a JavaScript comparator: negative when `a` goes first. */
  function Compare(a: Msg, b: Msg): int {
    if b.priority - a.priority != 0 then b.priority - a.priority else a.orderTime - b.orderTime
  }

  class MemoryQueueMessage {
    const id: Id
    const body: string
    var attributes: Attributes
    var priority: int
    var expiresAt: Option<Instant>
    var retainUntil: Option<Instant>
    var receiveCount: nat
    var receiptHandle: Option<Id>
    var firstReceiveTime: Option<Instant>
    const delayUntil: Option<Instant>
    const sentTime: Instant
    var orderTime: Instant
    var lastNakReason: Option<string>
    const deduplicationId: Option<string>

    function View(): Msg
      reads this
    {
      Msg(id, body, attributes, priority, expiresAt, retainUntil, receiveCount, receiptHandle,
          firstReceiveTime, delayUntil, sentTime, orderTime, lastNakReason, deduplicationId)
    }

    constructor (id: Id, body: string, attributes: Attributes, priority: int, sentTime: Instant,
                 delayUntil: Option<Instant>, retainUntil: Option<Instant>,
                 lastNakReason: Option<string>, deduplicationId: Option<string>)
      ensures View() == NewMsg(id, body, attributes, priority, sentTime, delayUntil, retainUntil,
                               lastNakReason, deduplicationId)
    {
      this.id, this.body, this.attributes := id, body, attributes;
      this.sentTime, this.orderTime := sentTime, sentTime;
      this.priority := priority;
      this.delayUntil := delayUntil;
      this.lastNakReason := lastNakReason;
      this.retainUntil := retainUntil;
      this.deduplicationId := deduplicationId;
      this.expiresAt, this.receiptHandle, this.firstReceiveTime := None, None, None;
      this.receiveCount := 0;
    }

    method MarkReceived(newExpiresTime: Instant, now: Instant, ids: IdSource) returns (received: Msg)
      modifies this, ids
      ensures View() == old(View()).MarkReceived(newExpiresTime, now, old(ids.next))
      ensures received == View()
      ensures ids.next == old(ids.next) + 1
    {
      expiresAt := Some(newExpiresTime);
      var handle := ids.CreateId();
      receiptHandle := Some(handle);
      if firstReceiveTime.None? {
        firstReceiveTime := Some(now);
      }
      receiveCount := receiveCount + 1;
      received := View();
    }

    predicate IsAvailable(now: Instant)
      reads this
      ensures IsAvailable(now) == View().Available(now)
    {
      if expiresAt.Some? && expiresAt.value >= now then false else !IsDelayed(now)
    }

    predicate IsDelayed(now: Instant)
      reads this
      ensures IsDelayed(now) == View().Delayed(now)
    {
      delayUntil.Some? && now < delayUntil.value
    }

    predicate IsNotVisible(now: Instant)
      reads this
      ensures IsNotVisible(now) == View().NotVisible(now)
    {
      !IsAvailable(now) && !IsDelayed(now)
    }

    function CompareTo(other: MemoryQueueMessage): (d: int)
      reads this, other
      ensures d == Compare(View(), other.View())
    {
      var priorityDiff := other.priority - priority;
      if priorityDiff != 0 then priorityDiff else orderTime - other.orderTime
    }

    method Update(now: Instant, u: MessageUpdate)
      modifies this
      ensures View() == old(View()).Update(now, u)
    {
      if u.priority.Some? {
        priority := u.priority.value;
      }
      if u.attributes.Some? {
        attributes := u.attributes.value;
      }
      if u.visibilityTimeoutMs.Some? {
        expiresAt := Some(now + u.visibilityTimeoutMs.value);
      }
    }

    method Nak(now: Instant, reason: Option<string>)
      modifies this
      ensures View() == old(View()).Nak(now, reason)
    {
      expiresAt := Some(now - 1);
      lastNakReason := reason;
      receiptHandle := None;
    }
  }
}
