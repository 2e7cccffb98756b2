/** What a send promises of the message it adds and when it is refused, by the options of the queue and
    of the send (packages/store-memory/src/MemoryQueue.ts). */
module Sendings {
  import opened Basics
  import opened Messages
  import opened Queues

  /** The message can be had from this instant on, and not before. */
  ghost predicate AvailableFrom(m: Msg, start: Instant) {
    forall t :: m.Available(t) <==> t >= start
  }

  /** Its own delay counts, also one of zero; without one, that of the queue. */
  ghost predicate DelayedAsAsked(m: Msg, own: Option<int>, queues: Option<int>, now: Instant) {
    match (own, queues)
    case (Some(ms), _) => AvailableFrom(m, now + ms)
    case (None, Some(ms)) => AvailableFrom(m, now + ms)
    case (None, None) => forall t :: m.Available(t)
  }

  ghost predicate RetainedAsAsked(m: Msg, period: Option<int>, now: Instant) {
    match period
    case Some(ms) => forall t :: m.OverRetained(t) <==> t > now + ms
    case None => forall t :: !m.OverRetained(t)
  }

  predicate NeverReceived(m: Msg) {
    m.receiveCount == 0 && m.receiptHandle.None? && m.firstReceiveTime.None? && m.expiresAt.None?
  }

  /** A new message in a queue with options `qo`. */
  ghost predicate AsSent(qo: QueueOptions, m: Msg, id: Id, body: string, o: SendOptions, now: Instant) {
    && m.id == id && m.body == body && NeverReceived(m)
    && DelayedAsAsked(m, o.delayMs, qo.delayMs, now)
    && RetainedAsAsked(m, qo.messageRetentionPeriodMs, now)
    && (match o.priority case Some(p) => m.priority == p case None => m.priority == 0)
    && (match o.attributes case Some(a) => m.attributes == a case None => m.attributes == map[])
    && m.sentTime == now && m.orderTime == now
    && m.lastNakReason == o.lastNakReason && m.deduplicationId == o.deduplicationId
  }

  lemma SentIsAsSent(q: Queue, id: Id, body: string, o: SendOptions, now: Instant)
    ensures AsSent(q.options, SentMsg(q, id, body, o, now), id, body, o, now)
  {
  }

  /** A send that succeeds puts one such message behind the others and changes nothing else. */
  lemma SendExactly(q: Queue, id: Id, body: string, o: SendOptions, now: Instant)
    requires Send(q, id, body, o, now).Ok?
    ensures var q', n := Send(q, id, body, o, now).value, |q.messages|;
            && |q'.messages| == n + 1 && q'.messages[..n] == q.messages && q' == q.(messages := q'.messages)
            && AsSent(q.options, q'.messages[n], id, body, o, now)
  {
    SentIsAsSent(q, id, body, o, now);
  }

  /** A send is refused exactly if the id is taken, or a message that no receiver holds or held has the
      deduplication id, unless that is empty, or the body is longer than a limit other than zero; the
      first of these decides the error. */
  lemma RefusedExactly(q: Queue, id: Id, body: string, o: SendOptions, now: Instant)
    ensures var r := Send(q, id, body, o, now);
            var taken := exists m | m in q.messages :: m.id == id;
            var repeated := exists m | m in q.messages ::
                m.receiptHandle.None? && m.deduplicationId.Some? && m.deduplicationId.value != ""
                && m.deduplicationId == o.deduplicationId;
            var long := match q.options.maxMessageSize case Some(max) => max != 0 && |body| > max case None => false;
            && (r == Err(DuplicateId) <==> taken)
            && (r == Err(DuplicateMessage) <==> !taken && repeated)
            && (r == Err(MessageTooLarge) <==> !taken && !repeated && long)
            && (r.Ok? <==> !taken && !repeated && !long)
  {
  }
}
