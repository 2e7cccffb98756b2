/** Whose receivers an operation signals: `sendMessage` signals those of its queue when it succeeds, be
    it for a send, a publish or a dead letter (packages/store-memory/src/MemoryQueue.ts). */
module Wakings {
  import opened Basics
  import opened Messages
  import opened Queues
  import opened Stores
  import opened Triggers

  // ---- the queues sent to

  function IfSent(n: string, sent: bool): seq<string> { if sent then [n] else [] }

  /** The queue, if it is there and takes the message. */
  function SendWakes(s: Store, n: string, id: Id, body: string, o: SendOptions): seq<string> {
    IfSent(n, n in s.queues && SendError(s.queues[n], id, body, o).None?)
  }

  /** The queues of the subscriptions up to the first that refuses its copy. */
  function PublishEachWakes(s: Store, subs: seq<Subscription>, body: string, o: SendOptions, now: Instant): seq<string>
    decreases |subs|
  {
    if subs == [] then []
    else
      var r := SendTo(FreshId(s), subs[0].queueName, s.nextId, body, o, now);
      if r.error.Some? then [] else [subs[0].queueName] + PublishEachWakes(r.store, subs[1..], body, o, now)
  }

  function PublishToWakes(s: Store, subs: seq<Subscription>, body: string, o: SendOptions, now: Instant): seq<string> {
    if exists i | 0 <= i < |subs| :: subs[i].queueName !in s.queues then []
    else PublishEachWakes(s, subs, body, o, now)
  }

  function PublishWakes(s: Store, t: string, body: string, o: SendOptions, now: Instant): seq<string> {
    if t !in s.topics then [] else PublishToWakes(s, s.topics[t].subscriptions, body, o, now)
  }

  function ForwardSendWakes(s: Store, o: QueueOptions, m: Msg): seq<string> {
    if Named(o.deadLetterQueueName) then SendWakes(s, o.deadLetterQueueName.value, m.id, m.body, DeadLetterOptions(m))
    else []
  }

  function ForwardOneWakes(s: Store, o: QueueOptions, m: Msg, now: Instant): seq<string> {
    var d, t := o.deadLetterQueueName, o.deadLetterTopicName;
    var r := if Named(d) then SendTo(s, d.value, m.id, m.body, DeadLetterOptions(m), now) else Done(s);
    ForwardSendWakes(s, o, m)
    + (if r.error.Some? || !Named(t) then [] else PublishWakes(r.store, t.value, m.body, DeadLetterOptions(m), now))
  }

  function ForwardAllWakes(s: Store, o: QueueOptions, ms: seq<Msg>, now: Instant): seq<string>
    decreases |ms|
  {
    if ms == [] then []
    else
      var r := ForwardOne(s, o, ms[0], now);
      ForwardOneWakes(s, o, ms[0], now) + if r.error.Some? then [] else ForwardAllWakes(r.store, o, ms[1..], now)
  }

  /** The dead-letter queue and topic named in these options exist. */
  predicate HasTargets(s: Store, o: QueueOptions) {
    && (Named(o.deadLetterQueueName) ==> o.deadLetterQueueName.value in s.queues)
    && (Named(o.deadLetterTopicName) ==> o.deadLetterTopicName.value in s.topics)
  }

  function DeadLetterWakes(s: Store, o: QueueOptions, ms: seq<Msg>, now: Instant): seq<string> {
    if (Named(o.deadLetterQueueName) || Named(o.deadLetterTopicName)) && HasTargets(s, o)
    then ForwardAllWakes(s, o, ms, now)
    else []
  }

  function PollOneWakes(s: Store, n: string, now: Instant): seq<string>
    requires n in s.queues
  {
    var q := s.queues[n];
    DeadLetterWakes(PutQueue(s, n, PollQueue(q, now)), q.options, Reverse(Exhausted(q.options, q.messages, now)), now)
  }

  function PollQueuesWakes(s: Store, order: seq<string>, now: Instant): seq<string>
    decreases |order|
  {
    if order == [] then []
    else if order[0] !in s.queues then PollQueuesWakes(s, order[1..], now)
    else
      var r := PollOne(s, order[0], now);
      PollOneWakes(s, order[0], now) + if r.error.Some? then [] else PollQueuesWakes(r.store, order[1..], now)
  }

  /** The queues an operation sends to, in order. */
  function Wakes(s: Store, op: Op, now: Instant): seq<string> {
    match op
    case Sends(n, body, o) => SendWakes(s, n, s.nextId, body, o)
    case Publishes(t, body, o) => PublishWakes(s, t, body, o, now)
    case Polls(order) => PollQueuesWakes(RemoveExpired(s, now), order, now)
    case _ => []
  }

  // ---- their receivers

  /** What matters to one receiver: the list of its queue, and what its trigger has heard so far. */
  datatype Ear = Ear(list: seq<Trigger>, heard: TriggerState)

  /** The receiver of queue `k` that waits on `t`, after sends to these queues: if its own is among them
      its list is emptied, and it hears of the first message only. */
  function Rung(e: Ear, k: string, t: Trigger, names: seq<string>): Ear {
    if k !in names then e
    else Ear([], if t in e.list then OnTrigger(e.heard, NewQueueMessage(k)) else e.heard)
  }

  lemma RungConcat(e: Ear, k: string, t: Trigger, x: seq<string>, y: seq<string>)
    ensures Rung(e, k, t, x + y) == Rung(Rung(e, k, t, x), k, t, y)
  {
  }
}
