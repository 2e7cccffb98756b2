/** The in-memory broker as a value: its queues and topics, and what each operation of the
    store makes of them (packages/store-memory/src/MemoryStore.ts and MemoryTopic.ts). */
module Stores {
  import opened Basics
  import opened Messages
  import opened Sorting
  import opened Queues

  datatype Subscription = Subscription(id: Id, queueName: string)

  datatype Topic = Topic(name: string, tags: Attributes, subscriptions: seq<Subscription>)

  /** `nextId` is the identifier the next `createId` answers. */
  datatype Store = Store(queues: map<string, Queue>, topics: map<string, Topic>, nextId: Id)

  /** What an operation leaves behind: also when it throws, the state it had reached. */
  datatype Outcome = Outcome(store: Store, delivered: seq<Msg>, error: Option<Error>)

  const EmptyStore := Store(map[], map[], 0)

  function Done(s: Store): Outcome { Outcome(s, [], None) }

  function Fails(s: Store, e: Error): Outcome { Outcome(s, [], Some(e)) }

  function PutQueue(s: Store, n: string, q: Queue): Store {
    s.(queues := s.queues[n := q])
  }

  function FreshId(s: Store): Store {
    s.(nextId := s.nextId + 1)
  }

  /** A name that is present and not the empty string, which JavaScript takes for absent. */
  predicate Named(name: Option<string>) {
    name.Some? && name.value != ""
  }

  // ---- queues and topics

  predicate SameOptions(q: Queue, o: QueueOptions) {
    q.options.(expiresMs := q.expiresMs, nakExpireBehavior := Some(q.options.Behavior()),
               tags := Some(q.options.Tags()))
    == o.(nakExpireBehavior := Some(o.Behavior()), tags := Some(o.Tags()))
  }

  function CreateQueue(s: Store, queueName: string, o: QueueOptions, upsert: bool, now: Instant): Outcome {
    var n := Trim(queueName);
    if n == "" || Some(n) == o.deadLetterQueueName then Fails(s, InvalidQueueName)
    else if !upsert && n in s.queues && !SameOptions(s.queues[n], o) then Fails(s, QueueAlreadyExists)
    else if Named(o.deadLetterQueueName) && o.deadLetterQueueName.value !in s.queues then Fails(s, QueueNotFound)
    else if Named(o.deadLetterTopicName) && o.deadLetterTopicName.value !in s.topics then Fails(s, TopicNotFound)
    else Done(PutQueue(s, n, if n in s.queues then Reconfigure(s.queues[n], o, now) else NewQueue(n, o, now)))
  }

  function DeleteQueue(s: Store, n: string): Outcome {
    if n !in s.queues then Fails(s, QueueNotFound)
    else if exists k | k in s.queues.Keys :: s.queues[k].options.deadLetterQueueName == Some(n)
    then Fails(s, DeadLetterQueueInUse)
    else Done(s.(queues := s.queues - {n}))
  }

  function CreateTopic(s: Store, topicName: string, tags: Option<Attributes>): Outcome {
    var t := Trim(topicName);
    var given := if tags.Some? then tags.value else map[];
    if t == "" then Fails(s, InvalidTopicName)
    else if t in s.topics && s.topics[t].tags != given then Fails(s, TopicAlreadyExists)
    else Done(s.(topics := s.topics[t := Topic(t, given, [])]))
  }

  function DeleteTopic(s: Store, t: string): Outcome {
    if t !in s.topics then Fails(s, TopicNotFound)
    else if exists k | k in s.queues.Keys :: s.queues[k].options.deadLetterTopicName == Some(t)
    then Fails(s, DeadLetterTopicInUse)
    else Done(s.(topics := s.topics - {t}))
  }

  predicate Subscribed(subs: seq<Subscription>, n: string) {
    exists i | 0 <= i < |subs| :: subs[i].queueName == n
  }

  function SubscribeQueue(s: Store, t: string, n: string): Outcome {
    if t !in s.topics then Fails(s, TopicNotFound)
    else if n !in s.queues then Fails(s, QueueNotFound)
    else if Subscribed(s.topics[t].subscriptions, n) then Done(s)
    else
      var topic := s.topics[t];
      var sub := Subscription(s.nextId, n);
      Done(FreshId(s).(topics := s.topics[t := topic.(subscriptions := topic.subscriptions + [sub])]))
  }

  function RemoveSubscription(subs: seq<Subscription>, id: Id): seq<Subscription> {
    if subs == [] then []
    else if subs[0].id == id then subs[1..]
    else [subs[0]] + RemoveSubscription(subs[1..], id)
  }

  predicate HasSubscription(subs: seq<Subscription>, id: Id) {
    exists i | 0 <= i < |subs| :: subs[i].id == id
  }

  /** Topics are searched in the given order; the first that has the subscription loses it. */
  function DeleteSubscription(s: Store, id: Id, order: seq<string>): Outcome {
    if order == [] then Fails(s, SubscriptionNotFound)
    else if order[0] in s.topics && HasSubscription(s.topics[order[0]].subscriptions, id) then
      var topic := s.topics[order[0]];
      Done(s.(topics := s.topics[order[0] := topic.(subscriptions := RemoveSubscription(topic.subscriptions, id))]))
    else DeleteSubscription(s, id, order[1..])
  }

  // ---- one queue at a time

  /** The result of a queue operation, put back into the store. */
  function Put(s: Store, n: string, r: Result<Queue>): Outcome {
    match r case Ok(q) => Done(PutQueue(s, n, q)) case Err(e) => Fails(s, e)
  }

  function SendTo(s: Store, n: string, id: Id, body: string, o: SendOptions, now: Instant): Outcome {
    if n !in s.queues then Fails(s, QueueNotFound)
    else Put(s, n, Send(s.queues[n], id, body, o, now))
  }

  function SendMessage(s: Store, n: string, body: string, o: SendOptions, now: Instant): Outcome {
    if n !in s.queues then Fails(s, QueueNotFound)
    else SendTo(FreshId(s), n, s.nextId, body, o, now)
  }

  function Receive(s: Store, n: string, vis: Option<int>, room: int, now: Instant): Outcome {
    if n !in s.queues then Fails(s, QueueNotFound)
    else
      var r := Scan(s.queues[n], now, vis, room, s.nextId);
      Outcome(PutQueue(s, n, r.queue).(nextId := s.nextId + |r.delivered|), r.delivered, None)
  }

  function Remove(s: Store, n: string, id: Id, handle: Option<Id>): Outcome {
    if n !in s.queues then Fails(s, QueueNotFound)
    else
      var r := DeleteMessage(s.queues[n], id, handle);
      Outcome(PutQueue(s, n, r.queue), [], r.error)
  }

  function Move(s: Store, source: string, target: string, now: Instant): Outcome {
    if source !in s.queues || target !in s.queues then Fails(s, QueueNotFound)
    else
      var ms := s.queues[source].messages;
      var movers := Movers(ms, s.queues[target].options.RetainUntil(now), now);
      var s1 := PutQueue(s, source, s.queues[source].(messages := Remaining(ms, now)));
      var q := s1.queues[target];
      Done(PutQueue(s1, target, q.(messages := q.messages + movers)))
  }

  // ---- publishing

  function PublishEach(s: Store, subs: seq<Subscription>, body: string, o: SendOptions, now: Instant): Outcome
    decreases |subs|
  {
    if subs == [] then Done(s)
    else
      var r := SendTo(FreshId(s), subs[0].queueName, s.nextId, body, o, now);
      if r.error.Some? then r else PublishEach(r.store, subs[1..], body, o, now)
  }

  function PublishTo(s: Store, subs: seq<Subscription>, body: string, o: SendOptions, now: Instant): Outcome {
    if exists i | 0 <= i < |subs| :: subs[i].queueName !in s.queues then Fails(s, QueueNotFound)
    else PublishEach(s, subs, body, o, now)
  }

  function Publish(s: Store, t: string, body: string, o: SendOptions, now: Instant): Outcome {
    if t !in s.topics then Fails(s, TopicNotFound)
    else PublishTo(s, s.topics[t].subscriptions, body, o, now)
  }

  // ---- polling

  function RemoveExpired(s: Store, now: Instant): Store {
    s.(queues := map n | n in s.queues && !Expired(s.queues[n], now) :: s.queues[n])
  }

  function DeadLetterOptions(m: Msg): SendOptions {
    SendOptions(Some(m.priority), Some(m.attributes), None, None, m.lastNakReason)
  }

  /** An exhausted message goes to the dead-letter queue under its own id, then to the
      dead-letter topic under fresh ones. */
  function ForwardOne(s: Store, o: QueueOptions, m: Msg, now: Instant): Outcome {
    var r := if Named(o.deadLetterQueueName)
             then SendTo(s, o.deadLetterQueueName.value, m.id, m.body, DeadLetterOptions(m), now)
             else Done(s);
    if r.error.Some? || !Named(o.deadLetterTopicName) then r
    else Publish(r.store, o.deadLetterTopicName.value, m.body, DeadLetterOptions(m), now)
  }

  function ForwardAll(s: Store, o: QueueOptions, ms: seq<Msg>, now: Instant): Outcome
    decreases |ms|
  {
    if ms == [] then Done(s)
    else
      var r := ForwardOne(s, o, ms[0], now);
      if r.error.Some? then r else ForwardAll(r.store, o, ms[1..], now)
  }

  function DeadLetter(s: Store, o: QueueOptions, ms: seq<Msg>, now: Instant): Outcome {
    if !Named(o.deadLetterQueueName) && !Named(o.deadLetterTopicName) then Done(s)
    else if Named(o.deadLetterQueueName) && o.deadLetterQueueName.value !in s.queues then Fails(s, QueueNotFound)
    else if Named(o.deadLetterTopicName) && o.deadLetterTopicName.value !in s.topics then Fails(s, TopicNotFound)
    else ForwardAll(s, o, ms, now)
  }

  function PollOne(s: Store, n: string, now: Instant): Outcome
    requires n in s.queues
  {
    var q := s.queues[n];
    DeadLetter(PutQueue(s, n, PollQueue(q, now)), q.options, Reverse(Exhausted(q.options, q.messages, now)), now)
  }

  function PollQueues(s: Store, order: seq<string>, now: Instant): Outcome
    decreases |order|
  {
    if order == [] then Done(s)
    else if order[0] !in s.queues then PollQueues(s, order[1..], now)
    else
      var r := PollOne(s, order[0], now);
      if r.error.Some? then r else PollQueues(r.store, order[1..], now)
  }

  /** `order` is the order in which the object of queues lists its values. */
  function Poll(s: Store, order: seq<string>, now: Instant): Outcome {
    PollQueues(RemoveExpired(s, now), order, now)
  }

  // ---- operations and runs

  datatype Op =
    | CreatesQueue(name: string, options: QueueOptions, upsert: bool)
    | DeletesQueue(name: string)
    | Purges(name: string)
    | Pauses(name: string)
    | Resumes(name: string)
    | Sends(name: string, body: string, sendOptions: SendOptions)
    | Receives(name: string, visibilityTimeoutMs: Option<int>, room: int)
    | Peeks(name: string)
    | Looks(name: string)
    | Naks(name: string, id: Id, handle: Id, reason: Option<string>)
    | Extends(name: string, handle: Id, timeMs: int)
    | Updates(name: string, id: Id, maybeHandle: Option<Id>, update: MessageUpdate)
    | Deletes(name: string, id: Id, maybeHandle: Option<Id>)
    | DeletesByHandle(name: string, handle: Id)
    | Moves(name: string, target: string)
    | Polls(order: seq<string>)
    | Publishes(topic: string, body: string, sendOptions: SendOptions)
    | CreatesTopic(topic: string, tags: Option<Attributes>)
    | DeletesTopic(topic: string)
    | Subscribes(topic: string, name: string)
    | Unsubscribes(subscription: Id, order: seq<string>)
    | TimePasses(ms: nat)

  function SetPaused(s: Store, n: string, paused: bool): Outcome {
    if n !in s.queues then Fails(s, QueueNotFound) else Done(PutQueue(s, n, s.queues[n].(paused := paused)))
  }

  /** The list of the queue is replaced. */
  function SetMessages(s: Store, n: string, ms: seq<Msg>): Outcome {
    if n !in s.queues then Fails(s, QueueNotFound) else Done(PutQueue(s, n, s.queues[n].(messages := ms)))
  }

  function MessagesOf(s: Store, n: string): seq<Msg> {
    if n in s.queues then s.queues[n].messages else []
  }

  function PeekAt(s: Store, n: string, now: Instant): Outcome {
    if n !in s.queues then Fails(s, QueueNotFound) else Done(PutQueue(s, n, SortQueue(Touch(s.queues[n], now))))
  }

  function NakIn(s: Store, n: string, id: Id, h: Id, reason: Option<string>, now: Instant): Outcome {
    if n !in s.queues then Fails(s, QueueNotFound) else Put(s, n, NakMessage(s.queues[n], id, h, reason, now))
  }

  function ExtendIn(s: Store, n: string, h: Id, expiresAt: Instant): Outcome {
    if n !in s.queues then Fails(s, QueueNotFound) else Put(s, n, UpdateVisibility(s.queues[n], h, expiresAt))
  }

  function UpdateIn(s: Store, n: string, id: Id, h: Option<Id>, u: MessageUpdate, now: Instant): Outcome {
    if n !in s.queues then Fails(s, QueueNotFound) else Put(s, n, UpdateMessage(s.queues[n], id, h, u, now))
  }

  function DeleteHeld(s: Store, n: string, h: Id): Outcome {
    if n !in s.queues then Fails(s, QueueNotFound) else Done(PutQueue(s, n, DeleteByHandle(s.queues[n], h)))
  }

  function Apply(s: Store, op: Op, now: Instant): Outcome {
    match op
    case CreatesQueue(n, o, upsert) => CreateQueue(s, n, o, upsert, now)
    case DeletesQueue(n) => DeleteQueue(s, n)
    case Purges(n) => SetMessages(s, n, [])
    case Pauses(n) => SetPaused(s, n, true)
    case Resumes(n) => SetPaused(s, n, false)
    case Sends(n, body, o) => SendMessage(s, n, body, o, now)
    case Receives(n, vis, room) => Receive(s, n, vis, room, now)
    case Peeks(n) => PeekAt(s, n, now)
    case Looks(n) => SetMessages(s, n, Sort(MessagesOf(s, n)))
    case Naks(n, id, h, reason) => NakIn(s, n, id, h, reason, now)
    case Extends(n, h, ms) => ExtendIn(s, n, h, now + ms)
    case Updates(n, id, h, u) => UpdateIn(s, n, id, h, u, now)
    case Deletes(n, id, h) => Remove(s, n, id, h)
    case DeletesByHandle(n, h) => DeleteHeld(s, n, h)
    case Moves(n, target) => Move(s, n, target, now)
    case Polls(order) => Poll(s, order, now)
    case Publishes(t, body, o) => Publish(s, t, body, o, now)
    case CreatesTopic(t, tags) => CreateTopic(s, t, tags)
    case DeletesTopic(t) => DeleteTopic(s, t)
    case Subscribes(t, n) => SubscribeQueue(s, t, n)
    case Unsubscribes(id, order) => DeleteSubscription(s, id, order)
    case TimePasses(_) => Done(s)
  }

  datatype World = World(store: Store, now: Instant)

  function Step(w: World, op: Op): World {
    World(Apply(w.store, op, w.now).store, if op.TimePasses? then w.now + op.ms else w.now)
  }

  predicate StepAt(ws: seq<World>, ops: seq<Op>, i: nat) {
    i < |ops| && i + 1 < |ws| && ws[i + 1] == Step(ws[i], ops[i])
  }

  /** A run from an empty store: `ws[i]` is the world in which operation `ops[i]` happens. */
  ghost predicate IsRun(ws: seq<World>, ops: seq<Op>) {
    |ws| == |ops| + 1 && ws[0].store == EmptyStore && forall i | 0 <= i < |ops| :: StepAt(ws, ops, i)
  }

  function DeliveredBy(w: World, op: Op): seq<Msg> {
    Apply(w.store, op, w.now).delivered
  }
}
