/** The store object and its topics (packages/store-memory/src/MemoryStore.ts and MemoryTopic.ts):
    records of queue and topic objects, changed in place. Every method is proved to compute the
    function of `Stores` it stands for. Those that send take any queue `k` and any trigger `t` no other
    queue lists, as ghosts, and say what becomes of the list of the one and what the other hears. */
module MemoryStores {
  import opened Basics
  import opened Messages
  import opened Queues
  import opened Stores
  import opened Triggers
  import opened Wakings
  import MQ = MemoryQueues

  type QueueRecord = map<string, MQ.MemoryQueue>

  /** Each queue is filed under its own name, so no two entries are the same object. */
  ghost predicate Filed(queues: QueueRecord)
    reads queues.Values
  {
    forall n | n in queues :: queues[n].name == n && queues[n].Valid()
  }

  ghost function ViewOf(queues: QueueRecord): map<string, Queue>
    reads queues.Values
  {
    map n | n in queues :: queues[n].View()
  }

  /** The triggers of all receivers that wait on one of the queues. */
  ghost function Waiting(queues: QueueRecord): set<Trigger>
    reads queues.Values`triggers
  {
    set n, t | n in queues && t in queues[n].triggers :: t
  }

  /** No other queue has the trigger in its list. */
  ghost predicate OnlyOn(queues: QueueRecord, k: string, t: Trigger)
    reads queues.Values`triggers
  {
    forall n | n in queues && n != k :: t !in queues[n].triggers
  }

  ghost function EarOf(queues: QueueRecord, k: string, t: Trigger): Ear
    reads queues.Values`triggers, t
  {
    Ear(if k in queues then queues[k].triggers else [], t.View())
  }

  ghost predicate Takes(r: Result<Queue>, e: Option<Error>, before: Queue, after: Queue) {
    match r
    case Ok(q) => e == None && after == q
    case Err(x) => e == Some(x) && after == before
  }

  /** A send to queue `n` that gave this result: what it answered, and the queues before and after it. */
  ghost predicate Sent(r: Result<Queue>, e: Option<Error>, before: map<string, Queue>, n: string,
          after: map<string, Queue>)
  {
    match r
    case Ok(q) => e == None && after == before[n := q]
    case Err(x) => e == Some(x) && after == before
  }

  lemma TakesIsSent(r: Result<Queue>, e: Option<Error>, before: map<string, Queue>, n: string,
                    after: map<string, Queue>)
    requires n in before && after.Keys == before.Keys && Takes(r, e, before[n], after[n])
    requires forall k | k in before && k != n :: after[k] == before[k]
    ensures Sent(r, e, before, n, after)
  {
    assert after == before[n := after[n]];
  }

  /** `sendMessage` on one of the queues; the others stay as they are. */
  method SendAt(queues: QueueRecord, n: string, id: Id, body: string, o: SendOptions, now: Instant, ids: IdSource,
          ghost t: Trigger)
    returns (e: Option<Error>)
    requires n in queues && Filed(queues)
    modifies queues.Values, Waiting(queues), ids
    ensures Filed(queues) && ids.next == old(ids.next)
    ensures forall k | k in queues && k != n ::
        queues[k].View() == old(queues[k].View()) && queues[k].triggers == old(queues[k].triggers)
    ensures Takes(Send(old(queues[n].View()), id, body, o, now), e, old(queues[n].View()), queues[n].View())
    ensures queues[n].triggers == if e.None? then [] else old(queues[n].triggers)
    ensures t.View() == if e.None? && t in old(queues[n].triggers) then OnTrigger(old(t.View()), NewQueueMessage(n))
                        else old(t.View())
  {
    var queue := queues[n];
    assert queue in queues.Values && forall t | t in queue.triggers :: t in Waiting(queues);
    var r := queue.SendMessage(Some(id), body, o, now, ids);
    e := if r.Ok? then None else Some(r.error);
  }

  /** The same of the record as a whole. */
  method SendInto(queues: QueueRecord, n: string, id: Id, body: string, o: SendOptions, now: Instant, ids: IdSource,
          ghost k: string, ghost t: Trigger)
    returns (e: Option<Error>)
    requires n in queues && Filed(queues) && OnlyOn(queues, k, t)
    modifies queues.Values, Waiting(queues), ids
    ensures Filed(queues) && OnlyOn(queues, k, t) && Waiting(queues) <= old(Waiting(queues))
            && ids.next == old(ids.next)
    ensures Sent(Send(old(queues[n].View()), id, body, o, now), e, old(ViewOf(queues)), n, ViewOf(queues))
    ensures EarOf(queues, k, t) == Rung(old(EarOf(queues, k, t)), k, t, IfSent(n, e.None?))
  {
    ghost var views, r := ViewOf(queues), Send(queues[n].View(), id, body, o, now);
    e := SendAt(queues, n, id, body, o, now, ids, t);
    TakesIsSent(r, e, views, n, ViewOf(queues));
  }

  /** An id, and a send under it. */
  method SendNew(queues: QueueRecord, n: string, body: string, o: SendOptions, now: Instant, ids: IdSource,
          ghost k: string, ghost t: Trigger)
    returns (id: Id, e: Option<Error>)
    requires n in queues && Filed(queues) && OnlyOn(queues, k, t)
    modifies queues.Values, Waiting(queues), ids
    ensures Filed(queues) && OnlyOn(queues, k, t) && Waiting(queues) <= old(Waiting(queues))
    ensures id == old(ids.next) && ids.next == old(ids.next) + 1
    ensures Sent(Send(old(queues[n].View()), old(ids.next), body, o, now), e, old(ViewOf(queues)), n, ViewOf(queues))
    ensures EarOf(queues, k, t) == Rung(old(EarOf(queues, k, t)), k, t, IfSent(n, e.None?))
  {
    ghost var views, a := ViewOf(queues), EarOf(queues, k, t);
    id := ids.CreateId();
    assert ViewOf(queues) == views && EarOf(queues, k, t) == a;
    e := SendInto(queues, n, id, body, o, now, ids, k, t);
  }

  class MemoryTopic {
    const name: string
    const tags: Attributes
    var queueSubscriptions: seq<Subscription>

    function View(): Topic
      reads this
    {
      Topic(name, tags, queueSubscriptions)
    }

    constructor (name: string, tags: Attributes)
      ensures View() == Topic(name, tags, [])
    {
      this.name, this.tags, this.queueSubscriptions := name, tags, [];
    }

    /** Answers the id of the subscription, the existing one if there is one. */
    method SubscribeQueue(queueName: string, ids: IdSource) returns (id: Id)
      modifies this, ids
      ensures if Subscribed(old(queueSubscriptions), queueName)
              then queueSubscriptions == old(queueSubscriptions) && ids.next == old(ids.next)
                   && Subscription(id, queueName) in queueSubscriptions
              else queueSubscriptions == old(queueSubscriptions) + [Subscription(id, queueName)]
                   && id == old(ids.next) && ids.next == old(ids.next) + 1
    {
      for i := 0 to |queueSubscriptions|
        invariant forall j | 0 <= j < i :: queueSubscriptions[j].queueName != queueName
      {
        if queueSubscriptions[i].queueName == queueName {
          return queueSubscriptions[i].id;
        }
      }
      id := ids.CreateId();
      queueSubscriptions := queueSubscriptions + [Subscription(id, queueName)];
    }

    /** All queues are looked up before the first message is sent; each message gets an id of its own. */
    method PublishMessage(body: string, queues: QueueRecord, o: SendOptions, now: Instant, ids: IdSource,
            ghost s: Store, ghost k: string, ghost t: Trigger)
      returns (e: Option<Error>)
      requires Filed(queues) && OnlyOn(queues, k, t) && s.queues == ViewOf(queues) && s.nextId == ids.next
      modifies queues.Values, Waiting(queues), ids
      ensures Filed(queues) && OnlyOn(queues, k, t) && Waiting(queues) <= old(Waiting(queues))
      ensures var r := PublishTo(s, queueSubscriptions, body, o, now);
              e == r.error && r.store == Store(ViewOf(queues), s.topics, ids.next)
      ensures EarOf(queues, k, t)
           == Rung(old(EarOf(queues, k, t)), k, t, PublishToWakes(s, queueSubscriptions, body, o, now))
    {
      for i := 0 to |queueSubscriptions|
        invariant forall j | 0 <= j < i :: queueSubscriptions[j].queueName in queues
      {
        if queueSubscriptions[i].queueName !in queues {
          return Some(QueueNotFound);
        }
      }
      e := SendEach(body, queues, o, now, ids, s, k, t);
    }

    method SendEach(body: string, queues: QueueRecord, o: SendOptions, now: Instant, ids: IdSource, ghost s: Store,
            ghost k: string, ghost t: Trigger)
      returns (e: Option<Error>)
      requires Filed(queues) && OnlyOn(queues, k, t) && s.queues == ViewOf(queues) && s.nextId == ids.next
      requires forall i | 0 <= i < |queueSubscriptions| :: queueSubscriptions[i].queueName in queues
      modifies queues.Values, Waiting(queues), ids
      ensures Filed(queues) && OnlyOn(queues, k, t) && Waiting(queues) <= old(Waiting(queues))
      ensures var r := PublishEach(s, queueSubscriptions, body, o, now);
              e == r.error && r.store == Store(ViewOf(queues), s.topics, ids.next)
      ensures EarOf(queues, k, t)
           == Rung(old(EarOf(queues, k, t)), k, t, PublishEachWakes(s, queueSubscriptions, body, o, now))
    {
      ghost var whole := PublishEach(s, queueSubscriptions, body, o, now);
      ghost var rung := Rung(EarOf(queues, k, t), k, t, PublishEachWakes(s, queueSubscriptions, body, o, now));
      assert queueSubscriptions[0..] == queueSubscriptions;
      for i := 0 to |queueSubscriptions|
        invariant Filed(queues) && OnlyOn(queues, k, t) && Waiting(queues) <= old(Waiting(queues))
        invariant PublishEach(Store(ViewOf(queues), s.topics, ids.next), queueSubscriptions[i..], body, o, now) == whole
        invariant rung == Rung(EarOf(queues, k, t), k, t, PublishEachWakes(Store(ViewOf(queues), s.topics, ids.next),
                                                                      queueSubscriptions[i..], body, o, now))
      {
        e := SendFresh(i, body, queues, o, now, ids, Store(ViewOf(queues), s.topics, ids.next), k, t);
        if e.Some? {
          return e;
        }
      }
      return None;
    }

    /** The body of the loop. */
    method SendFresh(i: nat, body: string, queues: QueueRecord, o: SendOptions, now: Instant, ids: IdSource,
            ghost s: Store, ghost k: string, ghost t: Trigger)
      returns (e: Option<Error>)
      requires Filed(queues) && OnlyOn(queues, k, t) && i < |queueSubscriptions|
               && queueSubscriptions[i].queueName in queues
      requires s.queues == ViewOf(queues) && s.nextId == ids.next
      modifies queues.Values, Waiting(queues), ids
      ensures Filed(queues) && OnlyOn(queues, k, t) && Waiting(queues) <= old(Waiting(queues))
      ensures PublishEach(s, queueSubscriptions[i..], body, o, now)
           == Rest(Store(ViewOf(queues), s.topics, ids.next), e, queueSubscriptions[i + 1..], body, o, now)
      ensures Rung(old(EarOf(queues, k, t)), k, t, PublishEachWakes(s, queueSubscriptions[i..], body, o, now))
           == Rung(EarOf(queues, k, t), k, t, RestWakes(Store(ViewOf(queues), s.topics, ids.next), e,
                                                   queueSubscriptions[i + 1..], body, o, now))
    {
      ghost var a := EarOf(queues, k, t);
      var _, x := SendNew(queues, queueSubscriptions[i].queueName, body, o, now, ids, k, t);
      e := x;
      PublishStep(s, queueSubscriptions, i, body, o, now, e, ViewOf(queues), k, t, a,
                  EarOf(queues, k, t));
    }

    method DeleteSubscription(subscriptionId: Id) returns (e: Option<Error>)
      modifies this
      ensures e == if HasSubscription(old(queueSubscriptions), subscriptionId) then None else Some(SubscriptionNotFound)
      ensures queueSubscriptions == RemoveSubscription(old(queueSubscriptions), subscriptionId)
    {
      var index := 0;
      ghost var s0 := queueSubscriptions;
      while index < |queueSubscriptions| && queueSubscriptions[index].id != subscriptionId
        invariant index <= |queueSubscriptions| && queueSubscriptions == s0
        invariant forall j | 0 <= j < index :: s0[j].id != subscriptionId
      {
        index := index + 1;
      }
      RemoveAt(s0, subscriptionId, index);
      if index == |queueSubscriptions| {
        return Some(SubscriptionNotFound);
      }
      queueSubscriptions := MQ.Splice(queueSubscriptions, index);
      return None;
    }
  }

  /** What is left of a publish after one send, unless that failed. */
  function Rest(s: Store, e: Option<Error>, subs: seq<Subscription>, body: string, o: SendOptions,
          now: Instant): Outcome
  {
    if e.Some? then Fails(s, e.value) else PublishEach(s, subs, body, o, now)
  }

  function RestWakes(s: Store, e: Option<Error>, subs: seq<Subscription>, body: string, o: SendOptions,
          now: Instant): seq<string>
  {
    if e.Some? then [] else PublishEachWakes(s, subs, body, o, now)
  }

  lemma PublishStep(s: Store, subs: seq<Subscription>, i: nat, body: string, o: SendOptions, now: Instant,
                    e: Option<Error>, views: map<string, Queue>, k: string, t: Trigger, a: Ear, b: Ear)
    requires i < |subs| && subs[i].queueName in s.queues
    requires Sent(Send(s.queues[subs[i].queueName], s.nextId, body, o, now), e, s.queues, subs[i].queueName, views)
    requires b == Rung(a, k, t, IfSent(subs[i].queueName, e.None?))
    ensures PublishEach(s, subs[i..], body, o, now)
         == Rest(Store(views, s.topics, s.nextId + 1), e, subs[i + 1..], body, o, now)
    ensures Rung(a, k, t, PublishEachWakes(s, subs[i..], body, o, now))
         == Rung(b, k, t, RestWakes(Store(views, s.topics, s.nextId + 1), e, subs[i + 1..], body, o, now))
  {
    assert subs[i..][0] == subs[i] && subs[i..][1..] == subs[i + 1..];
    RungConcat(a, k, t, IfSent(subs[i].queueName, e.None?),
               RestWakes(Store(views, s.topics, s.nextId + 1), e, subs[i + 1..], body, o, now));
  }

  lemma {:induction false} RemoveAt(subs: seq<Subscription>, id: Id, i: nat)
    requires i <= |subs| && (forall j | 0 <= j < i :: subs[j].id != id) && (i < |subs| ==> subs[i].id == id)
    ensures RemoveSubscription(subs, id) == if i < |subs| then MQ.Splice(subs, i) else subs
  {
    if i > 0 {
      RemoveAt(subs[1..], id, i - 1);
    }
  }

  type TopicRecord = map<string, MemoryTopic>

  ghost predicate FiledTopics(topics: TopicRecord) {
    forall t | t in topics :: topics[t].name == t
  }

  ghost function TopicsOf(topics: TopicRecord): map<string, Topic>
    reads topics.Values
  {
    map t | t in topics :: topics[t].View()
  }

  function MovedViews(views: map<string, Queue>, source: string, target: string, now: Instant): map<string, Queue>
    requires source in views && target in views
  {
    var ms := views[source].messages;
    var movers := Movers(ms, views[target].options.RetainUntil(now), now);
    var views1 := views[source := views[source].(messages := Remaining(ms, now))];
    views1[target := views1[target].(messages := views1[target].messages + movers)]
  }

  /** Of the queues looked at so far, those that have not expired are still there. */
  ghost predicate Swept(views: map<string, Queue>, left: set<string>, keys: set<string>, now: Instant) {
    forall k | k in views && k !in left :: k in keys <==> !Expired(views[k], now)
  }

  class MemoryStore {
    var queues: QueueRecord
    var topics: TopicRecord
    const ids: IdSource

    ghost predicate Valid()
      reads this, queues.Values
    {
      Filed(queues) && FiledTopics(topics)
    }

    ghost function View(): Store
      reads this, queues.Values, topics.Values, ids
    {
      Store(ViewOf(queues), TopicsOf(topics), ids.next)
    }

    constructor ()
      ensures Valid() && View() == EmptyStore && fresh(ids)
    {
      queues, topics := map[], map[];
      ids := new IdSource();
    }

    method CreateQueue(name: string, options: QueueOptions, upsert: bool, now: Instant) returns (e: Option<Error>)
      requires Valid()
      modifies this`queues, queues.Values
      ensures Valid()
      ensures var r := Stores.CreateQueue(old(View()), name, options, upsert, now);
              View() == r.store && e == r.error
    {
      var queueName := Trim(name);
      if queueName == "" || Some(queueName) == options.deadLetterQueueName {
        return Some(InvalidQueueName);
      }
      if !upsert && queueName in queues && !SameOptions(queues[queueName].View(), options) {
        return Some(QueueAlreadyExists);
      }
      if Named(options.deadLetterQueueName) && options.deadLetterQueueName.value !in queues {
        return Some(QueueNotFound);
      }
      if Named(options.deadLetterTopicName) && options.deadLetterTopicName.value !in topics {
        return Some(TopicNotFound);
      }
      if queueName in queues {
        UpdateQueue(queueName, options, now);
      } else {
        AddQueue(queueName, options, now);
      }
      return None;
    }

    method UpdateQueue(queueName: string, options: QueueOptions, now: Instant)
      requires Valid() && queueName in queues
      modifies queues.Values
      ensures Valid()
      ensures View() == PutQueue(old(View()), queueName, Reconfigure(old(queues[queueName].View()), options, now))
    {
      ghost var s := View();
      assert queues[queueName] in queues.Values;
      queues[queueName].Update(options, now);
      assert ViewOf(queues) == s.queues[queueName := queues[queueName].View()];
      assert TopicsOf(topics) == s.topics;
    }

    method AddQueue(queueName: string, options: QueueOptions, now: Instant)
      requires Valid() && queueName !in queues
      modifies this`queues
      ensures Valid()
      ensures View() == PutQueue(old(View()), queueName, NewQueue(queueName, options, now))
    {
      ghost var s := View();
      var queue := new MQ.MemoryQueue(queueName, options, now);
      queues := queues[queueName := queue];
      assert ViewOf(queues) == s.queues[queueName := queue.View()];
      assert TopicsOf(topics) == s.topics by {
        assert forall t | t in topics :: topics[t].queueSubscriptions == s.topics[t].subscriptions;
      }
    }

    method DeleteQueue(queueName: string) returns (e: Option<Error>)
      requires Valid()
      modifies this`queues
      ensures Valid()
      ensures var r := Stores.DeleteQueue(old(View()), queueName); View() == r.store && e == r.error
    {
      if queueName !in queues {
        return Some(QueueNotFound);
      }
      ghost var v := ViewOf(queues);
      var left := queues.Keys;
      while left != {}
        invariant left <= queues.Keys
        invariant forall k | k in v && k !in left :: v[k].options.deadLetterQueueName != Some(queueName)
      {
        var k :| k in left;
        assert v[k].options == queues[k].options;
        if queues[k].options.deadLetterQueueName == Some(queueName) {
          return Some(DeadLetterQueueInUse);
        }
        left := left - {k};
      }
      queues := queues - {queueName};
      return None;
    }

    method DeleteTopic(topicName: string) returns (e: Option<Error>)
      requires Valid()
      modifies this`topics
      ensures Valid()
      ensures var r := Stores.DeleteTopic(old(View()), topicName); View() == r.store && e == r.error
    {
      if topicName !in topics {
        return Some(TopicNotFound);
      }
      ghost var v := ViewOf(queues);
      var left := queues.Keys;
      while left != {}
        invariant left <= queues.Keys
        invariant forall k | k in v && k !in left :: v[k].options.deadLetterTopicName != Some(topicName)
      {
        var k :| k in left;
        assert v[k].options == queues[k].options;
        if queues[k].options.deadLetterTopicName == Some(topicName) {
          return Some(DeadLetterTopicInUse);
        }
        left := left - {k};
      }
      topics := topics - {topicName};
      return None;
    }

    method MoveMessages(source: string, target: string, now: Instant) returns (r: Result<nat>)
      requires Valid()
      modifies queues.Values
      ensures Valid()
      ensures var o := Move(old(View()), source, target, now); View() == o.store && (r.Err? <==> o.error.Some?)
      ensures r.Ok? ==> source in old(ViewOf(queues))
      ensures r.Ok? ==> r.value == |Filter(old(ViewOf(queues))[source].messages, IsAvailable(now))|
      ensures r.Err? ==> r.error == QueueNotFound
    {
      if source !in queues || target !in queues {
        return Err(QueueNotFound);
      }
      var n := MoveBetween(source, target, now);
      return Ok(n);
    }

    method MoveBetween(source: string, target: string, now: Instant) returns (n: nat)
      requires Valid() && source in queues && target in queues
      modifies queues.Values
      ensures Valid() && TopicsOf(topics) == old(TopicsOf(topics))
      ensures n == |Filter(old(queues[source].messages), IsAvailable(now))|
      ensures ViewOf(queues) == MovedViews(old(ViewOf(queues)), source, target, now)
    {
      ghost var views := ViewOf(queues);
      assert queues[source] in queues.Values && queues[target] in queues.Values;
      n := queues[source].MoveMessages(queues[target], now);
      ghost var moved := MovedViews(views, source, target, now);
      assert queues[source].View() == moved[source] && queues[target].View() == moved[target];
    }

    method CreateTopic(name: string, tags: Option<Attributes>) returns (e: Option<Error>)
      requires Valid()
      modifies this`topics
      ensures Valid()
      ensures var r := Stores.CreateTopic(old(View()), name, tags); View() == r.store && e == r.error
    {
      var topicName := Trim(name);
      if topicName == "" {
        return Some(InvalidTopicName);
      }
      var given := if tags.Some? then tags.value else map[];
      if topicName in topics && topics[topicName].tags != given {
        return Some(TopicAlreadyExists);
      }
      AddTopic(topicName, given);
      return None;
    }

    /** Takes the place of a topic of that name, whose subscriptions are lost. */
    method AddTopic(topicName: string, tags: Attributes)
      requires Valid()
      modifies this`topics
      ensures Valid()
      ensures View() == old(View()).(topics := old(TopicsOf(topics))[topicName := Topic(topicName, tags, [])])
    {
      ghost var s := View();
      var topic := new MemoryTopic(topicName, tags);
      topics := topics[topicName := topic];
      assert TopicsOf(topics) == s.topics[topicName := topic.View()];
      assert ViewOf(queues) == s.queues;
    }

    /** Answers the id of the subscription, the existing one if there is one. */
    method SubscribeQueue(topicName: string, queueName: string) returns (r: Result<Id>)
      requires Valid()
      modifies topics.Values, ids
      ensures Valid()
      ensures var o := Stores.SubscribeQueue(old(View()), topicName, queueName);
              View() == o.store && o.error == if r.Err? then Some(r.error) else None
      ensures r.Ok? ==> topicName in topics && Subscription(r.value, queueName) in topics[topicName].queueSubscriptions
    {
      if topicName !in topics {
        return Err(TopicNotFound);
      }
      if queueName !in queues {
        return Err(QueueNotFound);
      }
      assert topics[topicName] in topics.Values;
      var id := topics[topicName].SubscribeQueue(queueName, ids);
      return Ok(id);
    }

    method PublishMessage(topicName: string, body: string, o: SendOptions, now: Instant, ghost k: string,
            ghost t: Trigger)
      returns (e: Option<Error>)
      requires Valid() && OnlyOn(queues, k, t)
      modifies queues.Values, Waiting(queues), ids
      ensures Valid() && OnlyOn(queues, k, t) && Waiting(queues) <= old(Waiting(queues))
      ensures var r := Publish(old(View()), topicName, body, o, now); View() == r.store && e == r.error
      ensures EarOf(queues, k, t)
           == Rung(old(EarOf(queues, k, t)), k, t, PublishWakes(old(View()), topicName, body, o, now))
    {
      ghost var s := View();
      if topicName !in topics {
        return Some(TopicNotFound);
      }
      assert s.topics[topicName].subscriptions == topics[topicName].queueSubscriptions;
      e := topics[topicName].PublishMessage(body, queues, o, now, ids, s, k, t);
      assert TopicsOf(topics) == s.topics by {
        assert forall t | t in topics :: topics[t].queueSubscriptions == s.topics[t].subscriptions;
      }
    }

    /** Answers the id of the message. */
    method SendMessage(queueName: string, body: string, o: SendOptions, now: Instant, ghost k: string, ghost t: Trigger)
      returns (r: Result<Id>)
      requires Valid() && OnlyOn(queues, k, t)
      modifies queues.Values, Waiting(queues), ids
      ensures Valid() && OnlyOn(queues, k, t) && Waiting(queues) <= old(Waiting(queues))
      ensures var s := Stores.SendMessage(old(View()), queueName, body, o, now);
              View() == s.store && s.error == if r.Err? then Some(r.error) else None
      ensures r.Ok? ==> r.value == old(ids.next)
      ensures EarOf(queues, k, t)
           == Rung(old(EarOf(queues, k, t)), k, t, SendWakes(old(View()), queueName, old(ids.next), body, o))
    {
      if queueName !in queues {
        return Err(QueueNotFound);
      }
      ghost var s := View();
      var id, e := SendNew(queues, queueName, body, o, now, ids, k, t);
      assert TopicsOf(topics) == s.topics by {
        assert forall t | t in topics :: topics[t].queueSubscriptions == s.topics[t].subscriptions;
      }
      return if e.Some? then Err(e.value) else Ok(id);
    }

    method RemoveExpiredQueues(now: Instant)
      requires Valid()
      modifies this`queues
      ensures Valid() && View() == RemoveExpired(old(View()), now) && Waiting(queues) <= old(Waiting(queues))
      ensures queues.Values <= old(queues.Values)
      ensures forall n | n in queues :: n in old(queues) && queues[n] == old(queues)[n]
    {
      ghost var s := View();
      Sweep(now);
      assert ViewOf(queues) == RemoveExpired(s, now).queues && TopicsOf(topics) == s.topics;
    }

    /** The loop over the queues. */
    method Sweep(now: Instant)
      modifies this`queues
      ensures queues.Keys <= old(queues.Keys) && forall k | k in queues :: queues[k] == old(queues)[k]
      ensures Swept(old(ViewOf(queues)), {}, queues.Keys, now)
    {
      ghost var views, q0 := ViewOf(queues), queues;
      var left := queues.Keys;
      while left != {}
        invariant left <= queues.Keys <= q0.Keys
        invariant forall k | k in queues :: queues[k] == q0[k]
        invariant Swept(views, left, queues.Keys, now)
      {
        var k :| k in left;
        assert queues[k].View() == views[k];
        var expired := queues[k].IsExpired(now);
        if expired {
          queues := queues - {k};
        }
        left := left - {k};
      }
    }

    method ForwardOne(o: QueueOptions, m: Msg, now: Instant, ghost k: string, ghost t: Trigger)
      returns (e: Option<Error>)
      requires Valid() && OnlyOn(queues, k, t)
      requires Named(o.deadLetterQueueName) ==> o.deadLetterQueueName.value in queues
      requires Named(o.deadLetterTopicName) ==> o.deadLetterTopicName.value in topics
      modifies queues.Values, Waiting(queues), ids
      ensures Valid() && OnlyOn(queues, k, t) && Waiting(queues) <= old(Waiting(queues))
      ensures var r := Stores.ForwardOne(old(View()), o, m, now); View() == r.store && e == r.error
      ensures EarOf(queues, k, t) == Rung(old(EarOf(queues, k, t)), k, t, ForwardOneWakes(old(View()), o, m, now))
    {
      ghost var s, a := View(), EarOf(queues, k, t);
      if Named(o.deadLetterQueueName) {
        e := SendUnder(o.deadLetterQueueName.value, m.id, m.body, DeadLetterOptions(m), now, k, t);
        if e.Some? {
          return e;
        }
      }
      if Named(o.deadLetterTopicName) {
        ghost var s1 := View();
        e := PublishMessage(o.deadLetterTopicName.value, m.body, DeadLetterOptions(m), now, k, t);
        RungConcat(a, k, t, ForwardSendWakes(s, o, m),
                   PublishWakes(s1, o.deadLetterTopicName.value, m.body, DeadLetterOptions(m), now));
        return e;
      }
      return None;
    }

    method SendUnder(queueName: string, id: Id, body: string, o: SendOptions, now: Instant, ghost k: string,
            ghost t: Trigger)
      returns (e: Option<Error>)
      requires Valid() && OnlyOn(queues, k, t) && queueName in queues
      modifies queues.Values, Waiting(queues), ids
      ensures Valid() && OnlyOn(queues, k, t) && Waiting(queues) <= old(Waiting(queues))
      ensures var r := SendTo(old(View()), queueName, id, body, o, now); View() == r.store && e == r.error
      ensures EarOf(queues, k, t)
              == Rung(old(EarOf(queues, k, t)), k, t, SendWakes(old(View()), queueName, id, body, o))
    {
      ghost var s := View();
      e := SendInto(queues, queueName, id, body, o, now, ids, k, t);
      assert TopicsOf(topics) == s.topics by {
        assert forall t | t in topics :: topics[t].queueSubscriptions == s.topics[t].subscriptions;
      }
    }

    method ForwardAll(o: QueueOptions, expired: seq<Msg>, now: Instant, ghost k: string, ghost t: Trigger)
      returns (e: Option<Error>)
      requires Valid() && OnlyOn(queues, k, t)
      requires Named(o.deadLetterQueueName) ==> o.deadLetterQueueName.value in queues
      requires Named(o.deadLetterTopicName) ==> o.deadLetterTopicName.value in topics
      modifies queues.Values, Waiting(queues), ids
      ensures Valid() && OnlyOn(queues, k, t) && Waiting(queues) <= old(Waiting(queues))
      ensures var r := Stores.ForwardAll(old(View()), o, expired, now); View() == r.store && e == r.error
      ensures EarOf(queues, k, t) == Rung(old(EarOf(queues, k, t)), k, t, ForwardAllWakes(old(View()), o, expired, now))
    {
      ghost var s := View();
      ghost var rung := Rung(EarOf(queues, k, t), k, t, ForwardAllWakes(s, o, expired, now));
      assert expired[0..] == expired;
      for i := 0 to |expired|
        invariant Valid() && OnlyOn(queues, k, t) && Waiting(queues) <= old(Waiting(queues))
        invariant Stores.ForwardAll(s, o, expired, now) == Stores.ForwardAll(View(), o, expired[i..], now)
        invariant rung == Rung(EarOf(queues, k, t), k, t, ForwardAllWakes(View(), o, expired[i..], now))
      {
        assert expired[i..][0] == expired[i] && expired[i..][1..] == expired[i + 1..];
        ghost var s1, a := View(), EarOf(queues, k, t);
        e := ForwardOne(o, expired[i], now, k, t);
        RungConcat(a, k, t, ForwardOneWakes(s1, o, expired[i], now),
                   if e.Some? then [] else ForwardAllWakes(View(), o, expired[i + 1..], now));
        if e.Some? {
          return e;
        }
      }
      return None;
    }

    /** One turn of the loop of `pollQueues`. */
    method PollOne(name: string, now: Instant, ghost k: string, ghost t: Trigger) returns (e: Option<Error>)
      requires Valid() && OnlyOn(queues, k, t) && name in queues
      modifies queues.Values, Waiting(queues), ids
      ensures Valid() && OnlyOn(queues, k, t) && Waiting(queues) <= old(Waiting(queues))
      ensures var r := Stores.PollOne(old(View()), name, now); View() == r.store && e == r.error
      ensures EarOf(queues, k, t) == Rung(old(EarOf(queues, k, t)), k, t, PollOneWakes(old(View()), name, now))
    {
      var queue := queues[name];
      ghost var s := View();
      assert queue in queues.Values;
      var expired := queue.Poll(now);
      assert ViewOf(queues) == s.queues[name := PollQueue(s.queues[name], now)] && TopicsOf(topics) == s.topics;
      e := DeadLetter(queue.options, expired, now, k, t);
    }

    /** What the turn does with the exhausted messages. */
    method DeadLetter(o: QueueOptions, expired: seq<Msg>, now: Instant, ghost k: string, ghost t: Trigger)
      returns (e: Option<Error>)
      requires Valid() && OnlyOn(queues, k, t)
      modifies queues.Values, Waiting(queues), ids
      ensures Valid() && OnlyOn(queues, k, t) && Waiting(queues) <= old(Waiting(queues))
      ensures var r := Stores.DeadLetter(old(View()), o, expired, now); View() == r.store && e == r.error
      ensures EarOf(queues, k, t) == Rung(old(EarOf(queues, k, t)), k, t, DeadLetterWakes(old(View()), o, expired, now))
    {
      if Named(o.deadLetterQueueName) || Named(o.deadLetterTopicName) {
        if Named(o.deadLetterQueueName) && o.deadLetterQueueName.value !in queues {
          return Some(QueueNotFound);
        }
        if Named(o.deadLetterTopicName) && o.deadLetterTopicName.value !in topics {
          return Some(TopicNotFound);
        }
        e := ForwardAll(o, expired, now, k, t);
        return e;
      }
      return None;
    }

    /** `order` is the order in which the record of queues lists its values. */
    method PollQueues(order: seq<string>, now: Instant, ghost k: string, ghost t: Trigger) returns (e: Option<Error>)
      requires Valid() && OnlyOn(queues, k, t)
      modifies queues.Values, Waiting(queues), ids
      ensures Valid() && OnlyOn(queues, k, t) && Waiting(queues) <= old(Waiting(queues))
      ensures var r := Stores.PollQueues(old(View()), order, now); View() == r.store && e == r.error
      ensures EarOf(queues, k, t) == Rung(old(EarOf(queues, k, t)), k, t, PollQueuesWakes(old(View()), order, now))
    {
      ghost var s := View();
      ghost var rung := Rung(EarOf(queues, k, t), k, t, PollQueuesWakes(s, order, now));
      assert order[0..] == order;
      for i := 0 to |order|
        invariant Valid() && OnlyOn(queues, k, t) && Waiting(queues) <= old(Waiting(queues))
        invariant Stores.PollQueues(s, order, now) == Stores.PollQueues(View(), order[i..], now)
        invariant rung == Rung(EarOf(queues, k, t), k, t, PollQueuesWakes(View(), order[i..], now))
      {
        assert order[i..][0] == order[i] && order[i..][1..] == order[i + 1..];
        if order[i] in queues {
          ghost var s1, a := View(), EarOf(queues, k, t);
          e := PollOne(order[i], now, k, t);
          RungConcat(a, k, t, PollOneWakes(s1, order[i], now),
                     if e.Some? then [] else PollQueuesWakes(View(), order[i + 1..], now));
          if e.Some? {
            return e;
          }
        }
      }
      return None;
    }

    method Poll(order: seq<string>, now: Instant, ghost k: string, ghost t: Trigger) returns (e: Option<Error>)
      requires Valid() && OnlyOn(queues, k, t)
      modifies this`queues, queues.Values, Waiting(queues), ids
      ensures Valid() && OnlyOn(queues, k, t) && Waiting(queues) <= old(Waiting(queues))
      ensures var r := Stores.Poll(old(View()), order, now); View() == r.store && e == r.error
      ensures EarOf(queues, k, t)
           == Rung(if k in queues then old(EarOf(queues, k, t)) else Ear([], old(t.View())), k, t,
                   PollQueuesWakes(RemoveExpired(old(View()), now), order, now))
    {
      RemoveExpiredQueues(now);
      e := PollQueues(order, now, k, t);
    }
  }
}
