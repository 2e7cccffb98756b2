/** Creating queues and topics, subscribing, and what every run keeps of dead-letter targets
    (packages/store-memory/src/MemoryStore.ts and MemoryTopic.ts). */
module Lifecycles {
  import opened Basics
  import opened Messages
  import opened Queues
  import opened Stores
  import opened Steps
  import opened Pauses
  import opened Expiries

  // ---- creating and deleting

  /** The options asked for are those the queue has, where no tags are the empty record, no behaviour is
      `Retry`, and the expiry compared is the one the queue counts with. */
  predicate AskedAgain(q: Queue, o: QueueOptions) {
    var was := q.options;
    && was.deadLetterQueueName == o.deadLetterQueueName && was.deadLetterTopicName == o.deadLetterTopicName
    && was.delayMs == o.delayMs && was.messageRetentionPeriodMs == o.messageRetentionPeriodMs
    && was.visibilityTimeoutMs == o.visibilityTimeoutMs
    && was.receiveMessageWaitTimeMs == o.receiveMessageWaitTimeMs && q.expiresMs == o.expiresMs
    && was.maxReceiveCount == o.maxReceiveCount && was.maxMessageSize == o.maxMessageSize
    && (was.tags == o.tags || (was.tags in {None, Some(map[])} && o.tags in {None, Some(map[])}))
    && (was.nakExpireBehavior == o.nakExpireBehavior
        || (was.nakExpireBehavior in {None, Some(Retry)} && o.nakExpireBehavior in {None, Some(Retry)}))
  }

  /** When a create fails, in the order of its checks. */
  lemma CreateFailsExactly(s: Store, name: string, o: QueueOptions, upsert: bool, now: Instant)
    ensures var n, r := Trim(name), CreateQueue(s, name, o, upsert, now);
            var misnamed := n == "" || o.deadLetterQueueName == Some(n);
            var differs := !upsert && n in s.queues && !AskedAgain(s.queues[n], o);
            var noQueue := match o.deadLetterQueueName case Some(d) => d != "" && d !in s.queues case None => false;
            var noTopic := match o.deadLetterTopicName case Some(t) => t != "" && t !in s.topics case None => false;
            && (r.error == Some(InvalidQueueName) <==> misnamed)
            && (r.error == Some(QueueAlreadyExists) <==> !misnamed && differs)
            && (r.error == Some(QueueNotFound) <==> !misnamed && !differs && noQueue)
            && (r.error == Some(TopicNotFound) <==> !misnamed && !differs && !noQueue && noTopic)
            && (r.error.None? <==> !misnamed && !differs && !noQueue && !noTopic)
            && (r.error.Some? ==> r.store == s)
  {
  }

  /** The queue has the options asked for; one that was there keeps its messages, its pause and its age, and a
      new one is empty and not paused. */
  lemma CreateExactly(s: Store, name: string, o: QueueOptions, upsert: bool, now: Instant)
    requires CreateQueue(s, name, o, upsert, now).error.None?
    ensures var n, s' := Trim(name), CreateQueue(s, name, o, upsert, now).store;
            && s'.queues.Keys == s.queues.Keys + {n}
            && (forall k | k in s.queues && k != n :: s'.queues[k] == s.queues[k])
            && s'.topics == s.topics && s'.nextId == s.nextId
            && var q' := s'.queues[n];
               && q'.options == o && q'.lastModified == now
               && if n in s.queues
                  then q'.messages == s.queues[n].messages && q'.paused == s.queues[n].paused
                       && q'.created == s.queues[n].created && q'.name == s.queues[n].name
                  else q'.messages == [] && !q'.paused && q'.created == now && q'.name == n
  {
  }

  /** A create of a topic that is there starts it anew: its subscriptions are lost. */
  lemma CreateTopicExactly(s: Store, name: string, tags: Option<Attributes>)
    ensures var t, r := Trim(name), CreateTopic(s, name, tags);
            var given: Attributes := match tags case Some(a) => a case None => map[];
            && (r.error == Some(InvalidTopicName) <==> t == "")
            && (r.error == Some(TopicAlreadyExists) <==> t != "" && t in s.topics && s.topics[t].tags != given)
            && (r.error.None? || r.error == Some(InvalidTopicName) || r.error == Some(TopicAlreadyExists))
            && (r.error.Some? ==> r.store == s)
            && (r.error.None? ==>
                  && r.store.queues == s.queues && r.store.topics.Keys == s.topics.Keys + {t}
                  && (forall k | k in s.topics && k != t :: r.store.topics[k] == s.topics[k])
                  && r.store.topics[t].name == t && r.store.topics[t].tags == given
                  && r.store.topics[t].subscriptions == [])
  {
  }

  /** Subscribing adds the queue to the end of the subscriptions, unless it is among them. */
  lemma SubscribeExactly(s: Store, t: string, n: string)
    requires SubscribeQueue(s, t, n).error.None?
    ensures t in s.topics && n in s.queues
    ensures var subs, r := s.topics[t].subscriptions, SubscribeQueue(s, t, n).store;
            && r.queues == s.queues && r.topics.Keys == s.topics.Keys
            && (forall k | k in s.topics && k != t :: r.topics[k] == s.topics[k])
            && var subs' := r.topics[t].subscriptions;
               && (exists i | 0 <= i < |subs'| :: subs'[i].queueName == n)
               && (if exists i | 0 <= i < |subs| :: subs[i].queueName == n then r == s
                   else |subs'| == |subs| + 1 && subs'[..|subs|] == subs && subs'[|subs|] == Subscription(s.nextId, n)
                        && r.nextId == s.nextId + 1)
  {
    var subs := s.topics[t].subscriptions;
    if !Subscribed(subs, n) {
      assert (subs + [Subscription(s.nextId, n)])[|subs|].queueName == n;
    }
  }

  /** The first topic in the order with a subscription of this id loses the first such subscription; without
      one nothing changes. */
  lemma {:induction false} UnsubscribeExactly(s: Store, id: Id, order: seq<string>) returns (t: string, i: nat)
    ensures var r := DeleteSubscription(s, id, order);
            && (r.error.Some? ==> r == Fails(s, SubscriptionNotFound) && forall k | k in order :: !Has(s, k, id))
            && (r.error.None? ==>
                  && t in order && Has(s, t, id) && t in r.store.topics && i < |s.topics[t].subscriptions|
                  && s.topics[t].subscriptions[i].id == id
                  && (forall j | 0 <= j < i :: s.topics[t].subscriptions[j].id != id)
                  && r.store == s.(topics := s.topics[t := r.store.topics[t]])
                  && (var subs := s.topics[t].subscriptions;
                      r.store.topics[t] == s.topics[t].(subscriptions := subs[..i] + subs[i + 1..])))
  {
    t, i := "", 0;
    if order == [] {
    } else if Has(s, order[0], id) {
      t := order[0];
      i := RemovedAt(s.topics[t].subscriptions, id);
    } else {
      t, i := UnsubscribeExactly(s, id, order[1..]);
      assert order == [order[0]] + order[1..];
    }
  }

  predicate Has(s: Store, t: string, id: Id) {
    t in s.topics && exists i | 0 <= i < |s.topics[t].subscriptions| :: s.topics[t].subscriptions[i].id == id
  }

  lemma {:induction false} RemovedAt(subs: seq<Subscription>, id: Id) returns (i: nat)
    requires HasSubscription(subs, id)
    ensures i < |subs| && subs[i].id == id && forall j | 0 <= j < i :: subs[j].id != id
    ensures RemoveSubscription(subs, id) == subs[..i] + subs[i + 1..]
  {
    if subs[0].id == id {
      i := 0;
    } else {
      var k := RemovedAt(subs[1..], id);
      i := k + 1;
      assert subs[..i] == [subs[0]] + subs[1..][..k] && subs[i + 1..] == subs[1..][k + 1..];
    }
  }

  // ---- dead-letter targets

  /** The dead-letter topic of every queue exists. */
  ghost predicate TopicsThere(s: Store) {
    forall n | n in s.queues :: TopicThere(s, n)
  }

  predicate TopicThere(s: Store, n: string)
    requires n in s.queues
  {
    match s.queues[n].options.deadLetterTopicName case Some(t) => t == "" || t in s.topics case None => true
  }

  /** The dead-letter queue of every queue exists. */
  ghost predicate QueuesThere(s: Store) {
    forall n | n in s.queues :: QueueThere(s, n)
  }

  predicate QueueThere(s: Store, n: string)
    requires n in s.queues
  {
    match s.queues[n].options.deadLetterQueueName case Some(d) => d == "" || d in s.queues case None => true
  }

  lemma OtherOpsOptions(s: Store, op: Op, now: Instant, n: string)
    requires !Adds(op) && !Recreates(op, n) && n in Apply(s, op, now).store.queues
    ensures n in s.queues && Apply(s, op, now).store.queues[n].options == s.queues[n].options
  {
    if op.Unsubscribes? {
      UnsubscribeQueues(s, op.subscription, op.order);
    }
  }

  /** Only a create changes the options of a queue. */
  lemma OptionsStay(s: Store, op: Op, now: Instant, n: string)
    requires !Recreates(op, n) && n in Apply(s, op, now).store.queues
    ensures n in s.queues && Apply(s, op, now).store.queues[n].options == s.queues[n].options
  {
    if Adds(op) {
      AddsKeepShells(s, op, now);
      assert SameShell(s, Apply(s, op, now).store, n);
    } else {
      OtherOpsOptions(s, op, now, n);
    }
  }

  lemma {:induction false} UnsubscribeTopics(s: Store, id: Id, order: seq<string>)
    ensures DeleteSubscription(s, id, order).store.topics.Keys == s.topics.Keys
  {
    if order != [] {
      UnsubscribeTopics(s, id, order[1..]);
    }
  }

  /** A topic goes exactly when it is deleted and no queue names it as its dead-letter topic. */
  lemma TopicRemovedExactly(s: Store, op: Op, now: Instant, t: string)
    requires t in s.topics
    ensures t !in Apply(s, op, now).store.topics
       <==> op == DeletesTopic(t) && forall n | n in s.queues :: s.queues[n].options.deadLetterTopicName != Some(t)
  {
    if Adds(op) {
      AddsKeepShells(s, op, now);
    } else if op.Unsubscribes? {
      UnsubscribeTopics(s, op.subscription, op.order);
      assert t in Apply(s, op, now).store.topics.Keys;
    }
  }

  lemma CreateFindsTargets(s: Store, op: Op, now: Instant)
    requires op.CreatesQueue? && Apply(s, op, now).error.None?
    ensures var s', n := Apply(s, op, now).store, Trim(op.name);
            n in s'.queues && TopicThere(s', n) && QueueThere(s', n)
  {
  }

  lemma TopicStaysThere(s: Store, op: Op, now: Instant, n: string)
    requires TopicsThere(s) && n in Apply(s, op, now).store.queues
    ensures TopicThere(Apply(s, op, now).store, n)
  {
    if Recreates(op, n) && Apply(s, op, now).error.None? {
      CreateFindsTargets(s, op, now);
    } else if !Recreates(op, n) {
      OptionsStay(s, op, now, n);
      assert TopicThere(s, n);
      match s.queues[n].options.deadLetterTopicName
      case Some(t) =>
        if t in s.topics {
          TopicRemovedExactly(s, op, now, t);
        }
      case None =>
    } else {
      CreateFailsExactly(s, op.name, op.options, op.upsert, now);
      assert TopicThere(s, n);
    }
  }

  lemma TopicsStayThere(s: Store, op: Op, now: Instant)
    requires TopicsThere(s)
    ensures TopicsThere(Apply(s, op, now).store)
  {
    forall n | n in Apply(s, op, now).store.queues ensures TopicThere(Apply(s, op, now).store, n) {
      TopicStaysThere(s, op, now, n);
    }
  }

  /** In every state of every run the dead-letter topic of each queue exists. */
  lemma {:induction false} TopicsAlwaysThere(ws: seq<World>, ops: seq<Op>, i: nat)
    requires IsRun(ws, ops) && i <= |ops|
    ensures TopicsThere(ws[i].store)
  {
    if i > 0 {
      TopicsAlwaysThere(ws, ops, i - 1);
      assert StepAt(ws, ops, i - 1);
      TopicsStayThere(ws[i - 1].store, ops[i - 1], ws[i - 1].now);
    }
  }

  /** A queue that is a dead-letter queue has expired at a poll. */
  ghost predicate LosesTarget(s: Store, op: Op, now: Instant) {
    op.Polls? && exists n | n in s.queues && !Expired(s.queues[n], now) :: TargetExpired(s, n, now)
  }

  predicate TargetExpired(s: Store, n: string, now: Instant)
    requires n in s.queues
  {
    match s.queues[n].options.deadLetterQueueName
    case Some(d) => d != "" && d in s.queues && Expired(s.queues[d], now)
    case None => false
  }

  lemma QueueStaysThere(s: Store, op: Op, now: Instant, n: string)
    requires QueuesThere(s) && n in Apply(s, op, now).store.queues
    ensures QueueThere(Apply(s, op, now).store, n) <==> !(op.Polls? && n in s.queues && TargetExpired(s, n, now))
  {
    if Recreates(op, n) && Apply(s, op, now).error.None? {
      CreateFindsTargets(s, op, now);
    } else if !Recreates(op, n) {
      OptionsStay(s, op, now, n);
      assert QueueThere(s, n);
      match s.queues[n].options.deadLetterQueueName
      case Some(d) =>
        if d in s.queues {
          RemovedExactly(s, op, now, d);
        }
      case None =>
    } else {
      CreateFailsExactly(s, op.name, op.options, op.upsert, now);
      assert QueueThere(s, n);
    }
  }

  /** In a state in which all dead-letter queues exist, the next one has them all exactly if the operation is
      not a poll that finds one of them expired. */
  lemma TargetsStayExactly(s: Store, op: Op, now: Instant)
    requires QueuesThere(s)
    ensures QueuesThere(Apply(s, op, now).store) <==> !LosesTarget(s, op, now)
  {
    var s' := Apply(s, op, now).store;
    forall n | n in s'.queues
      ensures QueueThere(s', n) <==> !(op.Polls? && n in s.queues && TargetExpired(s, n, now))
    {
      QueueStaysThere(s, op, now, n);
    }
    if op.Polls? {
      forall n | n in s.queues ensures n in s'.queues <==> !Expired(s.queues[n], now) {
        RemovedExactly(s, op, now, n);
      }
      AddsKeepShells(s, op, now);
    }
  }

  ghost predicate LosesTargetIn(ws: seq<World>, ops: seq<Op>, k: nat)
    requires k < |ws| && k < |ops|
  {
    LosesTarget(ws[k].store, ops[k], ws[k].now)
  }

  /** In every run in which no dead-letter queue expires, each of them exists at every moment. */
  lemma {:induction false} TargetsAlwaysThere(ws: seq<World>, ops: seq<Op>, i: nat)
    requires IsRun(ws, ops) && i <= |ops| && forall k | 0 <= k < i :: !LosesTargetIn(ws, ops, k)
    ensures QueuesThere(ws[i].store)
  {
    if i > 0 {
      TargetsAlwaysThere(ws, ops, i - 1);
      assert StepAt(ws, ops, i - 1) && !LosesTargetIn(ws, ops, i - 1);
      TargetsStayExactly(ws[i - 1].store, ops[i - 1], ws[i - 1].now);
    }
  }
}
