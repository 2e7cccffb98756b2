/** Passes that fail, and the order in which dead letters arrive
    (packages/store-memory/src/MemoryStore.ts, `pollQueues`). */
module Failures {
  import opened Basics
  import opened Messages
  import opened Queues
  import opened Stores
  import opened Invariants
  import opened Steps
  import opened PollPass

  // ---- where a pass stops

  /** A pass that fails fails in the turn of one queue: the turns before it have succeeded and keep their
      effect, so does what that turn had done, and the queues after it are not polled. */
  lemma {:induction false} PassStops(s: Store, order: seq<string>, now: Instant) returns (k: nat)
    requires PollQueues(s, order, now).error.Some?
    ensures k < |order| && PollQueues(s, order[..k], now).error.None?
    ensures var before := PollQueues(s, order[..k], now).store;
            order[k] in before.queues && PollOne(before, order[k], now) == PollQueues(s, order, now)
    decreases |order|
  {
    if order[0] in s.queues && PollOne(s, order[0], now).error.Some? {
      k := 0;
    } else {
      var s1 := if order[0] in s.queues then PollOne(s, order[0], now).store else s;
      var i := PassStops(s1, order[1..], now);
      k := i + 1;
      assert order[..k][1..] == order[1..][..i] && order[..k][0] == order[0];
    }
  }

  // ---- what a turn that fails loses

  /** The queue is there and takes a body of this length. */
  predicate Fits(s: Store, d: string, body: string) {
    && d in s.queues
    && match s.queues[d].options.maxMessageSize case Some(max) => max == 0 || |body| <= max case None => true
  }

  predicate FitsAll(s: Store, subs: seq<Subscription>, body: string) {
    forall i | 0 <= i < |subs| :: Fits(s, subs[i].queueName, body)
  }

  /** The dead-letter queue takes the body, and so does every queue subscribed to the dead-letter topic. */
  predicate Forwardable(s: Store, o: QueueOptions, body: string) {
    && (match o.deadLetterQueueName case Some(d) => d == "" || Fits(s, d, body) case None => true)
    && (match o.deadLetterTopicName
        case Some(t) => t == "" || (t in s.topics && FitsAll(s, s.topics[t].subscriptions, body))
        case None => true)
  }

  /** A message of this id is in some queue. */
  ghost predicate Somewhere(s: Store, id: Id) {
    exists n, m :: In(s, n, m) && m.id == id
  }

  /** Every queue holds what it held, and more behind it. */
  ghost predicate Grows(s: Store, s': Store) {
    forall n | n in s.queues :: n in s'.queues && s.queues[n].messages <= s'.queues[n].messages
  }

  lemma GrowsKeeps(s: Store, s': Store, id: Id)
    requires Grows(s, s') && Somewhere(s, id)
    ensures Somewhere(s', id)
  {
    var n, m :| In(s, n, m) && m.id == id;
    assert In(s', n, m);
  }

  lemma {:induction false} PublishGrows(s: Store, subs: seq<Subscription>, body: string, o: SendOptions, now: Instant)
    ensures Grows(s, PublishEach(s, subs, body, o, now).store)
    decreases |subs|
  {
    if subs != [] {
      var r := SendTo(FreshId(s), subs[0].queueName, s.nextId, body, o, now);
      if r.error.None? {
        PublishGrows(r.store, subs[1..], body, o, now);
      }
    }
  }

  lemma TopicGrows(s: Store, t: string, body: string, o: SendOptions, now: Instant)
    ensures Grows(s, Publish(s, t, body, o, now).store)
  {
    if t in s.topics {
      PublishGrows(s, s.topics[t].subscriptions, body, o, now);
    }
  }

  lemma SendGrows(s: Store, n: string, id: Id, body: string, o: SendOptions, now: Instant)
    ensures Grows(s, SendTo(s, n, id, body, o, now).store)
  {
  }

  lemma ForwardOneGrows(s: Store, o: QueueOptions, m: Msg, now: Instant)
    ensures Grows(s, ForwardOne(s, o, m, now).store)
  {
    var s1 := s;
    if Named(o.deadLetterQueueName) {
      s1 := SendTo(s, o.deadLetterQueueName.value, m.id, m.body, DeadLetterOptions(m), now).store;
      SendGrows(s, o.deadLetterQueueName.value, m.id, m.body, DeadLetterOptions(m), now);
    }
    if Named(o.deadLetterTopicName) {
      TopicGrows(s1, o.deadLetterTopicName.value, m.body, DeadLetterOptions(m), now);
    }
  }

  lemma {:induction false} ForwardAllGrows(s: Store, o: QueueOptions, ms: seq<Msg>, now: Instant)
    ensures Grows(s, ForwardAll(s, o, ms, now).store)
    decreases |ms|
  {
    if ms != [] {
      ForwardOneGrows(s, o, ms[0], now);
      var r := ForwardOne(s, o, ms[0], now);
      if r.error.None? {
        ForwardAllGrows(r.store, o, ms[1..], now);
      }
    }
  }

  lemma LetterFits(s: Store, o: QueueOptions, m: Msg, l: Letter)
    requires Forwardable(s, o, m.body) && l in Letters(s.topics, o, m)
    ensures Accepts(s, l)
  {
    if !(Named(o.deadLetterQueueName) && l == Letter(o.deadLetterQueueName.value, m, true)) {
      var i := TopicLetterFrom(s.topics[o.deadLetterTopicName.value].subscriptions, m, l);
    }
  }

  lemma AcceptedFit(s: Store, o: QueueOptions, m: Msg)
    requires Named(o.deadLetterTopicName) ==> o.deadLetterTopicName.value in s.topics
    requires forall l | l in Letters(s.topics, o, m) :: Accepts(s, l)
    ensures Forwardable(s, o, m.body)
  {
    if Named(o.deadLetterQueueName) {
      assert Letter(o.deadLetterQueueName.value, m, true) in Letters(s.topics, o, m);
    }
    if Named(o.deadLetterTopicName) {
      var subs := s.topics[o.deadLetterTopicName.value].subscriptions;
      forall i | 0 <= i < |subs| ensures Fits(s, subs[i].queueName, m.body) {
        TopicLetterAt(subs, m, i);
        assert Letter(subs[i].queueName, m, false) in Letters(s.topics, o, m);
      }
    }
  }

  lemma {:induction false} TopicLetterFrom(subs: seq<Subscription>, m: Msg, l: Letter) returns (i: nat)
    requires l in TopicLetters(subs, m)
    ensures i < |subs| && l == Letter(subs[i].queueName, m, false)
  {
    if l == Letter(subs[0].queueName, m, false) {
      i := 0;
    } else {
      i := TopicLetterFrom(subs[1..], m, l);
      i := i + 1;
    }
  }

  /** One exhausted message is forwarded in whole exactly if all it goes to take it. */
  lemma ForwardsExactly(s0: Store, s: Store, flying: seq<Msg>, o: QueueOptions, now: Instant)
    requires Reached(s0, s, flying, now, None) && flying != []
    requires Named(o.deadLetterTopicName) ==> o.deadLetterTopicName.value in s.topics
    ensures ForwardOne(s, o, flying[0], now).error.None? <==> Forwardable(s, o, flying[0].body)
  {
    ForwardOneKeeps(s0, s, flying, o, now);
    if ForwardOne(s, o, flying[0], now).error.None? {
      ForwardOneIsDeliver(s, o, flying[0], now);
      DeliverAccepts(s, Letters(s.topics, o, flying[0]), now);
      AcceptedFit(s, o, flying[0]);
    } else {
      ForwardOneFails(s, o, flying[0], now);
      var l :| l in Letters(s.topics, o, flying[0]) && !Accepts(s, l);
      if Forwardable(s, o, flying[0].body) {
        LetterFits(s, o, flying[0], l);
      }
    }
  }

  /** It arrives exactly if its dead-letter queue takes it, whatever becomes of the copies. */
  lemma OwnArrives(s0: Store, s: Store, flying: seq<Msg>, o: QueueOptions, d: string, now: Instant)
    requires Reached(s0, s, flying, now, None) && flying != [] && d != "" && o.deadLetterQueueName == Some(d)
    ensures Somewhere(ForwardOne(s, o, flying[0], now).store, flying[0].id) <==> Fits(s, d, flying[0].body)
  {
    var e := flying[0];
    assert e in flying;
    var r := SendTo(s, d, e.id, e.body, DeadLetterOptions(e), now);
    if Fits(s, d, e.body) {
      NoSuchId(s, d, e.id);
      assert In(r.store, d, SentMsg(s.queues[d], e.id, e.body, DeadLetterOptions(e), now));
      if Named(o.deadLetterTopicName) {
        TopicGrows(r.store, o.deadLetterTopicName.value, e.body, DeadLetterOptions(e), now);
      }
      GrowsKeeps(r.store, ForwardOne(s, o, e, now).store, e.id);
    } else {
      assert ForwardOne(s, o, e, now).store == s;
    }
  }

  lemma SameForwardable(s: Store, s': Store, o: QueueOptions, body: string)
    requires SameFrame(s, s')
    ensures Forwardable(s', o, body) == Forwardable(s, o, body)
  {
    assert forall d :: Fits(s', d, body) == Fits(s, d, body) by {
      forall d ensures Fits(s', d, body) == Fits(s, d, body) {
        assert d in s.queues.Keys <==> d in s'.queues.Keys;
      }
    }
  }

  /** All messages before this one were forwarded in whole, and its dead-letter queue takes it. */
  predicate Arrives(s: Store, o: QueueOptions, flying: seq<Msg>, d: string, i: nat)
    requires i < |flying|
  {
    Fits(s, d, flying[i].body) && forall e | e in flying[..i] :: Forwardable(s, o, e.body)
  }

  lemma ArrivesNext(s: Store, s': Store, o: QueueOptions, flying: seq<Msg>, d: string, i: nat)
    requires SameFrame(s, s') && 0 < i < |flying| && Forwardable(s, o, flying[0].body)
    ensures Arrives(s', o, flying[1..], d, i - 1) <==> Arrives(s, o, flying, d, i)
  {
    assert flying[..i] == [flying[0]] + flying[1..][..i - 1];
    forall e: Msg ensures Forwardable(s', o, e.body) == Forwardable(s, o, e.body) {
      SameForwardable(s, s', o, e.body);
    }
    assert d in s.queues.Keys <==> d in s'.queues.Keys;
  }

  lemma FirstArrives(s0: Store, s: Store, flying: seq<Msg>, o: QueueOptions, d: string, now: Instant)
    requires Reached(s0, s, flying, now, None) && flying != [] && d != "" && o.deadLetterQueueName == Some(d)
    ensures Somewhere(ForwardAll(s, o, flying, now).store, flying[0].id) <==> Fits(s, d, flying[0].body)
  {
    var r := ForwardOne(s, o, flying[0], now);
    OwnArrives(s0, s, flying, o, d, now);
    if r.error.None? {
      ForwardAllGrows(r.store, o, flying[1..], now);
      if Somewhere(r.store, flying[0].id) {
        GrowsKeeps(r.store, ForwardAll(r.store, o, flying[1..], now).store, flying[0].id);
      }
    }
  }

  ghost predicate OnTheWay(s0: Store, s: Store, flying: seq<Msg>, o: QueueOptions, d: string, now: Instant) {
    && Reached(s0, s, flying, now, None) && d != "" && o.deadLetterQueueName == Some(d)
    && (Named(o.deadLetterTopicName) ==> o.deadLetterTopicName.value in s.topics)
  }

  lemma ArrivalStops(s0: Store, s: Store, flying: seq<Msg>, o: QueueOptions, d: string, i: nat, now: Instant)
    requires OnTheWay(s0, s, flying, o, d, now) && 0 < i < |flying|
    requires ForwardOne(s, o, flying[0], now).error.Some?
    ensures !Somewhere(ForwardAll(s, o, flying, now).store, flying[i].id) && !Arrives(s, o, flying, d, i)
  {
    ForwardsExactly(s0, s, flying, o, now);
    ForwardOneKeeps(s0, s, flying, o, now);
    assert flying[i] == flying[1..][i - 1] && flying[0] in flying[..i];
  }

  lemma ArrivalGoesOn(s0: Store, s: Store, flying: seq<Msg>, o: QueueOptions, d: string, i: nat, now: Instant)
    requires OnTheWay(s0, s, flying, o, d, now) && 0 < i < |flying|
    requires ForwardOne(s, o, flying[0], now).error.None?
    ensures var s1 := ForwardOne(s, o, flying[0], now).store;
            && OnTheWay(s0, s1, flying[1..], o, d, now)
            && ForwardAll(s, o, flying, now) == ForwardAll(s1, o, flying[1..], now)
            && (Arrives(s1, o, flying[1..], d, i - 1) <==> Arrives(s, o, flying, d, i))
  {
    ForwardsExactly(s0, s, flying, o, now);
    ForwardOneKeeps(s0, s, flying, o, now);
    ForwardOneIsDeliver(s, o, flying[0], now);
    DeliverKeepsFrame(s, Letters(s.topics, o, flying[0]), now);
    ArrivesNext(s, ForwardOne(s, o, flying[0], now).store, o, flying, d, i);
  }

  /** Among the messages on their way, one arrives exactly if its dead-letter queue takes it and everything
      before it was forwarded in whole. */
  lemma {:induction false} ArrivesExactly(s0: Store, s: Store, flying: seq<Msg>, o: QueueOptions, d: string, i: nat,
          now: Instant)
    requires OnTheWay(s0, s, flying, o, d, now) && i < |flying|
    ensures Somewhere(ForwardAll(s, o, flying, now).store, flying[i].id) <==> Arrives(s, o, flying, d, i)
    decreases |flying|
  {
    var r := ForwardOne(s, o, flying[0], now);
    if i == 0 {
      FirstArrives(s0, s, flying, o, d, now);
    } else if r.error.Some? {
      ArrivalStops(s0, s, flying, o, d, i, now);
    } else {
      ArrivalGoesOn(s0, s, flying, o, d, i, now);
      ArrivesExactly(s0, r.store, flying[1..], o, d, i - 1, now);
    }
  }

  // ---- and in terms of the list of the queue

  /** The message is exhausted, and not over its retention. */
  predicate ToForward(o: QueueOptions, m: Msg, now: Instant) {
    !IsOverdue(m, now) && IsExhausted(o, m, now)
  }

  lemma {:induction false} ExhaustedBodies(o: QueueOptions, ms: seq<Msg>, now: Instant, s: Store)
    ensures (forall e | e in Exhausted(o, ms, now) :: Forwardable(s, o, e.body))
       <==> (forall m | m in ms && ToForward(o, m, now) :: Forwardable(s, o, m.body))
  {
    if ms != [] {
      ExhaustedBodies(o, ms[1..], now, s);
      assert ms == [ms[0]] + ms[1..];
      assert FateOf(o, ms[0], now).Leaves? <==> ToForward(o, ms[0], now);
      if ToForward(o, ms[0], now) {
        assert Exhausted(o, ms, now)[0].body == ms[0].body;
      }
    }
  }

  lemma ReverseConcat<T>(a: seq<T>, b: seq<T>)
    ensures Reverse(a + b) == Reverse(b) + Reverse(a)
  {
    if a == [] {
      assert a + b == b && Reverse(b) + [] == Reverse(b);
    } else {
      ReverseConcat(a[1..], b);
      assert (a + b)[1..] == a[1..] + b;
      ConcatAssoc(Reverse(b), Reverse(a[1..]), [a[0]]);
    }
  }

  /** Where an exhausted message is among those to be forwarded: behind those that came after it in the list. */
  lemma PlaceOfExhausted(o: QueueOptions, ms: seq<Msg>, i: nat, now: Instant) returns (e: Msg)
    requires i < |ms| && ToForward(o, ms[i], now)
    ensures var es, k := Reverse(Exhausted(o, ms, now)), |Exhausted(o, ms[i + 1..], now)|;
            && k < |es| && es[k] == e && e.id == ms[i].id && e.body == ms[i].body
            && es[..k] == Reverse(Exhausted(o, ms[i + 1..], now))
  {
    e := FateOf(o, ms[i], now).m;
    assert ms == (ms[..i] + [ms[i]]) + ms[i + 1..];
    PollConcat(o, ms[..i] + [ms[i]], ms[i + 1..], now);
    PollConcat(o, ms[..i], [ms[i]], now);
    assert Exhausted(o, [ms[i]], now) == [e];
    ReverseConcat(Exhausted(o, ms[..i], now) + [e], Exhausted(o, ms[i + 1..], now));
    ReverseConcat(Exhausted(o, ms[..i], now), [e]);
  }

  /** Its dead-letter queue takes the message, and every exhausted message behind it in the list can be
      forwarded. */
  predicate ReachesTarget(s: Store, q: Queue, i: nat, d: string, now: Instant)
    requires i < |q.messages|
  {
    && Fits(s, d, q.messages[i].body)
    && forall m | m in q.messages[i + 1..] && ToForward(q.options, m, now) :: Forwardable(s, q.options, m.body)
  }

  lemma ReachesExactly(s: Store, s0: Store, q: Queue, i: nat, d: string, now: Instant)
    requires Reached(s, s0, Reverse(Exhausted(q.options, q.messages, now)), now, None) && SameFrame(s, s0)
    requires i < |q.messages| && ToForward(q.options, q.messages[i], now)
    requires d != "" && q.options.deadLetterQueueName == Some(d)
    requires Named(q.options.deadLetterTopicName) ==> q.options.deadLetterTopicName.value in s.topics
    ensures Somewhere(ForwardAll(s0, q.options, Reverse(Exhausted(q.options, q.messages, now)), now).store,
                      q.messages[i].id)
            <==> ReachesTarget(s, q, i, d, now)
  {
    var es, k := Reverse(Exhausted(q.options, q.messages, now)), |Exhausted(q.options, q.messages[i + 1..], now)|;
    var e := PlaceOfExhausted(q.options, q.messages, i, now);
    ArrivesExactly(s, s0, es, q.options, d, k, now);
    SurvivorsBehind(s, s0, q.options, q.messages[i + 1..], es[..k], now);
    assert d in s.queues.Keys <==> d in s0.queues.Keys;
  }

  /** What becomes of an exhausted message in a turn of a pass, failing or not: it is in a queue afterwards
      exactly if both dead-letter targets exist, its dead-letter queue takes it, and every exhausted message
      behind it in the list can be forwarded. Otherwise it is gone for good. */
  lemma SurvivesExactly(s: Store, n: string, i: nat, d: string, now: Instant)
    requires Inv(s) && n in s.queues && i < |s.queues[n].messages| && d != ""
    requires ToForward(s.queues[n].options, s.queues[n].messages[i], now)
    requires s.queues[n].options.deadLetterQueueName == Some(d)
    ensures Somewhere(PollOne(s, n, now).store, s.queues[n].messages[i].id)
            <==> TargetsExist(s, n) && ReachesTarget(s, s.queues[n], i, d, now)
  {
    var q := s.queues[n];
    var s0 := PutQueue(s, n, PollQueue(q, now));
    ReachedSelf(s, now, None);
    PollTakesOff(s, s, n, now, None);
    if TargetsExist(s, n) {
      ReachesExactly(s, s0, q, i, d, now);
    } else {
      var e := PlaceOfExhausted(q.options, q.messages, i, now);
    }
  }

  lemma {:induction false} CopiesKeep(s0: Store, s: Store, flying: seq<Msg>, o: QueueOptions, es: seq<Msg>,
          now: Instant)
    requires Reached(s0, s, flying, now, None) && !Named(o.deadLetterQueueName)
    ensures Reached(s0, ForwardAll(s, o, es, now).store, flying, now, None)
    decreases |es|
  {
    if es != [] {
      if Named(o.deadLetterTopicName) {
        PublishKeeps(s0, s, flying, o.deadLetterTopicName.value, es[0].body, DeadLetterOptions(es[0]), now, None);
      }
      var r := ForwardOne(s, o, es[0], now);
      if r.error.None? {
        CopiesKeep(s0, r.store, flying, o, es[1..], now);
      }
    }
  }

  /** Without a dead-letter queue an exhausted message is in no queue afterwards; what a dead-letter topic
      gets are copies under new ids. */
  lemma GoneWithoutTarget(s: Store, n: string, i: nat, now: Instant)
    requires Inv(s) && n in s.queues && i < |s.queues[n].messages|
    requires ToForward(s.queues[n].options, s.queues[n].messages[i], now)
    requires s.queues[n].options.deadLetterQueueName in {None, Some("")}
    ensures !Somewhere(PollOne(s, n, now).store, s.queues[n].messages[i].id)
  {
    var q := s.queues[n];
    var s0, es := PutQueue(s, n, PollQueue(q, now)), Reverse(Exhausted(q.options, q.messages, now));
    ReachedSelf(s, now, None);
    PollTakesOff(s, s, n, now, None);
    var e := PlaceOfExhausted(q.options, q.messages, i, now);
    assert e in es;
    CopiesKeep(s, s0, es, q.options, es, now);
  }

  lemma SurvivorsBehind(s: Store, s0: Store, o: QueueOptions, behind: seq<Msg>, es: seq<Msg>, now: Instant)
    requires SameFrame(s, s0) && es == Reverse(Exhausted(o, behind, now))
    ensures (forall e | e in es :: Forwardable(s0, o, e.body))
       <==> (forall m | m in behind && ToForward(o, m, now) :: Forwardable(s, o, m.body))
  {
    ExhaustedBodies(o, behind, now, s);
    ReverseMembers(Exhausted(o, behind, now));
    forall e: Msg ensures Forwardable(s0, o, e.body) == Forwardable(s, o, e.body) {
      SameForwardable(s, s0, o, e.body);
    }
  }

  // ---- the order of arrival

  /** The one stands somewhere before the other. */
  ghost predicate Ahead<T>(s: seq<T>, x: T, y: T) {
    exists i, j :: 0 <= i < j < |s| && s[i] == x && s[j] == y
  }

  lemma AheadLeft<T>(a: seq<T>, b: seq<T>, x: T, y: T)
    requires Ahead(a, x, y)
    ensures Ahead(a + b, x, y)
  {
    var i, j :| 0 <= i < j < |a| && a[i] == x && a[j] == y;
    assert (a + b)[i] == x && (a + b)[j] == y;
  }

  lemma AheadRight<T>(a: seq<T>, b: seq<T>, x: T, y: T)
    requires Ahead(b, x, y)
    ensures Ahead(a + b, x, y)
  {
    var i, j :| 0 <= i < j < |b| && b[i] == x && b[j] == y;
    assert (a + b)[|a| + i] == x && (a + b)[|a| + j] == y;
  }

  lemma AheadApart<T>(a: seq<T>, b: seq<T>, x: T, y: T)
    requires x in a && y in b
    ensures Ahead(a + b, x, y)
  {
    var i :| 0 <= i < |a| && a[i] == x;
    var j :| 0 <= j < |b| && b[j] == y;
    assert (a + b)[i] == x && (a + b)[|a| + j] == y;
  }

  lemma AheadSplits<T>(s: seq<T>, x: T, y: T) returns (a: seq<T>, b: seq<T>)
    requires Ahead(s, x, y)
    ensures s == a + b && x in a && y in b
  {
    var i, j :| 0 <= i < j < |s| && s[i] == x && s[j] == y;
    a, b := s[..j], s[j..];
    assert a[i] == x && b[0] == y;
  }

  /** Of two exhausted messages the later one in the list is forwarded first. */
  lemma LettersAhead(topics: map<string, Topic>, o: QueueOptions, ms: seq<Msg>, m: Msg, e: Msg, now: Instant)
    requires Ahead(ms, m, e) && FateOf(o, m, now).Leaves? && FateOf(o, e, now).Leaves? && Named(o.deadLetterQueueName)
    ensures var d := o.deadLetterQueueName.value;
            Ahead(LettersFor(topics, o, Reverse(Exhausted(o, ms, now))),
                  Letter(d, FateOf(o, e, now).m, true), Letter(d, FateOf(o, m, now).m, true))
  {
    var a, b := AheadSplits(ms, m, e);
    PollConcat(o, a, b, now);
    FateMember(o, a, m, now);
    FateMember(o, b, e, now);
    var ea, eb := Exhausted(o, a, now), Exhausted(o, b, now);
    ReverseConcat(ea, eb);
    ReverseMembers(ea);
    ReverseMembers(eb);
    LettersConcat(topics, o, Reverse(eb), Reverse(ea));
    var d := o.deadLetterQueueName.value;
    LetterOf(topics, o, Reverse(eb), FateOf(o, e, now).m, Letter(d, FateOf(o, e, now).m, true));
    LetterOf(topics, o, Reverse(ea), FateOf(o, m, now).m, Letter(d, FateOf(o, m, now).m, true));
    AheadApart(LettersFor(topics, o, Reverse(eb)), LettersFor(topics, o, Reverse(ea)),
               Letter(d, FateOf(o, e, now).m, true), Letter(d, FateOf(o, m, now).m, true));
  }

  lemma {:induction false} LettersConcat(topics: map<string, Topic>, o: QueueOptions, a: seq<Msg>, b: seq<Msg>)
    ensures LettersFor(topics, o, a + b) == LettersFor(topics, o, a) + LettersFor(topics, o, b)
  {
    if a == [] {
      assert a + b == b;
    } else {
      assert (a + b)[1..] == a[1..] + b;
      LettersConcat(topics, o, a[1..], b);
    }
  }

  lemma {:induction false} AheadInPass(s: Store, order: seq<string>, now: Instant, n: string, x: Letter, y: Letter)
    requires n in order && Ahead(QueueLetters(s, n, now), x, y)
    ensures Ahead(AllLetters(s, order, now), x, y)
  {
    if order[0] == n {
      AheadLeft(QueueLetters(s, n, now), AllLetters(s, order[1..], now), x, y);
    } else {
      AheadInPass(s, order[1..], now, n, x, y);
      AheadRight(QueueLetters(s, order[0], now), AllLetters(s, order[1..], now), x, y);
    }
  }

  lemma ArrivalsAhead(s: Store, ls: seq<Letter>, n: string, nid: Id, now: Instant, x: Letter, y: Letter)
    requires n in s.queues && Ahead(ls, x, y) && x.to == y.to == n && x.own && y.own
    ensures Ahead(Ids(Arrivals(s, ls, n, nid, now)), x.m.id, y.m.id)
  {
    var a, b := AheadSplits(ls, x, y);
    FilterConcat(a, b, IsTo(n));
    FilterMembers(a, IsTo(n));
    FilterMembers(b, IsTo(n));
    AheadApart(Filter(a, IsTo(n)), Filter(b, IsTo(n)), x, y);
    var mine, got := Filter(ls, IsTo(n)), Arrivals(s, ls, n, nid, now);
    ArrivalsCarry(s, ls, n, nid, nid, now);
    var i, j :| 0 <= i < j < |mine| && mine[i] == x && mine[j] == y;
    assert Carries(got[i], mine[i], s.queues[n].options, nid, now);
    assert Carries(got[j], mine[j], s.queues[n].options, nid, now);
    assert Ids(got)[i] == x.m.id && Ids(got)[j] == y.m.id;
  }

  lemma IdsConcat(a: seq<Msg>, b: seq<Msg>)
    ensures Ids(a + b) == Ids(a) + Ids(b)
  {
  }

  lemma LettersArriveAhead(s: Store, order: seq<string>, now: Instant, d: string, x: Letter, y: Letter)
    requires Patient(s) && NoRepeat(order) && PollQueues(s, order, now).error.None? && d in s.queues && d in order
    requires Ahead(AllLetters(s, order, now), x, y) && x.to == y.to == d && x.own && y.own
    ensures var s' := PollQueues(s, order, now).store;
            d in s'.queues && Ahead(Ids(s'.queues[d].messages), x.m.id, y.m.id)
  {
    var kept := Kept(s.queues[d].options, s.queues[d].messages, now);
    var got := Arrivals(s, AllLetters(s, order, now), d, s.nextId, now);
    ArrivalsAhead(s, AllLetters(s, order, now), d, s.nextId, now, x, y);
    PassMessages(s, order, now, d);
    IdsConcat(kept, got);
    AheadRight(Ids(kept), Ids(got), x.m.id, y.m.id);
  }

  /** Dead letters of one queue arrive in the reverse of their order there. */
  lemma DeadLettersReversed(s: Store, order: seq<string>, now: Instant, n: string, m: Msg, e: Msg, d: string)
    requires Patient(s) && NoRepeat(order) && PollQueues(s, order, now).error.None?
    requires n in s.queues && n in order && d in s.queues && d in order && d != ""
    requires s.queues[n].options.deadLetterQueueName == Some(d) && Ahead(s.queues[n].messages, m, e)
    requires ToForward(s.queues[n].options, m, now) && ToForward(s.queues[n].options, e, now)
    ensures var s' := PollQueues(s, order, now).store;
            d in s'.queues && Ahead(Ids(s'.queues[d].messages), e.id, m.id)
  {
    var o := s.queues[n].options;
    var x, y := Letter(d, FateOf(o, e, now).m, true), Letter(d, FateOf(o, m, now).m, true);
    LettersAhead(s.topics, o, s.queues[n].messages, m, e, now);
    AheadInPass(s, order, now, n, x, y);
    LettersArriveAhead(s, order, now, d, x, y);
  }
}
