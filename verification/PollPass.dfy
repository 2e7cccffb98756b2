/** A whole poll pass over the store: however the queues are ordered and whatever their
    dead-letter targets, it amounts to polling every queue once and then delivering the
    letters the exhausted messages give rise to. */
module PollPass {
  import opened Basics
  import opened Messages
  import opened Queues
  import opened Sendings
  import opened Stores
  import opened Invariants
  import opened Steps

  ghost predicate NoRepeat(order: seq<string>) {
    forall i, j | 0 <= i < j < |order| :: order[i] != order[j]
  }

  /** No queue has a negative retention period. */
  ghost predicate Patient(s: Store) {
    forall n | n in s.queues :: var ms := s.queues[n].options.messageRetentionPeriodMs; ms.Some? ==> ms.value >= 0
  }

  // ---- polling one list

  /** A poll at this instant does nothing to it. */
  predicate Calm(m: Msg, now: Instant) {
    !m.OverRetained(now) && !m.LeaseOver(now)
  }

  lemma {:induction false} PollConcat(o: QueueOptions, a: seq<Msg>, b: seq<Msg>, now: Instant)
    ensures Kept(o, a + b, now) == Kept(o, a, now) + Kept(o, b, now)
    ensures Exhausted(o, a + b, now) == Exhausted(o, a, now) + Exhausted(o, b, now)
  {
    if a == [] {
      assert a + b == b;
    } else {
      assert (a + b)[1..] == a[1..] + b;
      PollConcat(o, a[1..], b, now);
    }
  }

  lemma {:induction false} PollCalm(o: QueueOptions, ms: seq<Msg>, now: Instant)
    requires forall m | m in ms :: Calm(m, now)
    ensures Kept(o, ms, now) == ms && Exhausted(o, ms, now) == []
  {
    if ms != [] {
      assert ms[0] in ms && ms == [ms[0]] + ms[1..];
      assert FateOf(o, ms[0], now) == Stays(ms[0]);
      PollCalm(o, ms[1..], now);
    }
  }

  lemma PollThenSend(o: QueueOptions, ms: seq<Msg>, m: Msg, now: Instant)
    requires Calm(m, now)
    ensures Kept(o, ms + [m], now) == Kept(o, ms, now) + [m]
    ensures Exhausted(o, ms + [m], now) == Exhausted(o, ms, now)
  {
    PollConcat(o, ms, [m], now);
    PollCalm(o, [m], now);
  }

  /** What a poll keeps, it leaves alone when it comes again at the same instant. */
  lemma {:induction false} KeptCalm(o: QueueOptions, ms: seq<Msg>, now: Instant)
    ensures forall m | m in Kept(o, ms, now) :: Calm(m, now)
    ensures forall m' | m' in Kept(o, ms, now) :: exists m | m in ms :: m.id == m'.id
  {
    if ms != [] {
      KeptCalm(o, ms[1..], now);
      assert ms == [ms[0]] + ms[1..];
      forall m' | m' in Kept(o, ms[1..], now) ensures exists m | m in ms :: m.id == m'.id {
        var m :| m in ms[1..] && m.id == m'.id;
        assert m in ms;
      }
      assert ms[0] in ms;
      if FateOf(o, ms[0], now).Stays? {
        FateKeepsId(o, ms[0], now);
      }
    }
  }

  function Ids(ms: seq<Msg>): seq<Id> {
    Map(ms, (m: Msg) => m.id)
  }

  lemma {:induction false} IdsMember(ms: seq<Msg>, m: Msg)
    requires m in ms
    ensures m.id in Ids(ms)
  {
    var i :| 0 <= i < |ms| && ms[i] == m;
    assert Ids(ms)[i] == m.id;
  }

  /** Its retention ended before `now`. */
  predicate IsOverdue(m: Msg, now: Instant) { m.retainUntil.Some? && m.retainUntil.value < now }

  /** Its lease ended before `now`, and it was delivered as often as a limit other than zero allows. */
  predicate IsExhausted(o: QueueOptions, m: Msg, now: Instant) {
    && m.expiresAt.Some? && m.expiresAt.value < now
    && o.maxReceiveCount.Some? && o.maxReceiveCount.value != 0 && m.receiveCount >= o.maxReceiveCount.value
  }

  /** Each message is exactly one of kept, dropped and taken off as exhausted; retention goes first. */
  lemma FatePartition(o: QueueOptions, ms: seq<Msg>, m: Msg, now: Instant)
    requires DistinctIds(ms) && m in ms
    ensures m.id in Ids(Kept(o, ms, now)) <==> !IsOverdue(m, now) && !IsExhausted(o, m, now)
    ensures m.id in Ids(Exhausted(o, ms, now)) <==> !IsOverdue(m, now) && IsExhausted(o, m, now)
  {
    KeptOrigin(o, ms, now);
    ExhaustedOrigin(o, ms, now);
    FateMember(o, ms, m, now);
    FateKeepsId(o, m, now);
    match FateOf(o, m, now) {
      case Stays(k) => IdsMember(Kept(o, ms, now), k);
      case Leaves(e) => IdsMember(Exhausted(o, ms, now), e);
      case Drops =>
    }
    if m.id in Ids(Kept(o, ms, now)) {
      var i :| 0 <= i < |Kept(o, ms, now)| && Ids(Kept(o, ms, now))[i] == m.id;
      assert HasFate(o, ms, now, Stays(Kept(o, ms, now)[i]));
      OneFate(o, ms, m, Stays(Kept(o, ms, now)[i]), now);
    }
    if m.id in Ids(Exhausted(o, ms, now)) {
      var i :| 0 <= i < |Exhausted(o, ms, now)| && Ids(Exhausted(o, ms, now))[i] == m.id;
      assert HasFate(o, ms, now, Leaves(Exhausted(o, ms, now)[i]));
      OneFate(o, ms, m, Leaves(Exhausted(o, ms, now)[i]), now);
    }
  }

  lemma OneFate(o: QueueOptions, ms: seq<Msg>, m: Msg, f: Fate, now: Instant)
    requires DistinctIds(ms) && m in ms && HasFate(o, ms, now, f) && !f.Drops? && f.m.id == m.id
    ensures FateOf(o, m, now) == f
  {
    var x :| x in ms && FateOf(o, x, now) == f;
    FateKeepsId(o, x, now);
    var i :| 0 <= i < |ms| && ms[i] == m;
    var j :| 0 <= j < |ms| && ms[j] == x;
  }

  lemma {:induction false} FateMember(o: QueueOptions, ms: seq<Msg>, m: Msg, now: Instant)
    requires m in ms
    ensures var f := FateOf(o, m, now);
            (f.Stays? ==> f.m in Kept(o, ms, now)) && (f.Leaves? ==> f.m in Exhausted(o, ms, now))
  {
    if ms[0] != m {
      FateMember(o, ms[1..], m, now);
    }
  }

  /** What is kept stays in relative order. */
  lemma {:induction false} KeptInOrder(o: QueueOptions, ms: seq<Msg>, now: Instant)
    ensures Subsequence(Ids(Kept(o, ms, now)), Ids(ms))
  {
    if ms != [] {
      KeptInOrder(o, ms[1..], now);
      var k := Kept(o, ms, now);
      assert Ids(ms)[1..] == Ids(ms[1..]);
      if FateOf(o, ms[0], now).Stays? {
        FateKeepsId(o, ms[0], now);
        assert k[1..] == Kept(o, ms[1..], now);
        assert Ids(k)[1..] == Ids(k[1..]) && Ids(k)[0] == Ids(ms)[0];
      }
    }
  }

  // ---- letters

  /** What an exhausted message has to be sent to: its dead-letter queue, under its own id, or a
      queue subscribed to its dead-letter topic, under a fresh one. */
  datatype Letter = Letter(to: string, m: Msg, own: bool)

  function TopicLetters(subs: seq<Subscription>, m: Msg): seq<Letter> {
    if subs == [] then [] else [Letter(subs[0].queueName, m, false)] + TopicLetters(subs[1..], m)
  }

  function Letters(topics: map<string, Topic>, o: QueueOptions, m: Msg): seq<Letter> {
    (if Named(o.deadLetterQueueName) then [Letter(o.deadLetterQueueName.value, m, true)] else [])
    + (if Named(o.deadLetterTopicName) && o.deadLetterTopicName.value in topics
       then TopicLetters(topics[o.deadLetterTopicName.value].subscriptions, m) else [])
  }

  function LettersFor(topics: map<string, Topic>, o: QueueOptions, ms: seq<Msg>): seq<Letter> {
    if ms == [] then [] else Letters(topics, o, ms[0]) + LettersFor(topics, o, ms[1..])
  }

  /** The letters of one queue: its exhausted messages, the last of the list first. */
  function QueueLetters(s: Store, n: string, now: Instant): seq<Letter> {
    if n !in s.queues then []
    else LettersFor(s.topics, s.queues[n].options, Reverse(Exhausted(s.queues[n].options, s.queues[n].messages, now)))
  }

  function AllLetters(s: Store, order: seq<string>, now: Instant): seq<Letter> {
    if order == [] then [] else QueueLetters(s, order[0], now) + AllLetters(s, order[1..], now)
  }

  function Post(s: Store, l: Letter, now: Instant): Outcome {
    if l.own then SendTo(s, l.to, l.m.id, l.m.body, DeadLetterOptions(l.m), now)
    else SendTo(FreshId(s), l.to, s.nextId, l.m.body, DeadLetterOptions(l.m), now)
  }

  function Deliver(s: Store, ls: seq<Letter>, now: Instant): Outcome
    decreases |ls|
  {
    if ls == [] then Done(s)
    else
      var r := Post(s, ls[0], now);
      if r.error.Some? then r else Deliver(r.store, ls[1..], now)
  }

  lemma {:induction false} DeliverConcat(s: Store, a: seq<Letter>, b: seq<Letter>, now: Instant)
    ensures Deliver(s, a + b, now)
         == (var r := Deliver(s, a, now); if r.error.Some? then r else Deliver(r.store, b, now))
    decreases |a|
  {
    if a == [] {
      assert a + b == b;
    } else {
      assert (a + b)[1..] == a[1..] + b;
      var r := Post(s, a[0], now);
      if r.error.None? {
        DeliverConcat(r.store, a[1..], b, now);
      }
    }
  }

  lemma {:induction false} PublishIsDeliver(s: Store, subs: seq<Subscription>, m: Msg, now: Instant)
    ensures PublishEach(s, subs, m.body, DeadLetterOptions(m), now) == Deliver(s, TopicLetters(subs, m), now)
    decreases |subs|
  {
    if subs != [] {
      var l := Letter(subs[0].queueName, m, false);
      assert TopicLetters(subs, m)[0] == l && TopicLetters(subs, m)[1..] == TopicLetters(subs[1..], m);
      var r := Post(s, l, now);
      if r.error.None? {
        PublishIsDeliver(r.store, subs[1..], m, now);
      }
    }
  }

  lemma ForwardOneIsDeliver(s: Store, o: QueueOptions, m: Msg, now: Instant)
    requires ForwardOne(s, o, m, now).error.None?
    ensures ForwardOne(s, o, m, now) == Deliver(s, Letters(s.topics, o, m), now)
    ensures ForwardOne(s, o, m, now).store.topics == s.topics
  {
    var first := if Named(o.deadLetterQueueName) then [Letter(o.deadLetterQueueName.value, m, true)] else [];
    var s1 := Deliver(s, first, now).store;
    var second := if Named(o.deadLetterTopicName) && o.deadLetterTopicName.value in s.topics
                  then TopicLetters(s.topics[o.deadLetterTopicName.value].subscriptions, m) else [];
    DeliverConcat(s, first, second, now);
    if Named(o.deadLetterQueueName) {
      assert first[1..] == [];
    }
    if Named(o.deadLetterTopicName) {
      PublishIsDeliver(s1, s.topics[o.deadLetterTopicName.value].subscriptions, m, now);
      DeliverKeepsFrame(s1, second, now);
    }
  }

  lemma {:induction false} DeliverKeepsFrame(s: Store, ls: seq<Letter>, now: Instant)
    ensures SameFrame(s, Deliver(s, ls, now).store)
    decreases |ls|
  {
    if ls != [] {
      var r := Post(s, ls[0], now);
      if r.error.None? {
        DeliverKeepsFrame(r.store, ls[1..], now);
      }
    }
  }

  /** The same topics, and the same queues with the same options. */
  ghost predicate SameFrame(s: Store, s': Store) {
    && s'.topics == s.topics && s'.queues.Keys == s.queues.Keys
    && forall n | n in s.queues :: s'.queues[n].options == s.queues[n].options
  }

  lemma {:induction false} ForwardAllIsDeliver(s: Store, o: QueueOptions, ms: seq<Msg>, now: Instant)
    requires ForwardAll(s, o, ms, now).error.None?
    ensures ForwardAll(s, o, ms, now) == Deliver(s, LettersFor(s.topics, o, ms), now)
    decreases |ms|
  {
    if ms != [] {
      ForwardOneIsDeliver(s, o, ms[0], now);
      var r := ForwardOne(s, o, ms[0], now);
      ForwardAllIsDeliver(r.store, o, ms[1..], now);
      DeliverConcat(s, Letters(s.topics, o, ms[0]), LettersFor(s.topics, o, ms[1..]), now);
    }
  }

  lemma {:induction false} NoLetters(topics: map<string, Topic>, o: QueueOptions, ms: seq<Msg>)
    requires !Named(o.deadLetterQueueName) && !Named(o.deadLetterTopicName)
    ensures LettersFor(topics, o, ms) == []
  {
    if ms != [] {
      NoLetters(topics, o, ms[1..]);
    }
  }

  lemma PollOneIsDeliver(s: Store, n: string, now: Instant)
    requires n in s.queues && PollOne(s, n, now).error.None?
    ensures PollOne(s, n, now) == Deliver(PutQueue(s, n, PollQueue(s.queues[n], now)), QueueLetters(s, n, now), now)
  {
    var q := s.queues[n];
    var ms := Reverse(Exhausted(q.options, q.messages, now));
    if !Named(q.options.deadLetterQueueName) && !Named(q.options.deadLetterTopicName) {
      NoLetters(s.topics, q.options, ms);
    } else {
      ForwardAllIsDeliver(PutQueue(s, n, PollQueue(q, now)), q.options, ms, now);
    }
  }

  // ---- polling and delivering commute

  /** Every listed queue polled, nothing delivered. */
  function KeepAll(s: Store, names: seq<string>, now: Instant): Store {
    s.(queues := map n | n in s.queues :: if n in names then PollQueue(s.queues[n], now) else s.queues[n])
  }

  lemma SentIsCalm(q: Queue, id: Id, body: string, o: SendOptions, now: Instant)
    requires q.options.messageRetentionPeriodMs.Some? ==> q.options.messageRetentionPeriodMs.value >= 0
    ensures Calm(SentMsg(q, id, body, o, now), now)
  {
  }

  lemma KeepAllPut(s: Store, n: string, q: Queue, names: seq<string>, now: Instant)
    ensures KeepAll(PutQueue(s, n, q), names, now)
         == PutQueue(KeepAll(s, names, now), n, if n in names then PollQueue(q, now) else q)
  {
    assert KeepAll(PutQueue(s, n, q), names, now).queues
        == PutQueue(KeepAll(s, names, now), n, if n in names then PollQueue(q, now) else q).queues;
  }

  lemma SendAfterPoll(q: Queue, id: Id, body: string, o: SendOptions, now: Instant)
    requires q.options.messageRetentionPeriodMs.Some? ==> q.options.messageRetentionPeriodMs.value >= 0
    requires o.deduplicationId.None? && Send(q, id, body, o, now).Ok?
    ensures Send(PollQueue(q, now), id, body, o, now) == Ok(PollQueue(Send(q, id, body, o, now).value, now))
  {
    SentIsCalm(q, id, body, o, now);
    PollThenSend(q.options, q.messages, SentMsg(q, id, body, o, now), now);
    SendErrorAfterPoll(q, id, body, o, now);
  }

  lemma SendCommutes(s: Store, n: string, id: Id, body: string, o: SendOptions, names: seq<string>, now: Instant)
    requires Patient(s) && o.deduplicationId.None? && SendTo(s, n, id, body, o, now).error.None?
    ensures SendTo(KeepAll(s, names, now), n, id, body, o, now)
         == Done(KeepAll(SendTo(s, n, id, body, o, now).store, names, now))
  {
    SendAfterPoll(s.queues[n], id, body, o, now);
    KeepAllPut(s, n, Send(s.queues[n], id, body, o, now).value, names, now);
  }

  /** Polling only takes ids away, so it cannot make a send fail. */
  lemma SendErrorAfterPoll(q: Queue, id: Id, body: string, o: SendOptions, now: Instant)
    requires o.deduplicationId.None? && SendError(q, id, body, o).None?
    ensures SendError(PollQueue(q, now), id, body, o).None?
  {
    KeptCalm(q.options, q.messages, now);
  }

  lemma SendKeepsLetters(s: Store, n: string, id: Id, body: string, o: SendOptions, now: Instant)
    requires Patient(s) && SendTo(s, n, id, body, o, now).error.None?
    ensures forall k :: QueueLetters(SendTo(s, n, id, body, o, now).store, k, now) == QueueLetters(s, k, now)
  {
    var q, m := s.queues[n], SentMsg(s.queues[n], id, body, o, now);
    SentIsCalm(q, id, body, o, now);
    PollThenSend(q.options, q.messages, m, now);
  }

  lemma PostCommutes(s: Store, l: Letter, names: seq<string>, now: Instant)
    requires Patient(s) && Post(s, l, now).error.None?
    ensures Post(KeepAll(s, names, now), l, now) == Done(KeepAll(Post(s, l, now).store, names, now))
    ensures Patient(Post(s, l, now).store)
    ensures forall k :: QueueLetters(Post(s, l, now).store, k, now) == QueueLetters(s, k, now)
  {
    if l.own {
      SendCommutes(s, l.to, l.m.id, l.m.body, DeadLetterOptions(l.m), names, now);
      SendKeepsLetters(s, l.to, l.m.id, l.m.body, DeadLetterOptions(l.m), now);
    } else {
      SendCommutes(FreshId(s), l.to, s.nextId, l.m.body, DeadLetterOptions(l.m), names, now);
      SendKeepsLetters(FreshId(s), l.to, s.nextId, l.m.body, DeadLetterOptions(l.m), now);
      assert KeepAll(FreshId(s), names, now) == FreshId(KeepAll(s, names, now));
      assert forall k :: QueueLetters(FreshId(s), k, now) == QueueLetters(s, k, now);
    }
  }

  lemma {:induction false} DeliverCommutes(s: Store, ls: seq<Letter>, names: seq<string>, now: Instant)
    requires Patient(s) && Deliver(s, ls, now).error.None?
    ensures Deliver(KeepAll(s, names, now), ls, now) == Done(KeepAll(Deliver(s, ls, now).store, names, now))
    ensures Patient(Deliver(s, ls, now).store)
    ensures forall k :: QueueLetters(Deliver(s, ls, now).store, k, now) == QueueLetters(s, k, now)
    decreases |ls|
  {
    if ls != [] {
      PostCommutes(s, ls[0], names, now);
      DeliverCommutes(Post(s, ls[0], now).store, ls[1..], names, now);
    }
  }

  lemma {:induction false} SameLetters(s: Store, s': Store, order: seq<string>, now: Instant)
    requires forall n | n in order :: QueueLetters(s', n, now) == QueueLetters(s, n, now)
    ensures AllLetters(s', order, now) == AllLetters(s, order, now)
  {
    if order != [] {
      assert order[0] in order && forall n | n in order[1..] :: n in order;
      SameLetters(s, s', order[1..], now);
    }
  }

  /** A pass that succeeds equals polling every queue first and delivering all letters after. */
  lemma {:induction false} PassIsDelivery(s: Store, order: seq<string>, now: Instant)
    requires Patient(s) && NoRepeat(order) && PollQueues(s, order, now).error.None?
    ensures PollQueues(s, order, now) == Deliver(KeepAll(s, order, now), AllLetters(s, order, now), now)
    decreases |order|
  {
    if order == [] {
      assert KeepAll(s, order, now).queues == s.queues;
    } else {
      var n, rest := order[0], order[1..];
      assert n !in rest && order == [n] + rest;
      if n !in s.queues {
        PassIsDelivery(s, rest, now);
        assert KeepAll(s, order, now).queues == KeepAll(s, rest, now).queues;
        assert [] + AllLetters(s, rest, now) == AllLetters(s, rest, now);
      } else {
        FirstOfPass(s, n, rest, now);
        PassIsDelivery(PollOne(s, n, now).store, rest, now);
        DeliverConcat(KeepAll(s, order, now), QueueLetters(s, n, now), AllLetters(s, rest, now), now);
      }
    }
  }

  lemma FirstOfPass(s: Store, n: string, rest: seq<string>, now: Instant)
    requires Patient(s) && n in s.queues && n !in rest && PollOne(s, n, now).error.None?
    ensures var s1 := PollOne(s, n, now).store;
            && Patient(s1) && AllLetters(s1, rest, now) == AllLetters(s, rest, now)
            && Deliver(KeepAll(s, [n] + rest, now), QueueLetters(s, n, now), now) == Done(KeepAll(s1, rest, now))
  {
    var s0 := PutQueue(s, n, PollQueue(s.queues[n], now));
    PollOneIsDeliver(s, n, now);
    DeliverCommutes(s0, QueueLetters(s, n, now), rest, now);
    assert KeepAll(s0, rest, now).queues == KeepAll(s, [n] + rest, now).queues;
    forall k | k in rest ensures QueueLetters(PollOne(s, n, now).store, k, now) == QueueLetters(s, k, now) {
      assert QueueLetters(s0, k, now) == QueueLetters(s, k, now);
    }
    SameLetters(s, PollOne(s, n, now).store, rest, now);
  }

  // ---- the messages of each queue after the pass

  /** The message a letter becomes in its queue. */
  function Arrival(s: Store, l: Letter, nid: Id, now: Instant): Msg
    requires l.to in s.queues
  {
    SentMsg(s.queues[l.to], if l.own then l.m.id else nid, l.m.body, DeadLetterOptions(l.m), now)
  }

  /** The messages the letters to queue `n` become, in order. */
  function Arrivals(s: Store, ls: seq<Letter>, n: string, nid: Id, now: Instant): seq<Msg>
    requires n in s.queues
  {
    if ls == [] then []
    else
      (if ls[0].to == n then [Arrival(s, ls[0], nid, now)] else [])
      + Arrivals(s, ls[1..], n, if ls[0].own then nid else nid + 1, now)
  }

  lemma {:induction false} SameArrivals(s: Store, s': Store, ls: seq<Letter>, n: string, nid: Id, now: Instant)
    requires n in s.queues && n in s'.queues && s'.queues[n].options == s.queues[n].options
    ensures Arrivals(s', ls, n, nid, now) == Arrivals(s, ls, n, nid, now)
  {
    if ls != [] {
      SameArrivals(s, s', ls[1..], n, if ls[0].own then nid else nid + 1, now);
    }
  }

  lemma {:induction false} DeliverAppends(s: Store, ls: seq<Letter>, n: string, now: Instant)
    requires n in s.queues && Deliver(s, ls, now).error.None?
    ensures var s' := Deliver(s, ls, now).store;
            n in s'.queues
              && s'.queues[n] == s.queues[n].(messages := s.queues[n].messages + Arrivals(s, ls, n, s.nextId, now))
    decreases |ls|
  {
    if ls == [] {
      assert s.queues[n].messages + [] == s.queues[n].messages;
    } else {
      var s1 := Post(s, ls[0], now).store;
      DeliverAppends(s1, ls[1..], n, now);
      SameArrivals(s, s1, ls[1..], n, s1.nextId, now);
      var first := if ls[0].to == n then [Arrival(s, ls[0], s.nextId, now)] else [];
      assert s1.queues[n].messages == s.queues[n].messages + first;
      ConcatAssoc(s.queues[n].messages, first, Arrivals(s, ls[1..], n, s1.nextId, now));
    }
  }

  /** After a pass that succeeds every queue holds what its poll kept, in order, followed by one
      message for each letter addressed to it, and nothing else. */
  lemma PassMessages(s: Store, order: seq<string>, now: Instant, n: string)
    requires Patient(s) && NoRepeat(order) && PollQueues(s, order, now).error.None? && n in s.queues && n in order
    ensures var s' := PollQueues(s, order, now).store;
            n in s'.queues
            && s'.queues[n].messages == Kept(s.queues[n].options, s.queues[n].messages, now)
                                        + Arrivals(s, AllLetters(s, order, now), n, s.nextId, now)
  {
    var ls := AllLetters(s, order, now);
    PassIsDelivery(s, order, now);
    DeliverAppends(KeepAll(s, order, now), ls, n, now);
    SameArrivals(s, KeepAll(s, order, now), ls, n, s.nextId, now);
  }

  function IsTo(n: string): Letter -> bool { (l: Letter) => l.to == n }

  /** The message is a new one with the body, priority, attributes and nak reason of the letter, under the
      delay and the retention of its queue; only a letter to a dead-letter queue keeps its id. */
  ghost predicate Carries(a: Msg, l: Letter, qo: QueueOptions, nid: Id, now: Instant) {
    && AsSent(qo, a, a.id, l.m.body,
              SendOptions(Some(l.m.priority), Some(l.m.attributes), None, None, l.m.lastNakReason), now)
    && if l.own then a.id == l.m.id else a.id >= nid
  }

  lemma ArrivalCarries(s: Store, l: Letter, nid: Id, now: Instant)
    requires l.to in s.queues
    ensures Carries(Arrival(s, l, nid, now), l, s.queues[l.to].options, nid, now)
  {
    SentIsAsSent(s.queues[l.to], if l.own then l.m.id else nid, l.m.body, DeadLetterOptions(l.m), now);
  }

  lemma {:induction false} ArrivalsCarry(s: Store, ls: seq<Letter>, n: string, nid: Id, nid0: Id, now: Instant)
    requires n in s.queues && nid0 <= nid
    ensures var a, mine := Arrivals(s, ls, n, nid, now), Filter(ls, IsTo(n));
            |a| == |mine| && forall i | 0 <= i < |a| :: Carries(a[i], mine[i], s.queues[n].options, nid0, now)
  {
    if ls != [] {
      if ls[0].to == n {
        ArrivalCarries(s, ls[0], nid, now);
      }
      ArrivalsCarry(s, ls[1..], n, if ls[0].own then nid else nid + 1, nid0, now);
    }
  }

  // ---- when a pass succeeds

  predicate Accepts(s: Store, l: Letter) {
    l.to in s.queues && !s.queues[l.to].options.TooLarge(l.m.body)
  }

  /** The dead-letter queue and topic of the queue exist. */
  predicate TargetsExist(s: Store, n: string) {
    n in s.queues ==>
      var o := s.queues[n].options;
      && (Named(o.deadLetterQueueName) ==> o.deadLetterQueueName.value in s.queues)
      && (Named(o.deadLetterTopicName) ==> o.deadLetterTopicName.value in s.topics)
  }

  ghost predicate Deliverable(s: Store, order: seq<string>, now: Instant) {
    && (forall n | n in order :: TargetsExist(s, n))
    && (forall l | l in AllLetters(s, order, now) :: Accepts(s, l))
  }

  lemma {:induction false} DeliverAccepts(s: Store, ls: seq<Letter>, now: Instant)
    requires Deliver(s, ls, now).error.None?
    ensures forall l | l in ls :: Accepts(s, l)
    decreases |ls|
  {
    if ls != [] {
      DeliverAccepts(Post(s, ls[0], now).store, ls[1..], now);
      assert ls == [ls[0]] + ls[1..];
    }
  }

  lemma {:induction false} DeliverFails(s: Store, ls: seq<Letter>, now: Instant)
    requires Deliver(s, ls, now).error.Some? && Deliver(s, ls, now).error != Some(DuplicateId)
    ensures exists l | l in ls :: !Accepts(s, l)
    decreases |ls|
  {
    var r := Post(s, ls[0], now);
    if r.error.Some? {
      assert ls[0] in ls && !Accepts(s, ls[0]);
    } else {
      DeliverFails(r.store, ls[1..], now);
      var l :| l in ls[1..] && !Accepts(r.store, l);
      assert l in ls && !Accepts(s, l);
    }
  }

  lemma {:induction false} TopicLetterAt(subs: seq<Subscription>, m: Msg, i: nat)
    requires i < |subs|
    ensures Letter(subs[i].queueName, m, false) in TopicLetters(subs, m)
  {
    if i > 0 {
      TopicLetterAt(subs[1..], m, i - 1);
    }
  }

  lemma ForwardOneFails(s: Store, o: QueueOptions, m: Msg, now: Instant)
    requires Named(o.deadLetterTopicName) ==> o.deadLetterTopicName.value in s.topics
    requires ForwardOne(s, o, m, now).error.Some? && ForwardOne(s, o, m, now).error != Some(DuplicateId)
    ensures exists l | l in Letters(s.topics, o, m) :: !Accepts(s, l)
  {
    var own := Letter(if Named(o.deadLetterQueueName) then o.deadLetterQueueName.value else "", m, true);
    if Named(o.deadLetterQueueName) && Post(s, own, now).error.Some? {
      assert own in Letters(s.topics, o, m) && !Accepts(s, own);
    } else {
      var s1 := if Named(o.deadLetterQueueName) then Post(s, own, now).store else s;
      var subs := s.topics[o.deadLetterTopicName.value].subscriptions;
      if exists i | 0 <= i < |subs| :: subs[i].queueName !in s1.queues {
        var i :| 0 <= i < |subs| && subs[i].queueName !in s1.queues;
        TopicLetterAt(subs, m, i);
        assert !Accepts(s, Letter(subs[i].queueName, m, false));
      } else {
        PublishIsDeliver(s1, subs, m, now);
        DeliverFails(s1, TopicLetters(subs, m), now);
        var l :| l in TopicLetters(subs, m) && !Accepts(s1, l);
        assert l in Letters(s.topics, o, m) && !Accepts(s, l);
      }
    }
  }

  lemma {:induction false} ForwardAllFails(s: Store, o: QueueOptions, ms: seq<Msg>, now: Instant)
    requires Named(o.deadLetterTopicName) ==> o.deadLetterTopicName.value in s.topics
    requires ForwardAll(s, o, ms, now).error.Some? && ForwardAll(s, o, ms, now).error != Some(DuplicateId)
    ensures exists l | l in LettersFor(s.topics, o, ms) :: !Accepts(s, l)
    decreases |ms|
  {
    var r := ForwardOne(s, o, ms[0], now);
    if r.error.Some? {
      ForwardOneFails(s, o, ms[0], now);
      var l :| l in Letters(s.topics, o, ms[0]) && !Accepts(s, l);
      assert l in LettersFor(s.topics, o, ms);
    } else {
      ForwardOneIsDeliver(s, o, ms[0], now);
      DeliverKeepsFrame(s, Letters(s.topics, o, ms[0]), now);
      ForwardAllFails(r.store, o, ms[1..], now);
      var l :| l in LettersFor(s.topics, o, ms[1..]) && !Accepts(r.store, l);
      assert l in LettersFor(s.topics, o, ms) && !Accepts(s, l);
    }
  }

  lemma AcceptsAlike(s: Store, s': Store, l: Letter)
    requires SameFrame(s, s')
    ensures Accepts(s, l) == Accepts(s', l)
  {
    assert l.to in s.queues.Keys <==> l.to in s'.queues.Keys;
  }

  lemma PollOneFails(s: Store, n: string, now: Instant)
    requires n in s.queues && PollOne(s, n, now).error.Some? && PollOne(s, n, now).error != Some(DuplicateId)
    ensures !TargetsExist(s, n) || exists l | l in QueueLetters(s, n, now) :: !Accepts(s, l)
  {
    var q := s.queues[n];
    if TargetsExist(s, n) {
      var s0 := PutQueue(s, n, PollQueue(q, now));
      ForwardAllFails(s0, q.options, Reverse(Exhausted(q.options, q.messages, now)), now);
      var l :| l in QueueLetters(s, n, now) && !Accepts(s0, l);
      AcceptsAlike(s, s0, l);
    }
  }

  lemma {:induction false} PassFails(s: Store, order: seq<string>, now: Instant)
    requires Patient(s) && NoRepeat(order)
    requires PollQueues(s, order, now).error.Some? && PollQueues(s, order, now).error != Some(DuplicateId)
    ensures !Deliverable(s, order, now)
    decreases |order|
  {
    var n, rest := order[0], order[1..];
    assert n !in rest && order == [n] + rest;
    if n !in s.queues {
      PassFails(s, rest, now);
      NotDeliverableRest(s, s, n, rest, now);
    } else if PollOne(s, n, now).error.Some? {
      PollOneFails(s, n, now);
      if TargetsExist(s, n) {
        var l :| l in QueueLetters(s, n, now) && !Accepts(s, l);
        assert l in AllLetters(s, order, now);
      }
    } else {
      FirstOfPass(s, n, rest, now);
      PollOneFrame(s, n, now);
      PassFails(PollOne(s, n, now).store, rest, now);
      NotDeliverableRest(s, PollOne(s, n, now).store, n, rest, now);
    }
  }

  lemma PollOneFrame(s: Store, n: string, now: Instant)
    requires n in s.queues && PollOne(s, n, now).error.None?
    ensures SameFrame(s, PollOne(s, n, now).store)
  {
    PollOneIsDeliver(s, n, now);
    DeliverKeepsFrame(PutQueue(s, n, PollQueue(s.queues[n], now)), QueueLetters(s, n, now), now);
  }

  lemma NotDeliverableRest(s: Store, s1: Store, n: string, rest: seq<string>, now: Instant)
    requires SameFrame(s, s1) && AllLetters(s1, rest, now) == AllLetters(s, rest, now) && !Deliverable(s1, rest, now)
    ensures !Deliverable(s, [n] + rest, now)
  {
    var order := [n] + rest;
    assert order[1..] == rest;
    if k :| k in rest && !TargetsExist(s1, k) {
      assert k in order && !TargetsExist(s, k);
    } else {
      var l :| l in AllLetters(s1, rest, now) && !Accepts(s1, l);
      assert l in AllLetters(s, order, now) && !Accepts(s, l);
    }
  }

  lemma {:induction false} PassTargets(s: Store, order: seq<string>, now: Instant)
    requires PollQueues(s, order, now).error.None?
    ensures forall n | n in order :: TargetsExist(s, n)
    decreases |order|
  {
    if order != [] {
      assert order == [order[0]] + order[1..];
      if order[0] in s.queues {
        PollOneFrame(s, order[0], now);
        PassTargets(PollOne(s, order[0], now).store, order[1..], now);
      } else {
        PassTargets(s, order[1..], now);
      }
    }
  }

  /** A pass succeeds exactly when all dead-letter targets exist and every queue a letter is
      addressed to exists and accepts the size of its body. */
  lemma PassSucceeds(s: Store, order: seq<string>, now: Instant)
    requires Inv(s) && Patient(s) && NoRepeat(order)
    ensures PollQueues(s, order, now).error.None? <==> Deliverable(s, order, now)
  {
    if PollQueues(s, order, now).error.None? {
      PassTargets(s, order, now);
      PassIsDelivery(s, order, now);
      DeliverAccepts(KeepAll(s, order, now), AllLetters(s, order, now), now);
      forall l | l in AllLetters(s, order, now) ensures Accepts(s, l) {
        assert Accepts(KeepAll(s, order, now), l);
      }
    } else {
      ReachedSelf(s, now, None);
      PollQueuesKeeps(s, s, order, now);
      PassFails(s, order, now);
    }
  }

  // ---- exhausted messages

  lemma {:induction false} LetterOf(topics: map<string, Topic>, o: QueueOptions, ms: seq<Msg>, e: Msg, l: Letter)
    requires e in ms && l in Letters(topics, o, e)
    ensures l in LettersFor(topics, o, ms)
  {
    if ms[0] != e {
      LetterOf(topics, o, ms[1..], e, l);
    }
  }

  lemma {:induction false} AllLettersHave(s: Store, order: seq<string>, now: Instant, n: string, l: Letter)
    requires n in order && l in QueueLetters(s, n, now)
    ensures l in AllLetters(s, order, now)
  {
    if order[0] != n {
      AllLettersHave(s, order[1..], now, n, l);
    }
  }

  lemma {:induction false} ArrivalOf(s: Store, ls: seq<Letter>, n: string, nid: Id, now: Instant, l: Letter)
    returns (a: Msg)
    requires n in s.queues && l in ls && l.to == n
    ensures a in Arrivals(s, ls, n, nid, now) && Carries(a, l, s.queues[n].options, nid, now)
  {
    if ls[0] == l {
      ArrivalCarries(s, l, nid, now);
      a := Arrival(s, l, nid, now);
    } else {
      a := ArrivalOf(s, ls[1..], n, if ls[0].own then nid else nid + 1, now, l);
    }
  }

  /** In a pass that succeeds, in any order and whatever cycles the dead-letter queues form, an
      exhausted message ends exactly once in its dead-letter queue, with what it carried. */
  lemma ExhaustedRehomed(s: Store, order: seq<string>, now: Instant, n: string, m: Msg, d: string) returns (a: Msg)
    requires Inv(s) && Patient(s) && NoRepeat(order) && PollQueues(s, order, now).error.None?
    requires forall k | k in s.queues :: k in order
    requires In(s, n, m) && !IsOverdue(m, now) && IsExhausted(s.queues[n].options, m, now)
    requires Named(s.queues[n].options.deadLetterQueueName) && s.queues[n].options.deadLetterQueueName == Some(d)
    ensures var s' := PollQueues(s, order, now).store;
            && In(s', d, a) && d in s.queues
            && AsSent(s.queues[d].options, a, m.id, m.body,
                      SendOptions(Some(m.priority), Some(m.attributes), None, None, m.lastNakReason), now)
            && forall k, x :: In(s', k, x) && x.id == m.id ==> k == d && x == a
  {
    var o := s.queues[n].options;
    var e := FateOf(o, m, now).m;
    FateMember(o, s.queues[n].messages, m, now);
    ReverseMembers(Exhausted(o, s.queues[n].messages, now));
    var l := Letter(d, e, true);
    LetterOf(s.topics, o, Reverse(Exhausted(o, s.queues[n].messages, now)), e, l);
    AllLettersHave(s, order, now, n, l);
    PassTargets(s, order, now);
    assert TargetsExist(s, n);
    PassMessages(s, order, now, d);
    a := ArrivalOf(s, AllLetters(s, order, now), d, s.nextId, now, l);
    ReachedSelf(s, now, None);
    PollQueuesKeeps(s, s, order, now);
    var s' := PollQueues(s, order, now).store;
    assert In(s', d, a);
    forall k, x | In(s', k, x) && x.id == m.id ensures k == d && x == a {
      SameIdSame(s', k, x, d, a);
    }
  }

  // ---- polling twice

  ghost predicate AllCalm(s: Store, now: Instant) {
    && (forall n | n in s.queues :: !Expired(s.queues[n], now) && TargetsExist(s, n))
    && (forall n, m | n in s.queues && m in s.queues[n].messages :: Calm(m, now))
  }

  lemma CalmPollOne(s: Store, n: string, now: Instant)
    requires n in s.queues && AllCalm(s, now)
    ensures PollOne(s, n, now) == Done(s)
  {
    var q := s.queues[n];
    PollCalm(q.options, q.messages, now);
    assert s.queues[n := q] == s.queues;
  }

  lemma {:induction false} CalmPoll(s: Store, order: seq<string>, now: Instant)
    requires AllCalm(s, now)
    ensures PollQueues(s, order, now) == Done(s)
  {
    if order != [] {
      CalmPoll(s, order[1..], now);
      if order[0] in s.queues {
        CalmPollOne(s, order[0], now);
      }
    }
  }

  lemma {:induction false} ArrivalsCalm(s: Store, ls: seq<Letter>, n: string, nid: Id, now: Instant)
    requires Patient(s) && n in s.queues
    ensures forall a | a in Arrivals(s, ls, n, nid, now) :: Calm(a, now)
  {
    if ls != [] {
      ArrivalsCalm(s, ls[1..], n, if ls[0].own then nid else nid + 1, now);
      if ls[0].to == n {
        SentIsCalm(s.queues[n], if ls[0].own then ls[0].m.id else nid, ls[0].m.body, DeadLetterOptions(ls[0].m), now);
      }
    }
  }

  lemma PassCalms(s: Store, order: seq<string>, now: Instant)
    requires Patient(s) && NoRepeat(order) && PollQueues(s, order, now).error.None?
    requires forall n | n in s.queues :: n in order && !Expired(s.queues[n], now)
    ensures AllCalm(PollQueues(s, order, now).store, now)
  {
    var s', ls := PollQueues(s, order, now).store, AllLetters(s, order, now);
    PassIsDelivery(s, order, now);
    DeliverKeepsFrame(KeepAll(s, order, now), ls, now);
    PassTargets(s, order, now);
    forall n | n in s'.queues
      ensures !Expired(s'.queues[n], now) && TargetsExist(s', n)
      ensures forall m | m in s'.queues[n].messages :: Calm(m, now)
    {
      assert n in s.queues && n in order;
      assert TargetsExist(s, n);
      DeliverAppends(KeepAll(s, order, now), ls, n, now);
      ArrivalsCalm(KeepAll(s, order, now), ls, n, s.nextId, now);
      KeptCalm(s.queues[n].options, s.queues[n].messages, now);
    }
  }

  /** Polling is idempotent at one instant: after a poll that succeeds, another one, whatever the
      order of the queues, changes nothing, so no lease is penalised twice. */
  lemma PollTwice(s: Store, order: seq<string>, again: seq<string>, now: Instant)
    requires Patient(s) && NoRepeat(order) && Poll(s, order, now).error.None?
    requires forall n | n in s.queues && !Expired(s.queues[n], now) :: n in order
    ensures var s' := Poll(s, order, now).store; Poll(s', again, now) == Done(s')
  {
    var s' := Poll(s, order, now).store;
    PassCalms(RemoveExpired(s, now), order, now);
    assert RemoveExpired(s', now).queues == s'.queues;
    CalmPoll(s', again, now);
  }
}
