/** When a publish or a polling pass signals the receivers of a queue, by conditions on the store they
    start from (packages/store-memory/src/MemoryTopic.ts and MemoryStore.ts). */
module WakeGuards {
  import opened Basics
  import opened Messages
  import opened Queues
  import opened Stores
  import opened Invariants
  import opened PollPass
  import opened Transfers
  import opened Wakings

  /** A subscription names the queue, and its queue and those of all earlier ones take their copies. */
  ghost predicate Reaches(s: Store, subs: seq<Subscription>, body: string, o: SendOptions, n: string) {
    exists i | 0 <= i < |subs| :: subs[i].queueName == n && TakesUpTo(s, subs, body, o, i)
  }

  ghost predicate TakesUpTo(s: Store, subs: seq<Subscription>, body: string, o: SendOptions, i: nat)
    requires i < |subs|
  {
    forall j | 0 <= j <= i :: TakesAt(s, subs, body, o, j)
  }

  lemma ReachesLater(s: Store, s1: Store, subs: seq<Subscription>, body: string, o: SendOptions, n: string)
    requires subs != [] && DistinctTargets(subs) && TakesAt(s, subs, body, o, 0) && s1.nextId == s.nextId + 1
    requires forall k | k != subs[0].queueName ::
               (k in s1.queues <==> k in s.queues) && (k in s.queues ==> s1.queues[k] == s.queues[k])
    ensures Reaches(s, subs, body, o, n) <==> subs[0].queueName == n || Reaches(s1, subs[1..], body, o, n)
  {
    TakesLater(s, s1, subs, body, o);
    assert TakesUpTo(s, subs, body, o, 0);
    forall i | 0 < i < |subs|
      ensures TakesUpTo(s, subs, body, o, i) <==> TakesUpTo(s1, subs[1..], body, o, i - 1)
    {
      if TakesUpTo(s, subs, body, o, i) {
        forall j | 0 <= j <= i - 1 ensures TakesAt(s1, subs[1..], body, o, j) {
          assert TakesAt(s, subs, body, o, j + 1);
        }
      }
      if TakesUpTo(s1, subs[1..], body, o, i - 1) {
        forall j | 0 < j <= i ensures TakesAt(s, subs, body, o, j) {
          assert TakesAt(s1, subs[1..], body, o, j - 1);
        }
      }
    }
    if Reaches(s1, subs[1..], body, o, n) {
      var i :| 0 <= i < |subs[1..]| && subs[1..][i].queueName == n && TakesUpTo(s1, subs[1..], body, o, i);
      assert subs[i + 1].queueName == n && TakesUpTo(s, subs, body, o, i + 1);
    }
    if Reaches(s, subs, body, o, n) && subs[0].queueName != n {
      var i :| 0 <= i < |subs| && subs[i].queueName == n && TakesUpTo(s, subs, body, o, i);
      assert subs[1..][i - 1].queueName == n;
    }
  }

  lemma {:induction false} PublishEachExactly(s: Store, subs: seq<Subscription>, body: string, o: SendOptions,
          now: Instant, n: string)
    requires DistinctTargets(subs)
    ensures n in PublishEachWakes(s, subs, body, o, now) <==> Reaches(s, subs, body, o, n)
    decreases |subs|
  {
    if subs != [] {
      var r := SendTo(FreshId(s), subs[0].queueName, s.nextId, body, o, now);
      if r.error.None? {
        PublishEachExactly(r.store, subs[1..], body, o, now, n);
        ReachesLater(s, r.store, subs, body, o, n);
      } else {
        assert !TakesAt(s, subs, body, o, 0);
      }
    }
  }

  /** A publish signals the receivers of a queue exactly if every subscribed queue exists and the queue is
      subscribed and gets its copy before any other refuses its own. */
  lemma PublishWakesExactly(s: Store, t: string, body: string, o: SendOptions, now: Instant, n: string)
    requires Inv(s)
    ensures n in PublishWakes(s, t, body, o, now)
       <==> t in s.topics && AllPresent(s, s.topics[t].subscriptions)
            && Reaches(s, s.topics[t].subscriptions, body, o, n)
  {
    if t in s.topics {
      PublishEachExactly(s, s.topics[t].subscriptions, body, o, now, n);
    }
  }

  // ---- passes

  function Addressee(): Letter -> string { (l: Letter) => l.to }

  function Addressees(ls: seq<Letter>): seq<string> { Map(ls, Addressee()) }

  lemma AddresseesConcat(a: seq<Letter>, b: seq<Letter>)
    ensures Addressees(a + b) == Addressees(a) + Addressees(b)
  {
  }

  lemma {:induction false} TopicAddressees(s: Store, subs: seq<Subscription>, m: Msg, now: Instant)
    requires PublishEach(s, subs, m.body, DeadLetterOptions(m), now).error.None?
    ensures PublishEachWakes(s, subs, m.body, DeadLetterOptions(m), now) == Addressees(TopicLetters(subs, m))
    decreases |subs|
  {
    if subs != [] {
      var r := SendTo(FreshId(s), subs[0].queueName, s.nextId, m.body, DeadLetterOptions(m), now);
      TopicAddressees(r.store, subs[1..], m, now);
      AddresseesConcat([Letter(subs[0].queueName, m, false)], TopicLetters(subs[1..], m));
    }
  }

  lemma ForwardAddressees(s: Store, o: QueueOptions, m: Msg, now: Instant)
    requires ForwardOne(s, o, m, now).error.None?
    ensures ForwardOneWakes(s, o, m, now) == Addressees(Letters(s.topics, o, m))
  {
    var d, t := o.deadLetterQueueName, o.deadLetterTopicName;
    var r := if Named(d) then SendTo(s, d.value, m.id, m.body, DeadLetterOptions(m), now) else Done(s);
    var own := if Named(d) then [Letter(d.value, m, true)] else [];
    assert ForwardSendWakes(s, o, m) == Addressees(own);
    if Named(t) {
      var subs := s.topics[t.value].subscriptions;
      TopicAddressees(r.store, subs, m, now);
      AddresseesConcat(own, TopicLetters(subs, m));
    } else {
      AddresseesConcat(own, []);
    }
  }

  lemma {:induction false} ForwardAllAddressees(s: Store, o: QueueOptions, ms: seq<Msg>, now: Instant)
    requires ForwardAll(s, o, ms, now).error.None?
    ensures ForwardAllWakes(s, o, ms, now) == Addressees(LettersFor(s.topics, o, ms))
    decreases |ms|
  {
    if ms != [] {
      var r := ForwardOne(s, o, ms[0], now);
      ForwardAddressees(s, o, ms[0], now);
      ForwardOneIsDeliver(s, o, ms[0], now);
      ForwardAllAddressees(r.store, o, ms[1..], now);
      AddresseesConcat(Letters(s.topics, o, ms[0]), LettersFor(s.topics, o, ms[1..]));
    }
  }

  lemma PollOneAddressees(s: Store, n: string, now: Instant)
    requires n in s.queues && PollOne(s, n, now).error.None?
    ensures PollOneWakes(s, n, now) == Addressees(QueueLetters(s, n, now))
  {
    var q := s.queues[n];
    var ms := Reverse(Exhausted(q.options, q.messages, now));
    if Named(q.options.deadLetterQueueName) || Named(q.options.deadLetterTopicName) {
      ForwardAllAddressees(PutQueue(s, n, PollQueue(q, now)), q.options, ms, now);
    } else {
      NoLetters(s.topics, q.options, ms);
    }
  }

  /** A pass that succeeds signals exactly the receivers of the queues its letters are addressed to, in the
      order of the letters. */
  lemma {:induction false} PassWakesExactly(s: Store, order: seq<string>, now: Instant)
    requires Patient(s) && NoRepeat(order) && PollQueues(s, order, now).error.None?
    ensures PollQueuesWakes(s, order, now) == Addressees(AllLetters(s, order, now))
    decreases |order|
  {
    if order != [] {
      var n, rest := order[0], order[1..];
      assert n !in rest && order == [n] + rest;
      if n !in s.queues {
        PassWakesExactly(s, rest, now);
      } else {
        FirstOfPass(s, n, rest, now);
        PollOneAddressees(s, n, now);
        PassWakesExactly(PollOne(s, n, now).store, rest, now);
        AddresseesConcat(QueueLetters(s, n, now), AllLetters(s, rest, now));
      }
    }
  }
}
