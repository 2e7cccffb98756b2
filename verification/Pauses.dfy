/** What pausing a queue does to its receivers, over whole runs, and what sends and polls leave of a
    queue besides its messages (packages/store-memory/src/MemoryQueue.ts). */
module Pauses {
  import opened Basics
  import opened Messages
  import opened Queues
  import opened Stores
  import opened Steps

  // ---- all but the messages

  /** No queue was added, those still there changed in nothing but their messages, and the topics not at
      all. */
  ghost predicate OnlyMessages(s: Store, s': Store) {
    s'.topics == s.topics && s'.queues.Keys <= s.queues.Keys && forall n | n in s'.queues :: SameShell(s, s', n)
  }

  ghost predicate SameShell(s: Store, s': Store, n: string)
    requires n in s'.queues
  {
    n in s.queues && s'.queues[n] == s.queues[n].(messages := s'.queues[n].messages)
  }

  lemma SendKeepsShells(s: Store, n: string, id: Id, body: string, o: SendOptions, now: Instant)
    ensures OnlyMessages(s, SendTo(s, n, id, body, o, now).store)
    ensures SendTo(s, n, id, body, o, now).store.queues.Keys == s.queues.Keys
  {
  }

  lemma ShellsChain(a: Store, b: Store, c: Store)
    requires OnlyMessages(a, b) && OnlyMessages(b, c)
    ensures OnlyMessages(a, c)
  {
    forall n | n in c.queues ensures SameShell(a, c, n) {
      assert SameShell(b, c, n) && n in b.queues.Keys && SameShell(a, b, n);
    }
  }

  lemma {:induction false} PublishKeepsShells(s: Store, subs: seq<Subscription>, body: string, o: SendOptions,
          now: Instant)
    ensures OnlyMessages(s, PublishEach(s, subs, body, o, now).store)
    ensures PublishEach(s, subs, body, o, now).store.queues.Keys == s.queues.Keys
    decreases |subs|
  {
    if subs != [] {
      var r := SendTo(FreshId(s), subs[0].queueName, s.nextId, body, o, now);
      SendKeepsShells(FreshId(s), subs[0].queueName, s.nextId, body, o, now);
      if r.error.None? {
        PublishKeepsShells(r.store, subs[1..], body, o, now);
        ShellsChain(FreshId(s), r.store, PublishEach(r.store, subs[1..], body, o, now).store);
      }
    }
  }

  lemma TopicKeepsShells(s: Store, t: string, body: string, o: SendOptions, now: Instant)
    ensures OnlyMessages(s, Publish(s, t, body, o, now).store)
    ensures Publish(s, t, body, o, now).store.queues.Keys == s.queues.Keys
  {
    if t in s.topics {
      PublishKeepsShells(s, s.topics[t].subscriptions, body, o, now);
    }
  }

  lemma ForwardOneKeepsShells(s: Store, o: QueueOptions, m: Msg, now: Instant)
    ensures OnlyMessages(s, ForwardOne(s, o, m, now).store)
    ensures ForwardOne(s, o, m, now).store.queues.Keys == s.queues.Keys
  {
    var d, t := o.deadLetterQueueName, o.deadLetterTopicName;
    var r := if Named(d) then SendTo(s, d.value, m.id, m.body, DeadLetterOptions(m), now) else Done(s);
    if Named(d) {
      SendKeepsShells(s, d.value, m.id, m.body, DeadLetterOptions(m), now);
    }
    if r.error.None? && Named(t) {
      TopicKeepsShells(r.store, t.value, m.body, DeadLetterOptions(m), now);
      ShellsChain(s, r.store, Publish(r.store, t.value, m.body, DeadLetterOptions(m), now).store);
    }
  }

  lemma {:induction false} ForwardAllKeepsShells(s: Store, o: QueueOptions, ms: seq<Msg>, now: Instant)
    ensures OnlyMessages(s, ForwardAll(s, o, ms, now).store)
    ensures ForwardAll(s, o, ms, now).store.queues.Keys == s.queues.Keys
    decreases |ms|
  {
    if ms != [] {
      var r := ForwardOne(s, o, ms[0], now);
      ForwardOneKeepsShells(s, o, ms[0], now);
      if r.error.None? {
        ForwardAllKeepsShells(r.store, o, ms[1..], now);
        ShellsChain(s, r.store, ForwardAll(r.store, o, ms[1..], now).store);
      }
    }
  }

  lemma PollOneKeepsShells(s: Store, n: string, now: Instant)
    requires n in s.queues
    ensures OnlyMessages(s, PollOne(s, n, now).store)
    ensures PollOne(s, n, now).store.queues.Keys == s.queues.Keys
  {
    var q := s.queues[n];
    var s1 := PutQueue(s, n, PollQueue(q, now));
    ForwardAllKeepsShells(s1, q.options, Reverse(Exhausted(q.options, q.messages, now)), now);
    assert OnlyMessages(s, s1);
    ShellsChain(s, s1, PollOne(s, n, now).store);
  }

  lemma {:induction false} PollKeepsShells(s: Store, order: seq<string>, now: Instant)
    ensures OnlyMessages(s, PollQueues(s, order, now).store)
    ensures PollQueues(s, order, now).store.queues.Keys == s.queues.Keys
    decreases |order|
  {
    if order != [] {
      if order[0] in s.queues {
        var r := PollOne(s, order[0], now);
        PollOneKeepsShells(s, order[0], now);
        if r.error.None? {
          PollKeepsShells(r.store, order[1..], now);
          ShellsChain(s, r.store, PollQueues(r.store, order[1..], now).store);
        }
      } else {
        PollKeepsShells(s, order[1..], now);
      }
    }
  }

  predicate Adds(op: Op) { op.Sends? || op.Publishes? || op.Polls? }

  /** Sends, publishes and polls change nothing of a queue but its messages. */
  lemma AddsKeepShells(s: Store, op: Op, now: Instant)
    requires Adds(op)
    ensures OnlyMessages(s, Apply(s, op, now).store)
  {
    match op
    case Sends(n, body, o) => SendKeepsShells(FreshId(s), n, s.nextId, body, o, now);
    case Publishes(t, body, o) => TopicKeepsShells(s, t, body, o, now);
    case Polls(order) =>
      PollKeepsShells(RemoveExpired(s, now), order, now);
      ShellsChain(s, RemoveExpired(s, now), Apply(s, op, now).store);
  }

  // ---- the flag

  predicate PausedIn(s: Store, n: string) { n in s.queues && s.queues[n].paused }

  lemma OtherOpsPause(s: Store, op: Op, now: Instant, n: string)
    requires !Adds(op) && n in Apply(s, op, now).store.queues
    ensures Apply(s, op, now).store.queues[n].paused <==> op == Pauses(n) || (PausedIn(s, n) && op != Resumes(n))
  {
    if op.Unsubscribes? {
      UnsubscribeQueues(s, op.subscription, op.order);
    }
  }

  /** A queue is paused after an operation exactly if the operation pauses it, or it was before and the
      operation does not resume it; a new queue is not. */
  lemma PausedExactly(s: Store, op: Op, now: Instant, n: string)
    requires n in Apply(s, op, now).store.queues
    ensures Apply(s, op, now).store.queues[n].paused <==> op == Pauses(n) || (PausedIn(s, n) && op != Resumes(n))
  {
    if Adds(op) {
      AddsKeepShells(s, op, now);
      assert SameShell(s, Apply(s, op, now).store, n);
    } else {
      OtherOpsPause(s, op, now, n);
    }
  }

  /** From operation `i`, which pauses the queue, to operation `j` nothing resumes or removes it. */
  ghost predicate PausedSince(ws: seq<World>, ops: seq<Op>, i: nat, j: nat, n: string)
    requires j < |ops| && |ops| < |ws|
  {
    && i < j && ops[i] == Pauses(n) && n in ws[i].store.queues
    && forall l | i < l <= j :: n in ws[l].store.queues && ops[l] != Resumes(n)
  }

  lemma {:induction false} StaysPaused(ws: seq<World>, ops: seq<Op>, i: nat, j: nat, n: string, l: nat)
    requires IsRun(ws, ops) && j < |ops| && PausedSince(ws, ops, i, j, n) && i < l <= j
    ensures PausedIn(ws[l].store, n)
    decreases l
  {
    assert StepAt(ws, ops, l - 1);
    if l > i + 1 {
      StaysPaused(ws, ops, i, j, n, l - 1);
    }
    PausedExactly(ws[l - 1].store, ops[l - 1], ws[l - 1].now, n);
  }

  lemma PausedScan(s: Store, op: Op, now: Instant)
    requires op.Receives? && PausedIn(s, op.name)
    ensures Apply(s, op, now).delivered == [] && Apply(s, op, now).store.nextId == s.nextId
    ensures MessagesOf(Apply(s, op, now).store, op.name) == MessagesOf(s, op.name)
  {
  }

  /** In every run, from a pause until the next resume or the removal of the queue, no receive hands
      anything out, and none changes the list of messages, not even its order. */
  lemma PausedHandsOutNothing(ws: seq<World>, ops: seq<Op>, i: nat, j: nat, n: string)
    requires IsRun(ws, ops) && j < |ops| && PausedSince(ws, ops, i, j, n) && ops[j].Receives? && ops[j].name == n
    ensures DeliveredBy(ws[j], ops[j]) == []
    ensures MessagesOf(ws[j + 1].store, n) == MessagesOf(ws[j].store, n)
    ensures ws[j + 1].store.nextId == ws[j].store.nextId
  {
    StaysPaused(ws, ops, i, j, n, j);
    assert StepAt(ws, ops, j);
    PausedScan(ws[j].store, ops[j], ws[j].now);
  }
}
