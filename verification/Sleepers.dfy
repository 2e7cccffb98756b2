/** When a receiver of a memory queue sleeps beside a message it could have: its trigger is signalled
    by sends and resumes only (packages/store-memory/src/MemoryQueue.ts), so exactly the other ways in
    which a message becomes receivable go unnoticed until the wait times out. */
module Sleepers {
  import opened Basics
  import opened Messages
  import opened Sorting
  import opened Queues
  import opened Stores
  import opened Invariants
  import opened Steps
  import opened Fifo
  import opened Transfers
  import opened Wakings

  ghost predicate ReadyAt(s: Store, n: string, m: Msg, now: Instant) {
    In(s, n, m) && CanReceive(s.queues[n].options, m, now)
  }

  /** The queue holds a message that a scan would hand out. */
  ghost predicate Ready(s: Store, n: string, now: Instant) {
    exists m :: ReadyAt(s, n, m, now)
  }

  /** The operation signals the receivers of the queue: it resumes it, or `sendMessage` adds to it, be it
      for a send, a publish or a poll that dead-letters. A move adds without it. */
  predicate Signals(s: Store, op: Op, now: Instant, n: string) {
    (op == Resumes(n) && n in s.queues) || n in Wakes(s, op, now)
  }

  /** The message holds the handle, may be delivered, and only waits for its lease to end. */
  predicate OnlyLeased(o: QueueOptions, m: Msg, handle: Id, now: Instant) {
    m.receiptHandle == Some(handle) && !o.UsedUp(m) && !m.Delayed(now)
  }

  /** The operation makes a message receivable that was not, without a signal. */
  ghost predicate Frees(s: Store, op: Op, now: Instant, n: string) {
    n in s.queues
    && var q := s.queues[n];
       match op
       case TimePasses(ms) => exists m | m in q.messages :: !q.options.UsedUp(m) && m.Available(now + ms)
       case Naks(x, id, h, _) => x == n && exists m | m in q.messages :: m.id == id && OnlyLeased(q.options, m, h, now)
       case Extends(x, h, ms) => x == n && ms < 0 && exists m | m in q.messages :: OnlyLeased(q.options, m, h, now)
       case Updates(x, id, h, u) =>
         x == n && h.Some? && u.visibilityTimeoutMs.Some? && u.visibilityTimeoutMs.value < 0
         && exists m | m in q.messages :: m.id == id && OnlyLeased(q.options, m, h.value, now)
       case Moves(x, target) =>
         target == n && x != n && x in s.queues
         && exists m | m in s.queues[x].messages :: m.Available(now) && !q.options.UsedUp(m)
       case CreatesQueue(x, o, upsert) =>
         Trim(x) == n && upsert && n != "" && Some(n) != o.deadLetterQueueName && HasTargets(s, o)
         && exists m | m in q.messages :: m.Available(now) && !o.UsedUp(m)
       case _ => false
  }

  // ---- operations that free nothing

  /** Whatever is ready in the queue now, something was before. */
  ghost predicate NoneFreed(s: Store, s': Store, n: string, now: Instant) {
    forall m' | ReadyAt(s', n, m', now) :: Ready(s, n, now)
  }

  /** The queue kept its options and holds only messages it held. */
  lemma FewerFree(s: Store, s': Store, n: string, now: Instant)
    requires n in s'.queues ==> n in s.queues && s'.queues[n].options == s.queues[n].options
    requires forall m | In(s', n, m) :: In(s, n, m)
    ensures NoneFreed(s, s', n, now)
  {
    forall m' | ReadyAt(s', n, m', now) ensures Ready(s, n, now) {
      assert ReadyAt(s, n, m', now);
    }
  }

  lemma {:induction false} ScansNothing(o: QueueOptions, ms: seq<Msg>, now: Instant, deadline: Instant, room: int,
          nid: Id)
    requires forall m | m in ms :: !CanReceive(o, m, now)
    ensures ScanList(o, ms, now, deadline, room, nid).messages == ms
  {
    if ms != [] {
      ScansNothing(o, ms[1..], now, deadline, room, nid);
    }
  }

  lemma ReceiveFrees(s: Store, op: Op, now: Instant, n: string)
    requires op.Receives? && !Ready(s, n, now)
    ensures !Ready(Apply(s, op, now).store, n, now)
  {
    if op.name == n && n in s.queues {
      var q := s.queues[n];
      SortMembers(q.messages);
      forall m | m in Sort(q.messages) ensures !CanReceive(q.options, m, now) {
        assert !ReadyAt(s, n, m, now);
      }
      ScansNothing(q.options, Sort(q.messages), now, now + VisibilityTimeout(q, op.visibilityTimeoutMs), op.room,
                   s.nextId);
    }
    FewerFree(s, Apply(s, op, now).store, n, now);
  }

  lemma ListFrees(s: Store, op: Op, now: Instant, n: string)
    requires op.Purges? || op.Peeks? || op.Looks? || op.Deletes? || op.DeletesByHandle? || op.Pauses? || op.Resumes?
          || op.DeletesQueue?
    ensures NoneFreed(s, Apply(s, op, now).store, n, now)
  {
    var s' := Apply(s, op, now).store;
    var ms := MessagesOf(s, n);
    SortMembers(ms);
    if op.Deletes? {
      DeletePart(ms, op.id, op.maybeHandle);
      SubsequenceMembers(DeleteFrom(ms, op.id, op.maybeHandle).0, ms);
    } else if op.DeletesByHandle? {
      FilterMembers(ms, Not(HasHandle(op.handle)));
    }
    FewerFree(s, s', n, now);
  }

  lemma TopicFrees(s: Store, op: Op, now: Instant, n: string)
    requires op.CreatesTopic? || op.DeletesTopic? || op.Subscribes? || op.Unsubscribes?
    ensures NoneFreed(s, Apply(s, op, now).store, n, now)
  {
    if op.Unsubscribes? {
      UnsubscribeQueues(s, op.subscription, op.order);
    }
    FewerFree(s, Apply(s, op, now).store, n, now);
  }

  // ---- sends, publishes and polls

  ghost predicate SameQueue(s: Store, s': Store, n: string) {
    n in s.queues && n in s'.queues && s'.queues[n] == s.queues[n]
  }

  lemma {:induction false} PublishKeeps(s: Store, subs: seq<Subscription>, body: string, o: SendOptions, now: Instant,
          n: string)
    requires n in s.queues && n !in PublishEachWakes(s, subs, body, o, now)
    ensures SameQueue(s, PublishEach(s, subs, body, o, now).store, n)
    decreases |subs|
  {
    if subs != [] {
      var r := SendTo(FreshId(s), subs[0].queueName, s.nextId, body, o, now);
      if r.error.None? {
        PublishKeeps(r.store, subs[1..], body, o, now, n);
      }
    }
  }

  lemma TopicKeeps(s: Store, t: string, body: string, o: SendOptions, now: Instant, n: string)
    requires n in s.queues && n !in PublishWakes(s, t, body, o, now)
    ensures SameQueue(s, Publish(s, t, body, o, now).store, n)
  {
    if t in s.topics && AllPresent(s, s.topics[t].subscriptions) {
      PublishKeeps(s, s.topics[t].subscriptions, body, o, now, n);
    }
  }

  lemma ForwardOneKeeps(s: Store, o: QueueOptions, m: Msg, now: Instant, n: string)
    requires n in s.queues && n !in ForwardOneWakes(s, o, m, now)
    ensures SameQueue(s, ForwardOne(s, o, m, now).store, n)
  {
    var d, t := o.deadLetterQueueName, o.deadLetterTopicName;
    var r := if Named(d) then SendTo(s, d.value, m.id, m.body, DeadLetterOptions(m), now) else Done(s);
    assert n !in ForwardSendWakes(s, o, m) && SameQueue(s, r.store, n);
    if r.error.None? && Named(t) {
      TopicKeeps(r.store, t.value, m.body, DeadLetterOptions(m), now, n);
    }
  }

  lemma {:induction false} ForwardAllKeeps(s: Store, o: QueueOptions, ms: seq<Msg>, now: Instant, n: string)
    requires n in s.queues && n !in ForwardAllWakes(s, o, ms, now)
    ensures SameQueue(s, ForwardAll(s, o, ms, now).store, n)
    decreases |ms|
  {
    if ms != [] {
      ForwardOneKeeps(s, o, ms[0], now, n);
      var r := ForwardOne(s, o, ms[0], now);
      if r.error.None? {
        ForwardAllKeeps(r.store, o, ms[1..], now, n);
      }
    }
  }

  lemma DeadLetterKeeps(s: Store, o: QueueOptions, ms: seq<Msg>, now: Instant, n: string)
    requires n in s.queues && n !in DeadLetterWakes(s, o, ms, now)
    ensures SameQueue(s, DeadLetter(s, o, ms, now).store, n)
  {
    if HasTargets(s, o) && (Named(o.deadLetterQueueName) || Named(o.deadLetterTopicName)) {
      ForwardAllKeeps(s, o, ms, now, n);
    }
  }

  lemma {:induction false} KeptIsOld(o: QueueOptions, ms: seq<Msg>, m': Msg, now: Instant) returns (m: Msg)
    requires m' in Kept(o, ms, now)
    ensures m in ms && FateOf(o, m, now) == Stays(m')
  {
    if FateOf(o, ms[0], now) == Stays(m') {
      m := ms[0];
    } else {
      m := KeptIsOld(o, ms[1..], m', now);
    }
  }

  lemma PollOneFrees(s: Store, x: string, now: Instant, n: string)
    requires x in s.queues && n in s.queues && n !in PollOneWakes(s, x, now)
    ensures var s' := PollOne(s, x, now).store;
            n in s'.queues && s'.queues[n].options == s.queues[n].options && NoneFreed(s, s', n, now)
  {
    var q, s' := s.queues[x], PollOne(s, x, now).store;
    var s1 := PutQueue(s, x, PollQueue(q, now));
    DeadLetterKeeps(s1, q.options, Reverse(Exhausted(q.options, q.messages, now)), now, n);
    assert SameQueue(s1, s', n);
    forall m' | ReadyAt(s', n, m', now) ensures Ready(s, n, now) {
      if n == x {
        var m := KeptIsOld(q.options, q.messages, m', now);
        assert ReadyAt(s, n, m, now);
      } else {
        assert ReadyAt(s, n, m', now);
      }
    }
  }

  lemma {:induction false} PollQueuesFree(s: Store, order: seq<string>, now: Instant, n: string)
    requires n in s.queues && n !in PollQueuesWakes(s, order, now)
    ensures NoneFreed(s, PollQueues(s, order, now).store, n, now)
    decreases |order|
  {
    if order != [] {
      if order[0] in s.queues {
        PollOneFrees(s, order[0], now, n);
        var r := PollOne(s, order[0], now);
        if r.error.None? {
          PollQueuesFree(r.store, order[1..], now, n);
        }
      } else {
        PollQueuesFree(s, order[1..], now, n);
      }
    }
  }

  lemma SendingFrees(s: Store, op: Op, now: Instant, n: string)
    requires (op.Sends? || op.Publishes?) && n in s.queues && !Signals(s, op, now, n)
    ensures NoneFreed(s, Apply(s, op, now).store, n, now)
  {
    if op.Publishes? {
      TopicKeeps(s, op.topic, op.body, op.sendOptions, now, n);
    }
    assert SameQueue(s, Apply(s, op, now).store, n);
    FewerFree(s, Apply(s, op, now).store, n, now);
  }

  lemma PollingFrees(s: Store, op: Op, now: Instant, n: string)
    requires Inv(s) && NotOwnTarget(s) && op.Polls? && n in s.queues && !Signals(s, op, now, n)
    ensures NoneFreed(s, Apply(s, op, now).store, n, now)
  {
    var s0 := RemoveExpired(s, now);
    if n in s0.queues {
      PollQueuesFree(s0, op.order, now, n);
      FewerFree(s, s0, n, now);
    } else {
      PollingGrows(s, op, now);
      assert n !in Apply(s, op, now).store.queues.Keys;
    }
  }

  // ---- operations that may free a message

  lemma TimeFrees(s: Store, op: Op, now: Instant, n: string)
    requires op.TimePasses?
    ensures Ready(s, n, now + op.ms) <==> Frees(s, op, now, n)
  {
    if Frees(s, op, now, n) {
      var m :| m in s.queues[n].messages && !s.queues[n].options.UsedUp(m) && m.Available(now + op.ms);
      assert ReadyAt(s, n, m, now + op.ms);
    }
  }

  /** One message of the queue was replaced. */
  lemma ReplacedFrees(s: Store, n: string, i: nat, m': Msg, now: Instant)
    requires n in s.queues && i < |s.queues[n].messages| && !Ready(s, n, now)
    ensures var s' := PutQueue(s, n, s.queues[n].(messages := s.queues[n].messages[i := m']));
            Ready(s', n, now) <==> CanReceive(s.queues[n].options, m', now)
  {
    var ms := s.queues[n].messages;
    var s' := PutQueue(s, n, s.queues[n].(messages := ms[i := m']));
    if CanReceive(s.queues[n].options, m', now) {
      assert ms[i := m'][i] == m';
      assert ReadyAt(s', n, m', now);
    }
    if Ready(s', n, now) {
      var m :| ReadyAt(s', n, m, now);
      var k :| 0 <= k < |ms| && ms[i := m'][k] == m;
      if k != i {
        assert ReadyAt(s, n, m, now);
      }
    }
  }

  /** A lookup that only `m` can answer finds it. */
  lemma FoundIs(ms: seq<Msg>, p: Msg -> bool, m: Msg)
    requires DistinctIds(ms) && m in ms && p(m) && forall x | x in ms && p(x) :: x.id == m.id
    ensures Find(ms, p).Some? && ms[Find(ms, p).value] == m
  {
    var k :| 0 <= k < |ms| && ms[k] == m;
    assert Find(ms, p).Some?;
    assert ms[Find(ms, p).value] in ms;
  }

  /** The operation failed, or was for another queue. */
  lemma UntouchedFrees(s: Store, s': Store, n: string, now: Instant)
    requires !Ready(s, n, now) && n in s.queues && n in s'.queues && s'.queues[n] == s.queues[n]
    ensures !Ready(s', n, now)
  {
    FewerFree(s, s', n, now);
  }

  lemma NakFrees(s: Store, op: Op, now: Instant, n: string)
    requires Inv(s) && op.Naks? && n in s.queues && !Ready(s, n, now)
    ensures Ready(Apply(s, op, now).store, n, now) <==> Frees(s, op, now, n)
  {
    var q, r := s.queues[n], Apply(s, op, now);
    if Frees(s, op, now, n) {
      var m :| m in q.messages && m.id == op.id && OnlyLeased(q.options, m, op.handle, now);
      FoundIs(q.messages, HasId(op.id), m);
    }
    if op.name != n || r.error.Some? {
      UntouchedFrees(s, r.store, n, now);
    } else {
      var i := Find(q.messages, HasId(op.id)).value;
      ReplacedFrees(s, n, i, q.messages[i].Nak(now, op.reason), now);
    }
  }

  lemma ExtendFrees(s: Store, op: Op, now: Instant, n: string)
    requires Inv(s) && op.Extends? && n in s.queues && !Ready(s, n, now)
    ensures Ready(Apply(s, op, now).store, n, now) <==> Frees(s, op, now, n)
  {
    var q, r := s.queues[n], Apply(s, op, now);
    if Frees(s, op, now, n) {
      var m :| m in q.messages && OnlyLeased(q.options, m, op.handle, now);
      forall x | x in q.messages && HasHandle(op.handle)(x) ensures x.id == m.id {
        assert In(s, n, x) && In(s, n, m);
      }
      FoundIs(q.messages, HasHandle(op.handle), m);
    }
    if op.name != n || r.error.Some? {
      UntouchedFrees(s, r.store, n, now);
    } else {
      var i := Find(q.messages, HasHandle(op.handle)).value;
      assert q.messages[i] in q.messages && q.messages[i].receiptHandle == Some(op.handle);
      ReplacedFrees(s, n, i, q.messages[i].(expiresAt := Some(now + op.timeMs)), now);
    }
  }

  lemma UpdateFrees(s: Store, op: Op, now: Instant, n: string)
    requires Inv(s) && op.Updates? && n in s.queues && !Ready(s, n, now)
    ensures Ready(Apply(s, op, now).store, n, now) <==> Frees(s, op, now, n)
  {
    var q, r := s.queues[n], Apply(s, op, now);
    if Frees(s, op, now, n) {
      var m :| m in q.messages && m.id == op.id && OnlyLeased(q.options, m, op.maybeHandle.value, now);
      FoundIs(q.messages, HasId(op.id), m);
    }
    if op.name != n || r.error.Some? {
      UntouchedFrees(s, r.store, n, now);
    } else {
      var i := Find(q.messages, HasId(op.id)).value;
      assert !ReadyAt(s, n, q.messages[i], now);
      ReplacedFrees(s, n, i, q.messages[i].Update(now, op.update), now);
    }
  }

  lemma MoverOf(ms: seq<Msg>, until: Option<Instant>, now: Instant)
    ensures forall m' | m' in Movers(ms, until, now) ::
              exists m | m in ms :: m.Available(now) && m' == m.(retainUntil := until)
    ensures forall m | m in ms && m.Available(now) :: m.(retainUntil := until) in Movers(ms, until, now)
  {
    var f := Filter(ms, IsAvailable(now));
    FilterMembers(ms, IsAvailable(now));
    ReverseMembers(f);
    var movers := Movers(ms, until, now);
    forall m' | m' in movers ensures exists m | m in ms :: m.Available(now) && m' == m.(retainUntil := until) {
      var i :| 0 <= i < |movers| && movers[i] == m';
      assert Reverse(f)[i] in Reverse(f);
    }
    forall m | m in ms && m.Available(now) ensures m.(retainUntil := until) in movers {
      var i :| 0 <= i < |f| && Reverse(f)[i] == m;
      assert movers[i] == m.(retainUntil := until);
    }
  }

  lemma NotMovedIn(s: Store, op: Op, now: Instant, n: string, m': Msg)
    requires op.Moves? && n in s.queues && !Ready(s, n, now) && op.target == n && op.name in s.queues
    requires ReadyAt(Apply(s, op, now).store, n, m', now)
    ensures Frees(s, op, now, n)
  {
    var q, ms := s.queues[n], s.queues[op.name].messages;
    var until := q.options.RetainUntil(now);
    MoverOf(ms, until, now);
    FilterMembers(q.messages, Not(IsAvailable(now)));
    assert !ReadyAt(s, n, m', now);
    assert m' in Movers(ms, until, now);
    var m :| m in ms && m.Available(now) && m' == m.(retainUntil := until);
    assert !ReadyAt(s, n, m, now);
  }

  lemma MovedInFrees(s: Store, op: Op, now: Instant, n: string)
    requires op.Moves? && n in s.queues && !Ready(s, n, now) && op.target == n && op.name in s.queues
    ensures Ready(Apply(s, op, now).store, n, now) <==> Frees(s, op, now, n)
  {
    var q, ms := s.queues[n], s.queues[op.name].messages;
    var until := q.options.RetainUntil(now);
    MoverOf(ms, until, now);
    var s' := Apply(s, op, now).store;
    if Frees(s, op, now, n) {
      var m :| m in ms && m.Available(now) && !q.options.UsedUp(m);
      assert m.(retainUntil := until) in Movers(ms, until, now);
      assert ReadyAt(s', n, m.(retainUntil := until), now);
    } else if Ready(s', n, now) {
      var m' :| ReadyAt(s', n, m', now);
      NotMovedIn(s, op, now, n, m');
    }
  }

  /** What is moved in is available there at once. */
  lemma MoveFrees(s: Store, op: Op, now: Instant, n: string)
    requires op.Moves? && n in s.queues && !Ready(s, n, now)
    ensures Ready(Apply(s, op, now).store, n, now) <==> Frees(s, op, now, n)
  {
    var r := Apply(s, op, now);
    if r.error.Some? || (op.name != n && op.target != n) {
      UntouchedFrees(s, r.store, n, now);
    } else if op.target != n {
      FilterMembers(s.queues[n].messages, Not(IsAvailable(now)));
      FewerFree(s, r.store, n, now);
    } else {
      MovedInFrees(s, op, now, n);
    }
  }

  lemma UntouchedOptions(s: Store, s': Store, n: string, now: Instant)
    requires !Ready(s, n, now) && n in s.queues && n in s'.queues && s'.queues[n].messages == s.queues[n].messages
    requires s'.queues[n].options.maxReceiveCount == s.queues[n].options.maxReceiveCount
    ensures !Ready(s', n, now)
  {
    forall m | ReadyAt(s', n, m, now) ensures false {
      assert ReadyAt(s, n, m, now);
    }
  }

  /** A new limit may let messages be received that were used up. */
  lemma ReconfigureFrees(s: Store, op: Op, now: Instant, n: string)
    requires op.CreatesQueue? && n in s.queues && !Ready(s, n, now)
    ensures Ready(Apply(s, op, now).store, n, now) <==> Frees(s, op, now, n)
  {
    var r := Apply(s, op, now);
    if Trim(op.name) != n || r.error.Some? {
      UntouchedFrees(s, r.store, n, now);
    } else {
      assert r.store.queues[n] == Reconfigure(s.queues[n], op.options, now);
      if !op.upsert {
        UntouchedOptions(s, r.store, n, now);
      }
      if Frees(s, op, now, n) {
        var m :| m in s.queues[n].messages && m.Available(now) && !op.options.UsedUp(m);
        assert ReadyAt(r.store, n, m, now);
      }
    }
  }

  // ---- every operation

  /** A queue that was not there holds nothing. */
  lemma AbsentFrees(s: Store, op: Op, now: Instant, n: string)
    requires Inv(s) && NotOwnTarget(s) && n !in s.queues
    ensures !Ready(Apply(s, op, now).store, n, now)
  {
    if !op.CreatesQueue? {
      StaysAbsent(s, op, now, n);
    }
  }

  predicate MayFree(op: Op) {
    op.Naks? || op.Extends? || op.Updates? || op.Moves? || op.CreatesQueue?
  }

  predicate Adds(op: Op) { op.Sends? || op.Publishes? || op.Polls? }

  predicate OfTopics(op: Op) { op.CreatesTopic? || op.DeletesTopic? || op.Subscribes? || op.Unsubscribes? }

  lemma MayFreeExactly(s: Store, op: Op, now: Instant, n: string)
    requires Inv(s) && MayFree(op) && n in s.queues && !Ready(s, n, now)
    ensures Ready(Apply(s, op, now).store, n, now) <==> Frees(s, op, now, n)
  {
    if op.Naks? {
      NakFrees(s, op, now, n);
    } else if op.Extends? {
      ExtendFrees(s, op, now, n);
    } else if op.Updates? {
      UpdateFrees(s, op, now, n);
    } else if op.Moves? {
      MoveFrees(s, op, now, n);
    } else {
      ReconfigureFrees(s, op, now, n);
    }
  }

  lemma OthersFreeNothing(s: Store, op: Op, now: Instant, n: string)
    requires Inv(s) && NotOwnTarget(s) && n in s.queues && !Ready(s, n, now)
    requires !MayFree(op) && !op.TimePasses? && (Adds(op) ==> !Signals(s, op, now, n))
    ensures !Ready(Apply(s, op, now).store, n, now)
  {
    if op.Receives? {
      ReceiveFrees(s, op, now, n);
    } else if op.Polls? {
      PollingFrees(s, op, now, n);
    } else if Adds(op) {
      SendingFrees(s, op, now, n);
    } else if OfTopics(op) {
      TopicFrees(s, op, now, n);
    } else {
      ListFrees(s, op, now, n);
    }
  }

  lemma NeverFrees(s: Store, op: Op, now: Instant, n: string)
    requires n !in s.queues || (!MayFree(op) && !op.TimePasses?)
    ensures !Frees(s, op, now, n)
  {
  }

  function ClockAfter(op: Op, now: Instant): Instant { if op.TimePasses? then now + op.ms else now }

  /** One operation that does not signal the receivers of a queue without a receivable message: there is
      one afterwards exactly if the operation frees it. */
  lemma FreesExactly(s: Store, op: Op, now: Instant, n: string)
    requires Inv(s) && NotOwnTarget(s) && !Ready(s, n, now) && !Signals(s, op, now, n)
    ensures Ready(Apply(s, op, now).store, n, ClockAfter(op, now)) <==> Frees(s, op, now, n)
  {
    if op.TimePasses? {
      TimeFrees(s, op, now, n);
    } else if n !in s.queues {
      AbsentFrees(s, op, now, n);
      NeverFrees(s, op, now, n);
    } else if MayFree(op) {
      MayFreeExactly(s, op, now, n);
    } else {
      OthersFreeNothing(s, op, now, n);
      NeverFrees(s, op, now, n);
    }
  }

  // ---- runs

  lemma {:induction false} ScanListEmpties(o: QueueOptions, ms: seq<Msg>, now: Instant, deadline: Instant, room: int,
          nid: Id)
    requires deadline >= now
    requires var got := ScanList(o, ms, now, deadline, room, nid).delivered; |got| == 0 || |got| != room
    ensures forall m | m in ScanList(o, ms, now, deadline, room, nid).messages :: !CanReceive(o, m, now)
  {
    if ms != [] {
      if !CanReceive(o, ms[0], now) {
        ScanListEmpties(o, ms[1..], now, deadline, room, nid);
      } else if room != 1 {
        ScanListEmpties(o, ms[1..], now, deadline, room - 1, nid + 1);
      }
    }
  }

  /** A scan that did not fill its room leaves nothing receivable behind. */
  lemma ScanLeavesNothing(s: Store, op: Op, now: Instant)
    requires op.Receives? && op.name in s.queues && !s.queues[op.name].paused
    requires VisibilityTimeout(s.queues[op.name], op.visibilityTimeoutMs) >= 0
    requires var got := Apply(s, op, now).delivered; |got| == 0 || |got| != op.room
    ensures !Ready(Apply(s, op, now).store, op.name, now)
  {
    var q, s' := s.queues[op.name], Apply(s, op, now).store;
    var deadline := now + VisibilityTimeout(q, op.visibilityTimeoutMs);
    ScanListEmpties(q.options, Sort(q.messages), now, deadline, op.room, s.nextId);
    assert s'.queues[op.name].messages
      == ScanList(q.options, Sort(q.messages), now, deadline, op.room, s.nextId).messages;
  }

  ghost predicate ReadyIn(w: World, n: string) { Ready(w.store, n, w.now) }

  ghost predicate SignalsIn(w: World, op: Op, n: string) { Signals(w.store, op, w.now, n) }

  ghost predicate FreesIn(w: World, op: Op, n: string) { Frees(w.store, op, w.now, n) }

  lemma StepFreesExactly(ws: seq<World>, ops: seq<Op>, k: nat, n: string)
    requires IsRun(ws, ops) && k < |ops| && !ReadyIn(ws[k], n) && !SignalsIn(ws[k], ops[k], n)
    ensures ReadyIn(ws[k + 1], n) <==> FreesIn(ws[k], ops[k], n)
  {
    InvAfter(ws, ops, k);
    NotOwnTargetAfter(ws, ops, k);
    assert StepAt(ws, ops, k);
    FreesExactly(ws[k].store, ops[k], ws[k].now, n);
  }

  /** A receiver scans a queue and goes to sleep, and is not signalled from then on: if there is a message
      it could have, one of the operations since has freed it, when nothing was there to be had. */
  lemma {:induction false} SleepsBeside(ws: seq<World>, ops: seq<Op>, i: nat, j: nat, n: string) returns (k: nat)
    requires IsRun(ws, ops) && i <= j <= |ops| && !ReadyIn(ws[i], n) && ReadyIn(ws[j], n)
    requires forall l | i <= l < j :: !SignalsIn(ws[l], ops[l], n)
    ensures i <= k < j && !ReadyIn(ws[k], n) && FreesIn(ws[k], ops[k], n)
    ensures forall l | k < l <= j :: ReadyIn(ws[l], n)
    decreases j
  {
    if ReadyIn(ws[j - 1], n) {
      k := SleepsBeside(ws, ops, i, j - 1, n);
    } else {
      k := j - 1;
      StepFreesExactly(ws, ops, k, n);
    }
  }

  /** Such operations there are: a move of an available message into a queue nothing can be had from. */
  lemma MoveGoesUnnoticed(s: Store, a: string, b: string, m: Msg, now: Instant)
    requires Inv(s) && NotOwnTarget(s) && a != b && In(s, a, m) && b in s.queues && !Ready(s, b, now)
    requires m.Available(now) && !s.queues[b].options.UsedUp(m)
    ensures !Signals(s, Moves(a, b), now, b) && Ready(Apply(s, Moves(a, b), now).store, b, now)
  {
    FreesExactly(s, Moves(a, b), now, b);
  }
}
