/** Whole-run theorems about one queue of the in-memory broker: no exhausted message is ever
    stuck, and unreceived messages never share a deduplication id. */
module Limits {
  import opened Basics
  import opened Messages
  import opened Queues
  import opened Stores
  import opened Invariants
  import opened Steps
  import opened Leases

  ghost predicate HasLimit(s: Store, n: string, limit: int) {
    n in s.queues && s.queues[n].options.maxReceiveCount == Some(limit)
  }

  /** No message of the queue was delivered more often than the limit, and one delivered that
      often still carries a deadline. */
  ghost predicate WithinLimit(s: Store, n: string, limit: int) {
    forall m :: In(s, n, m) ==> m.receiveCount <= limit && (m.receiveCount == limit ==> m.expiresAt.Some?)
  }

  lemma LimitStep(s: Store, op: Op, now: Instant, n: string, limit: int)
    requires Inv(s) && limit >= 1 && MovesInto(op) != Some(n)
    requires n in s.queues ==> HasLimit(s, n, limit)
    requires WithinLimit(s, n, limit)
    ensures WithinLimit(Apply(s, op, now).store, n, limit)
  {
    var s' := Apply(s, op, now).store;
    StepKeeps(s, op, now);
    forall m' | In(s', n, m') ensures m'.receiveCount <= limit && (m'.receiveCount == limit ==> m'.expiresAt.Some?) {
      assert Descends(s, n, m', now, s'.nextId, CauseOf(op));
      if !Brandnew(m', s.nextId) {
        var n0, m :| Comes(s, n0, m, n, m', now, s'.nextId, CauseOf(op));
        if !Reborn(m, m', now) {
          assert n0 == n && In(s, n, m);
        }
      }
    }
  }

  /** The queue, if it is there, has the limit, and the operation moves nothing into it. */
  ghost predicate Undisturbed(w: World, op: Op, n: string, limit: int) {
    MovesInto(op) != Some(n) && (n in w.store.queues ==> HasLimit(w.store, n, limit))
  }

  /** In every run, from the moment the queue is within its limit (as when it is created) and as
      long as the limit stays the same and nothing is moved in, it stays within its limit. */
  lemma {:induction false} NeverStuck(ws: seq<World>, ops: seq<Op>, i: nat, j: nat, n: string, limit: int)
    requires IsRun(ws, ops) && i <= j <= |ops| && limit >= 1
    requires WithinLimit(ws[i].store, n, limit)
    requires forall k | i <= k < j :: Undisturbed(ws[k], ops[k], n, limit)
    ensures WithinLimit(ws[j].store, n, limit)
  {
    if i < j {
      NeverStuck(ws, ops, i, j - 1, n, limit);
      InvAfter(ws, ops, j - 1);
      assert StepAt(ws, ops, j - 1) && Undisturbed(ws[j - 1], ops[j - 1], n, limit);
      UndisturbedStep(ws[j - 1], ops[j - 1], n, limit);
    }
  }

  lemma UndisturbedStep(w: World, op: Op, n: string, limit: int)
    requires Inv(w.store) && limit >= 1 && WithinLimit(w.store, n, limit) && Undisturbed(w, op, n, limit)
    ensures WithinLimit(Step(w, op).store, n, limit)
  {
    LimitStep(w.store, op, w.now, n, limit);
  }

  /** Deliveries never exceed the limit: what a scan hands out was below it. */
  lemma DeliveriesWithinLimit(w: World, op: Op, d: Msg, limit: int)
    requires Inv(w.store) && op.Receives? && d in DeliveredBy(w, op) && HasLimit(w.store, op.name, limit)
    ensures 1 <= d.receiveCount <= limit
  {
    var m := DeliveredFrom(w, op, d);
  }

  /** A message at the limit leaves with the first poll of its queue after its deadline. */
  lemma PollRemovesExhausted(q: Queue, m: Msg, now: Instant, limit: int)
    requires DistinctIds(q.messages) && m in q.messages
    requires q.options.maxReceiveCount == Some(limit) && limit >= 1 && m.receiveCount >= limit && m.LeaseOver(now)
    ensures forall m' | m' in PollQueue(q, now).messages :: m'.id != m.id
  {
    KeptOrigin(q.options, q.messages, now);
    forall m' | m' in PollQueue(q, now).messages ensures m'.id != m.id {
      assert HasFate(q.options, q.messages, now, Stays(m'));
      var x :| x in q.messages && FateOf(q.options, x, now) == Stays(m');
      FateKeepsId(q.options, x, now);
      assert x != m;
      var i :| 0 <= i < |q.messages| && q.messages[i] == x;
      var k :| 0 <= k < |q.messages| && q.messages[k] == m;
    }
  }

  /** Left alone, it is never received and never taken off by a poll as exhausted. */
  ghost predicate Stuck(o: QueueOptions, m: Msg) {
    forall t: Instant :: !CanReceive(o, m, t) && !FateOf(o, m, t).Leaves?
  }

  /** Why nothing may be moved in: exactly the messages at the limit that carry no deadline,
      or whose retention ends before it, are stuck; the latter are dropped by a poll. With a limit of
      zero, which a poll takes for none, every message is. */
  lemma StuckExactly(o: QueueOptions, m: Msg, limit: int)
    requires o.maxReceiveCount == Some(limit)
    ensures Stuck(o, m) <==>
              || limit == 0
              || (&& m.receiveCount >= limit
                  && (m.expiresAt.None? || (m.retainUntil.Some? && m.retainUntil.value <= m.expiresAt.value)))
  {
    if Stuck(o, m) {
      var late := Later(m.expiresAt, Later(m.delayUntil, 0));
      assert !CanReceive(o, m, late);
      if m.expiresAt.Some? {
        assert !FateOf(o, m, m.expiresAt.value + 1).Leaves?;
      }
    }
  }

  function Later(t: Option<Instant>, other: Instant): Instant {
    if t.Some? && t.value + 1 > other then t.value + 1 else other
  }

  // ---- deduplication

  /** Two messages never received so far that share a non-empty deduplication id. */
  ghost predicate Clash(a: Msg, b: Msg) {
    && a.id != b.id && a.receiveCount == 0 && b.receiveCount == 0
    && a.deduplicationId.Some? && a.deduplicationId.value != "" && a.deduplicationId == b.deduplicationId
  }

  ghost predicate NoClash(s: Store, n: string) {
    forall a, b :: In(s, n, a) && In(s, n, b) ==> !Clash(a, b)
  }

  /** `isDuplicateMessage` is enough: an unreceived message holds no handle. */
  lemma SendNoClash(s: Store, x: string, id: Id, body: string, o: SendOptions, now: Instant, n: string)
    requires AllSound(s) && NoClash(s, n)
    ensures NoClash(SendTo(s, x, id, body, o, now).store, n)
  {
    if x == n && n in s.queues && SendError(s.queues[n], id, body, o).None? {
      var q := s.queues[n];
      var m := SentMsg(q, id, body, o, now);
      var s' := SendTo(s, x, id, body, o, now).store;
      forall a | In(s, n, a) ensures !Clash(a, m) && !Clash(m, a) {
        assert Sound(a, s.nextId) && a in q.messages;
      }
      forall a, b | In(s', n, a) && In(s', n, b) ensures !Clash(a, b) {
        assert (a == m || In(s, n, a)) && (b == m || In(s, n, b));
      }
    } else {
      var s' := SendTo(s, x, id, body, o, now).store;
      forall a, b | In(s', n, a) && In(s', n, b) ensures !Clash(a, b) {
        assert In(s, n, a) && In(s, n, b);
      }
    }
  }

  lemma {:induction false} PublishNoClash(s: Store, subs: seq<Subscription>, body: string, o: SendOptions,
          now: Instant, n: string)
    requires Inv(s) && NoClash(s, n)
    ensures NoClash(PublishEach(s, subs, body, o, now).store, n)
    decreases |subs|
  {
    if subs != [] {
      ReachedSelf(s, now, o.deduplicationId);
      FreshIdKeeps(s, s, [], now, o.deduplicationId);
      SendKeeps(s, FreshId(s), [], subs[0].queueName, s.nextId, body, o, now, o.deduplicationId);
      assert forall m :: In(FreshId(s), n, m) ==> In(s, n, m);
      SendNoClash(FreshId(s), subs[0].queueName, s.nextId, body, o, now, n);
      var r := SendTo(FreshId(s), subs[0].queueName, s.nextId, body, o, now);
      if r.error.None? {
        PublishNoClash(r.store, subs[1..], body, o, now, n);
      }
    }
  }

  lemma ClashStep(s: Store, op: Op, now: Instant, n: string)
    requires Inv(s) && MovesInto(op) != Some(n) && NoClash(s, n)
    ensures NoClash(Apply(s, op, now).store, n)
  {
    if op.Sends? {
      if op.name in s.queues {
        ReachedSelf(s, now, None);
        FreshIdKeeps(s, s, [], now, None);
        assert forall m :: In(FreshId(s), n, m) ==> In(s, n, m);
        SendNoClash(FreshId(s), op.name, s.nextId, op.body, op.sendOptions, now, n);
      }
    } else if op.Publishes? {
      if op.topic in s.topics {
        PublishNoClash(s, s.topics[op.topic].subscriptions, op.body, op.sendOptions, now, n);
      }
    } else {
      OtherOpsNoClash(s, op, now, n);
    }
  }

  lemma OtherOpsNoClash(s: Store, op: Op, now: Instant, n: string)
    requires Inv(s) && MovesInto(op) != Some(n) && NoClash(s, n) && !op.Sends? && !op.Publishes?
    ensures NoClash(Apply(s, op, now).store, n)
  {
    var s' := Apply(s, op, now).store;
    StepKeeps(s, op, now);
    forall a, b | In(s', n, a) && In(s', n, b) ensures !Clash(a, b) {
      if Clash(a, b) {
        var x := Unreceived(s, s', op, now, n, a);
        var y := Unreceived(s, s', op, now, n, b);
        assert Clash(x, y);
      }
    }
  }

  /** A message that can clash has been in the same queue, just as unreceived, before. */
  lemma Unreceived(s: Store, s': Store, op: Op, now: Instant, n: string, m': Msg) returns (m: Msg)
    requires Follows(s, s', now, CauseOf(op)) && MovesInto(op) != Some(n) && !op.Sends? && !op.Publishes?
    requires In(s', n, m') && m'.receiveCount == 0 && m'.deduplicationId.Some?
    ensures In(s, n, m) && m.id == m'.id && m.receiveCount == 0 && m.deduplicationId == m'.deduplicationId
  {
    assert Descends(s, n, m', now, s'.nextId, CauseOf(op));
    var n0: string;
    n0, m :| Comes(s, n0, m, n, m', now, s'.nextId, CauseOf(op));
  }

  /** In every run, a queue nothing is moved into never holds two messages that were never
      received and share a non-empty deduplication id. */
  lemma {:induction false} DedupRun(ws: seq<World>, ops: seq<Op>, j: nat, n: string)
    requires IsRun(ws, ops) && j <= |ops|
    requires forall k | 0 <= k < j :: MovesInto(ops[k]) != Some(n)
    ensures NoClash(ws[j].store, n)
  {
    if j > 0 {
      DedupRun(ws, ops, j - 1, n);
      InvAfter(ws, ops, j - 1);
      assert StepAt(ws, ops, j - 1);
      ClashStep(ws[j - 1].store, ops[j - 1], ws[j - 1].now, n);
    }
  }
}
