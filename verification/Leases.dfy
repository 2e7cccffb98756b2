/** Whole-run theorems about leases and receipt handles of the in-memory broker. */
module Leases {
  import opened Basics
  import opened Messages
  import opened Sorting
  import opened Queues
  import opened Stores
  import opened Invariants
  import opened Steps

  // ---- what a scan delivers

  /** `d` is message `m` as the scan handed it out. */
  ghost predicate HandedOut(o: QueueOptions, m: Msg, d: Msg, now: Instant, deadline: Instant, nid: Id, nid': Id) {
    && CanReceive(o, m, now) && d.receiptHandle.Some? && nid <= d.receiptHandle.value < nid'
    && d == m.MarkReceived(deadline, now, d.receiptHandle.value)
  }

  lemma {:induction false} ScanDelivers(o: QueueOptions, ms: seq<Msg>, now: Instant, deadline: Instant, room: int,
          nid: Id, d: Msg) returns (m: Msg)
    requires d in ScanList(o, ms, now, deadline, room, nid).delivered
    ensures var r := ScanList(o, ms, now, deadline, room, nid);
            m in ms && d in r.messages && HandedOut(o, m, d, now, deadline, nid, nid + |r.delivered|)
  {
    var r := ScanList(o, ms, now, deadline, room, nid);
    if CanReceive(o, ms[0], now) && d == ms[0].MarkReceived(deadline, now, nid) {
      m := ms[0];
      assert r.messages[0] == d;
    } else if CanReceive(o, ms[0], now) {
      m := ScanDelivers(o, ms[1..], now, deadline, room - 1, nid + 1, d);
    } else {
      m := ScanDelivers(o, ms[1..], now, deadline, room, nid, d);
    }
  }

  /** A delivered message was available in its queue, and is in the store as it was delivered. */
  lemma OnlyReceivesDeliver(w: World, op: Op, d: Msg)
    requires Inv(w.store) && d in DeliveredBy(w, op)
    ensures op.Receives? && op.name in w.store.queues
  {
    if op.Unsubscribes? {
      UnsubscribeKeeps(w.store, op.subscription, op.order);
    }
    if !op.Receives? {
      NothingDelivered(w.store, op, w.now);
    }
  }

  lemma DeliveredFrom(w: World, op: Op, d: Msg) returns (m: Msg)
    requires Inv(w.store) && d in DeliveredBy(w, op)
    ensures op.Receives? && In(w.store, op.name, m) && m.id == d.id && m.Available(w.now)
    ensures In(Step(w, op).store, op.name, d) && Step(w, op).now == w.now
    ensures d.receiptHandle.Some? && d.expiresAt.Some?
    ensures !w.store.queues[op.name].options.UsedUp(m) && d.receiveCount == m.receiveCount + 1
    ensures w.store.nextId <= d.receiptHandle.value < Step(w, op).store.nextId
  {
    OnlyReceivesDeliver(w, op, d);
    var q := w.store.queues[op.name];
    var sorted := Sort(q.messages);
    SortMembers(q.messages);
    m := ScanDelivers(q.options, sorted, w.now, w.now + VisibilityTimeout(q, op.visibilityTimeoutMs), op.room,
                      w.store.nextId, d);
  }

  lemma {:induction false} PublishDeliversNothing(s: Store, subs: seq<Subscription>, body: string, o: SendOptions,
          now: Instant)
    ensures PublishEach(s, subs, body, o, now).delivered == []
    decreases |subs|
  {
    if subs != [] {
      var r := SendTo(FreshId(s), subs[0].queueName, s.nextId, body, o, now);
      PublishDeliversNothing(r.store, subs[1..], body, o, now);
    }
  }

  lemma {:induction false} ForwardDeliversNothing(s: Store, o: QueueOptions, ms: seq<Msg>, now: Instant)
    ensures ForwardAll(s, o, ms, now).delivered == []
    decreases |ms|
  {
    if ms != [] {
      var m := ms[0];
      var s1 := if Named(o.deadLetterQueueName)
                then SendTo(s, o.deadLetterQueueName.value, m.id, m.body, DeadLetterOptions(m), now).store else s;
      if Named(o.deadLetterTopicName) && o.deadLetterTopicName.value in s1.topics {
        PublishDeliversNothing(s1, s1.topics[o.deadLetterTopicName.value].subscriptions, m.body, DeadLetterOptions(m),
                               now);
      }
      ForwardDeliversNothing(ForwardOne(s, o, m, now).store, o, ms[1..], now);
    }
  }

  lemma {:induction false} PollDeliversNothing(s: Store, order: seq<string>, now: Instant)
    ensures PollQueues(s, order, now).delivered == []
    decreases |order|
  {
    if order != [] {
      if order[0] in s.queues {
        var q := s.queues[order[0]];
        ForwardDeliversNothing(PutQueue(s, order[0], PollQueue(q, now)), q.options,
                               Reverse(Exhausted(q.options, q.messages, now)), now);
        PollDeliversNothing(PollOne(s, order[0], now).store, order[1..], now);
      } else {
        PollDeliversNothing(s, order[1..], now);
      }
    }
  }

  lemma NothingDelivered(s: Store, op: Op, now: Instant)
    requires !op.Receives? && (op.Unsubscribes? ==> Apply(s, op, now).delivered == [])
    ensures Apply(s, op, now).delivered == []
  {
    if op.Publishes? && op.topic in s.topics {
      PublishDeliversNothing(s, s.topics[op.topic].subscriptions, op.body, op.sendOptions, now);
    } else if op.Polls? {
      PollDeliversNothing(RemoveExpired(s, now), op.order, now);
    }
  }

  lemma {:induction false} ScanIdsDistinct(o: QueueOptions, ms: seq<Msg>, now: Instant, deadline: Instant, room: int,
          nid: Id)
    requires DistinctIds(ms)
    ensures DistinctIds(ScanList(o, ms, now, deadline, room, nid).delivered)
    ensures forall d | d in ScanList(o, ms, now, deadline, room, nid).delivered :: exists m | m in ms :: m.id == d.id
  {
    if ms != [] {
      DistinctTail(ms);
      var took := CanReceive(o, ms[0], now);
      var rest := ScanList(o, ms[1..], now, deadline, if took then room - 1 else room, if took then nid + 1 else nid);
      ScanIdsDistinct(o, ms[1..], now, deadline, if took then room - 1 else room, if took then nid + 1 else nid);
      forall d | d in rest.delivered ensures d.id != ms[0].id && exists m | m in ms :: m.id == d.id {
        var m :| m in ms[1..] && m.id == d.id;
        assert m in ms;
      }
      assert ms[0] in ms;
      if took && room != 1 {
        DistinctCons(ms[0].MarkReceived(deadline, now, nid), rest.delivered);
      }
    }
  }

  /** One scan hands out each message at most once. */
  lemma ScanOnce(w: World, op: Op)
    requires Inv(w.store) && op.Receives?
    ensures DistinctIds(DeliveredBy(w, op))
  {
    if op.name in w.store.queues {
      QueueScanOnce(w.store.queues[op.name], w.now, op.visibilityTimeoutMs, op.room, w.store.nextId);
    }
  }

  lemma QueueScanOnce(q: Queue, now: Instant, visibilityTimeoutMs: Option<int>, room: int, nid: Id)
    requires DistinctIds(q.messages)
    ensures DistinctIds(Scan(q, now, visibilityTimeoutMs, room, nid).delivered)
  {
    SortDistinct(q.messages);
    ScanIdsDistinct(q.options, Sort(q.messages), now, now + VisibilityTimeout(q, visibilityTimeoutMs), room, nid);
  }

  // ---- exclusive leases

  /** The operation used handle `h`, held by message `id`, to nak it or change its visibility. */
  ghost predicate HolderActs(w: World, op: Op, id: Id, h: Id) {
    && UsedHandle(op) == Some(h) && Apply(w.store, op, w.now).error.None?
    && exists n, m :: In(w.store, n, m) && m.id == id && m.receiptHandle == Some(h)
  }

  /** While the deadline has not passed, the message is nowhere without this lease. */
  ghost predicate HeldUntil(w: World, id: Id, h: Id, deadline: Instant) {
    && id < w.store.nextId
    && (w.now > deadline
        || forall n, m :: In(w.store, n, m) && m.id == id ==>
            m.expiresAt == Some(deadline) && m.receiptHandle == Some(h))
  }

  lemma HoldStep(w: World, op: Op, id: Id, h: Id, deadline: Instant)
    requires Inv(w.store) && HeldUntil(w, id, h, deadline) && !HolderActs(w, op, id, h)
    ensures HeldUntil(Step(w, op), id, h, deadline)
  {
    var s' := Step(w, op).store;
    StepKeeps(w.store, op, w.now);
    if w.now <= deadline {
      forall n', m' | In(s', n', m') && m'.id == id
        ensures m'.expiresAt == Some(deadline) && m'.receiptHandle == Some(h)
      {
        assert Descends(w.store, n', m', w.now, s'.nextId, CauseOf(op));
        var n, m :| Comes(w.store, n, m, n', m', w.now, s'.nextId, CauseOf(op));
        if UsedByHolder(m, m', UsedHandle(op)) && !SameLease(m, m') {
          assert In(w.store, n, m);
          assert Apply(w.store, op, w.now).error.Some?;
          FailingHolderOps(w.store, op, w.now);
          assert In(w.store, n', m');
        }
      }
    }
  }

  /** A nak or a change of visibility that fails changes nothing. */
  lemma FailingHolderOps(s: Store, op: Op, now: Instant)
    requires UsedHandle(op).Some? && Apply(s, op, now).error.Some?
    ensures Apply(s, op, now).store == s
  {
  }

  lemma {:induction false} HoldRun(ws: seq<World>, ops: seq<Op>, i: nat, j: nat, id: Id, h: Id, deadline: Instant)
    requires IsRun(ws, ops)
    requires i <= j <= |ops|
    requires HeldUntil(ws[i], id, h, deadline)
    requires forall k | i <= k < j :: !HolderActs(ws[k], ops[k], id, h)
    ensures HeldUntil(ws[j], id, h, deadline)
  {
    if i < j {
      HoldRun(ws, ops, i, j - 1, id, h, deadline);
      InvAfter(ws, ops, j - 1);
      assert StepAt(ws, ops, j - 1);
      HoldStep(ws[j - 1], ops[j - 1], id, h, deadline);
    }
  }

  lemma DeliveryHolds(ws: seq<World>, ops: seq<Op>, i: nat, d: Msg)
    requires IsRun(ws, ops) && i < |ops| && d in DeliveredBy(ws[i], ops[i])
    ensures d.receiptHandle.Some? && d.expiresAt.Some?
    ensures HeldUntil(ws[i + 1], d.id, d.receiptHandle.value, d.expiresAt.value)
  {
    InvAfter(ws, ops, i);
    InvAfter(ws, ops, i + 1);
    assert StepAt(ws, ops, i);
    var m := DeliveredFrom(ws[i], ops[i], d);
    var s := ws[i + 1].store;
    assert In(s, ops[i].name, d) && Sound(d, s.nextId);
    forall n, x | In(s, n, x) && x.id == d.id ensures x == d {
      SameIdSame(s, n, x, ops[i].name, d);
    }
  }

  /** Lease exclusivity: between two deliveries of one message, wherever it was moved or
      dead-lettered in between, the deadline of the first strictly passed, or the handle of
      the first was used to nak the message or change its visibility. */
  lemma LeaseExclusive(ws: seq<World>, ops: seq<Op>, i: nat, j: nat, first: Msg, second: Msg)
    requires IsRun(ws, ops)
    requires i < j < |ops|
    requires first in DeliveredBy(ws[i], ops[i])
    requires second in DeliveredBy(ws[j], ops[j]) && first.id == second.id
    ensures first.receiptHandle.Some? && first.expiresAt.Some?
    ensures || ws[j].now > first.expiresAt.value
            || exists k :: i < k < j && HolderActs(ws[k], ops[k], first.id, first.receiptHandle.value)
  {
    DeliveryHolds(ws, ops, i, first);
    InvAfter(ws, ops, j);
    var m := DeliveredFrom(ws[j], ops[j], second);
    if forall k | i < k < j :: !HolderActs(ws[k], ops[k], first.id, first.receiptHandle.value) {
      HoldRun(ws, ops, i + 1, j, first.id, first.receiptHandle.value, first.expiresAt.value);
    }
  }

  // ---- stale handles

  /** A handle that was handed out and that no message holds any more. */
  ghost predicate DeadHandle(s: Store, h: Id) {
    h < s.nextId && forall n, m :: In(s, n, m) ==> m.receiptHandle != Some(h)
  }

  lemma DeadStaysDead(s: Store, op: Op, now: Instant, h: Id)
    requires Inv(s) && DeadHandle(s, h)
    ensures DeadHandle(Apply(s, op, now).store, h)
  {
    var s' := Apply(s, op, now).store;
    StepKeeps(s, op, now);
    forall n', m' | In(s', n', m') ensures m'.receiptHandle != Some(h) {
      assert Descends(s, n', m', now, s'.nextId, CauseOf(op));
      if !Brandnew(m', s.nextId) {
        var n, m :| Comes(s, n, m, n', m', now, s'.nextId, CauseOf(op));
      }
    }
  }

  /** The handle of a delivery is only ever held by the delivered message. */
  ghost predicate OwnHandle(s: Store, id: Id, h: Id) {
    h < s.nextId && forall n, m :: In(s, n, m) && m.receiptHandle == Some(h) ==> m.id == id
  }

  lemma OwnHandleStep(s: Store, op: Op, now: Instant, id: Id, h: Id)
    requires Inv(s) && OwnHandle(s, id, h)
    ensures OwnHandle(Apply(s, op, now).store, id, h)
  {
    var s' := Apply(s, op, now).store;
    StepKeeps(s, op, now);
    forall n', m' | In(s', n', m') && m'.receiptHandle == Some(h) ensures m'.id == id {
      assert Descends(s, n', m', now, s'.nextId, CauseOf(op));
      var n, m :| Comes(s, n, m, n', m', now, s'.nextId, CauseOf(op));
      assert In(s, n, m) && m.receiptHandle == Some(h);
    }
  }

  /** Once the message a handle was given for no longer holds it, after a redelivery, a nak, a
      removal or dead-lettering, the handle is dead. */
  lemma Superseded(s: Store, op: Op, now: Instant, n: string, m: Msg, h: Id)
    requires Inv(s) && In(s, n, m) && m.receiptHandle == Some(h)
    requires forall n', m' :: In(Apply(s, op, now).store, n', m') && m'.id == m.id ==> m'.receiptHandle != Some(h)
    ensures DeadHandle(Apply(s, op, now).store, h)
  {
    assert Sound(m, s.nextId);
    OwnHandleStep(s, op, now, m.id, h);
    StepKeeps(s, op, now);
  }

  /** The operation names handle `h`: an update, nak, visibility change or delete with it. */
  predicate KeyedBy(op: Op, h: Id) {
    match op
    case Naks(_, _, k, _) => k == h
    case Extends(_, k, _) => k == h
    case Updates(_, _, k, _) => k == Some(h)
    case Deletes(_, _, k) => k == Some(h)
    case DeletesByHandle(_, k) => k == h
    case _ => false
  }

  lemma {:induction false} DeleteWithDeadHandle(ms: seq<Msg>, id: Id, h: Id)
    requires forall m | m in ms :: m.receiptHandle != Some(h)
    ensures DeleteFrom(ms, id, Some(h)).0 == ms
  {
    if ms != [] {
      assert ms[0] in ms && forall m | m in ms[1..] :: m in ms;
      DeleteWithDeadHandle(ms[1..], id, h);
    }
  }

  /** A dead handle has no power: an operation keyed by it leaves the whole store as it was. */
  lemma DeadPowerless(s: Store, op: Op, now: Instant, h: Id)
    requires DeadHandle(s, h) && KeyedBy(op, h)
    ensures Apply(s, op, now).store == s
  {
    if op.name in s.queues {
      var q := s.queues[op.name];
      forall m | m in q.messages ensures m.receiptHandle != Some(h) {
        assert In(s, op.name, m);
      }
      match op {
        case Deletes(_, id, _) =>
          DeleteWithDeadHandle(q.messages, id, h);
        case DeletesByHandle(_, _) =>
          FilterAll(q.messages, Not(HasHandle(h)));
        case _ =>
      }
      assert s.queues[op.name := q] == s.queues;
    }
  }

  /** Stale handles are powerless for the rest of every run: from the moment the message no
      longer holds the handle of a delivery, no operation keyed by it changes anything. */
  lemma {:induction false} StaleHandle(ws: seq<World>, ops: seq<Op>, i: nat, j: nat, k: nat, d: Msg)
    requires IsRun(ws, ops)
    requires i < j <= k < |ops| && d in DeliveredBy(ws[i], ops[i])
    requires d.receiptHandle.Some? && KeyedBy(ops[k], d.receiptHandle.value)
    requires forall n, m :: In(ws[j].store, n, m) && m.id == d.id ==> m.receiptHandle != d.receiptHandle
    ensures ws[k + 1].store == ws[k].store
  {
    HandleStays(ws, ops, i, j, d);
    DeadRun(ws, ops, j, k, d.receiptHandle.value);
    assert StepAt(ws, ops, k);
    DeadPowerless(ws[k].store, ops[k], ws[k].now, d.receiptHandle.value);
  }

  lemma HandleGiven(ws: seq<World>, ops: seq<Op>, i: nat, d: Msg)
    requires IsRun(ws, ops) && i < |ops| && d in DeliveredBy(ws[i], ops[i]) && d.receiptHandle.Some?
    ensures OwnHandle(ws[i + 1].store, d.id, d.receiptHandle.value)
  {
    InvAfter(ws, ops, i);
    InvAfter(ws, ops, i + 1);
    assert StepAt(ws, ops, i);
    var m := DeliveredFrom(ws[i], ops[i], d);
  }

  lemma {:induction false} HandleStays(ws: seq<World>, ops: seq<Op>, i: nat, j: nat, d: Msg)
    requires IsRun(ws, ops)
    requires i < j <= |ops| == |ws| - 1 && d in DeliveredBy(ws[i], ops[i]) && d.receiptHandle.Some?
    ensures OwnHandle(ws[j].store, d.id, d.receiptHandle.value)
  {
    if j == i + 1 {
      HandleGiven(ws, ops, i, d);
    } else {
      HandleStays(ws, ops, i, j - 1, d);
      InvAfter(ws, ops, j - 1);
      assert StepAt(ws, ops, j - 1);
      OwnHandleStep(ws[j - 1].store, ops[j - 1], ws[j - 1].now, d.id, d.receiptHandle.value);
    }
  }

  lemma {:induction false} DeadRun(ws: seq<World>, ops: seq<Op>, j: nat, k: nat, h: Id)
    requires IsRun(ws, ops)
    requires j <= k <= |ops| && DeadHandle(ws[j].store, h)
    ensures DeadHandle(ws[k].store, h)
  {
    if j < k {
      DeadRun(ws, ops, j, k - 1, h);
      InvAfter(ws, ops, k - 1);
      assert StepAt(ws, ops, k - 1);
      DeadStaysDead(ws[k - 1].store, ops[k - 1], ws[k - 1].now, h);
    }
  }

  // ---- failing deletes

  lemma {:induction false} FailingDelete(ms: seq<Msg>, id: Id, handle: Option<Id>)
    requires DistinctIds(ms) && !DeleteFrom(ms, id, handle).1
    ensures DeleteFrom(ms, id, handle).0 == ms
  {
    DistinctTail(ms);
    assert ms == [ms[0]] + ms[1..];
    if DeleteFrom(ms[1..], id, handle).1 {
      DeleteNone(ms[1..], id, handle);
    } else {
      FailingDelete(ms[1..], id, handle);
    }
  }

  lemma {:induction false} DeleteNone(ms: seq<Msg>, id: Id, handle: Option<Id>)
    requires forall m | m in ms :: m.id != id
    ensures DeleteFrom(ms, id, handle) == (ms, true)
  {
    if ms != [] {
      assert ms == [ms[0]] + ms[1..];
      DeleteNone(ms[1..], id, handle);
    }
  }

  lemma {:induction false} DeleteSome(ms: seq<Msg>, id: Id, handle: Option<Id>)
    requires DeleteFrom(ms, id, handle).1
    ensures forall m | m in ms && m.id == id :: m !in DeleteFrom(ms, id, handle).0
    ensures forall m | m in ms && m.id != id :: m in DeleteFrom(ms, id, handle).0
    ensures forall m | m in DeleteFrom(ms, id, handle).0 :: m in ms && m.id != id
    ensures |DeleteFrom(ms, id, handle).0| == |ms| ==> DeleteFrom(ms, id, handle).0 == ms
  {
    if ms != [] {
      DeleteSome(ms[1..], id, handle);
      assert ms == [ms[0]] + ms[1..];
    }
  }

  /** A delete either removes exactly the message it names or changes nothing: although the loop
      removes before it throws, ids being unique it has removed nothing when it does. */
  lemma DeleteExact(s: Store, n: string, id: Id, handle: Option<Id>)
    requires Inv(s) && n in s.queues
    ensures var r := Remove(s, n, id, handle);
            && (r.error.Some? ==> r.store == s)
            && (r.error.None? <==> exists m :: In(s, n, m) && m.id == id && (handle.None? || m.receiptHandle == handle))
            && (r.error.None? ==> forall m :: In(r.store, n, m) <==> In(s, n, m) && m.id != id)
  {
    var ms := s.queues[n].messages;
    var r := DeleteFrom(ms, id, handle);
    if !r.1 {
      FailingDelete(ms, id, handle);
      FailingDeleteWhy(ms, id, handle);
      var x :| x in ms && x.id == id && handle.Some? && x.receiptHandle != handle;
      forall m | In(s, n, m) && m.id == id ensures m == x {
        assert In(s, n, x);
        SameIdSame(s, n, m, n, x);
      }
    } else {
      DeleteSome(ms, id, handle);
      DeleteOkWhy(ms, id, handle);
      if |r.0| == |ms| {
        assert forall m | m in ms :: m.id != id;
      } else {
        DeletedOne(ms, id, handle);
        var x :| x in ms && x.id == id;
        assert In(s, n, x);
      }
    }
    assert s.queues[n := s.queues[n].(messages := ms)] == s.queues;
  }

  lemma {:induction false} FailingDeleteWhy(ms: seq<Msg>, id: Id, handle: Option<Id>)
    requires !DeleteFrom(ms, id, handle).1
    ensures exists m | m in ms :: m.id == id && handle.Some? && m.receiptHandle != handle
  {
    if DeleteFrom(ms[1..], id, handle).1 {
      assert ms[0] in ms;
    } else {
      FailingDeleteWhy(ms[1..], id, handle);
      var m :| m in ms[1..] && m.id == id && handle.Some? && m.receiptHandle != handle;
      assert m in ms;
    }
  }

  lemma {:induction false} DeleteOkWhy(ms: seq<Msg>, id: Id, handle: Option<Id>)
    requires DeleteFrom(ms, id, handle).1
    ensures forall m | m in ms && m.id == id :: handle.None? || m.receiptHandle == handle
  {
    if ms != [] {
      DeleteOkWhy(ms[1..], id, handle);
      assert ms == [ms[0]] + ms[1..];
    }
  }

  lemma {:induction false} DeletedOne(ms: seq<Msg>, id: Id, handle: Option<Id>)
    requires DeleteFrom(ms, id, handle).1 && |DeleteFrom(ms, id, handle).0| < |ms|
    ensures exists m | m in ms :: m.id == id
  {
    if ms[0].id == id {
      assert ms[0] in ms;
    } else {
      DeletedOne(ms[1..], id, handle);
      var m :| m in ms[1..] && m.id == id;
      assert m in ms;
    }
  }
}
