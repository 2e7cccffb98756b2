/** What the operations of a queue promise about each message, field by field and instant by instant
    (packages/store-memory/src/MemoryQueue.ts and MemoryQueueMessage.ts). */
module Promises {
  import opened Basics
  import opened Messages
  import opened Sorting
  import opened Queues
  import opened Stores
  import opened Invariants
  import opened Leases
  import opened PollPass

  /** The messages differ in their lease at most. */
  predicate SameButLease(m: Msg, m': Msg) {
    m' == m.(expiresAt := m'.expiresAt, receiptHandle := m'.receiptHandle)
  }

  /** Held through this instant: until then nobody else can have it, afterwards anyone once its delay is
      over. */
  ghost predicate HeldThrough(m: Msg, deadline: Instant) {
    && (forall t | t <= deadline :: !m.Available(t))
    && (forall t | t > deadline :: m.Available(t) <==> !m.Delayed(t))
  }

  // ---- receiving

  /** How long a receive holds a message: as long as it asks for, else as long as the queue says, else a
      minute. */
  ghost predicate HeldAsAsked(m: Msg, asked: Option<int>, queues: Option<int>, now: Instant) {
    match (asked, queues)
    case (Some(ms), _) => HeldThrough(m, now + ms)
    case (None, Some(ms)) => HeldThrough(m, now + ms)
    case (None, None) => HeldThrough(m, now + 60000)
  }

  /** A message that is handed out could be had, has one delivery more and a first receive time, and is
      held from then on; nothing else of it changes. */
  lemma ReceiveHolds(w: World, op: Op, d: Msg) returns (m: Msg)
    requires Inv(w.store) && d in DeliveredBy(w, op)
    ensures op.Receives? && op.name in w.store.queues && In(w.store, op.name, m) && m.Available(w.now)
    ensures In(Step(w, op).store, op.name, d)
    ensures HeldAsAsked(d, op.visibilityTimeoutMs, w.store.queues[op.name].options.visibilityTimeoutMs, w.now)
    ensures d.receiveCount == m.receiveCount + 1
    ensures match m.firstReceiveTime
            case Some(t) => d.firstReceiveTime == Some(t)
            case None => d.firstReceiveTime == Some(w.now)
    ensures SameButLease(m.(receiveCount := d.receiveCount, firstReceiveTime := d.firstReceiveTime), d)
  {
    OnlyReceivesDeliver(w, op, d);
    var q := w.store.queues[op.name];
    SortMembers(q.messages);
    m := ScanDelivers(q.options, Sort(q.messages), w.now, w.now + VisibilityTimeout(q, op.visibilityTimeoutMs), op.room,
                      w.store.nextId, d);
  }

  lemma {:induction false} UntakenStays(o: QueueOptions, ms: seq<Msg>, now: Instant, deadline: Instant, room: int,
          nid: Id, m: Msg)
    requires m in ms
    ensures var r := ScanList(o, ms, now, deadline, room, nid);
            m in r.messages || exists d | d in r.delivered :: d.id == m.id
  {
    var r := ScanList(o, ms, now, deadline, room, nid);
    if !CanReceive(o, ms[0], now) {
      if ms[0] != m {
        UntakenStays(o, ms[1..], now, deadline, room, nid, m);
      }
    } else if ms[0] == m {
      assert r.delivered[0] in r.delivered;
    } else if room == 1 {
      assert m in ms[1..];
    } else {
      UntakenStays(o, ms[1..], now, deadline, room - 1, nid + 1, m);
      var rest := ScanList(o, ms[1..], now, deadline, room - 1, nid + 1);
      if d :| d in rest.delivered && d.id == m.id {
        assert d in r.delivered;
      }
    }
  }

  /** What a receive does not hand out it leaves as it is. */
  lemma ReceiveLeavesOthers(w: World, op: Op, n: string, m: Msg)
    requires op.Receives? && In(w.store, n, m)
    ensures In(Step(w, op).store, n, m) || (n == op.name && exists d | d in DeliveredBy(w, op) :: d.id == m.id)
  {
    if n == op.name && !w.store.queues[n].paused {
      var q := w.store.queues[n];
      SortMembers(q.messages);
      UntakenStays(q.options, Sort(q.messages), w.now, w.now + VisibilityTimeout(q, op.visibilityTimeoutMs), op.room,
                   w.store.nextId, m);
    }
  }

  // ---- returning, extending and changing a message

  /** The queue holds the same messages in the same places, but for the one at `i`. */
  predicate OnlyAt(q: Queue, q': Queue, i: nat)
    requires i < |q.messages|
  {
    && q' == q.(messages := q'.messages) && |q'.messages| == |q.messages|
    && forall k | 0 <= k < |q.messages| && k != i :: q'.messages[k] == q.messages[k]
  }

  /** The operation succeeds, and the message at `i` is all it changes. */
  ghost predicate Touches(r: Result<Queue>, q: Queue, i: nat)
    requires i < |q.messages|
  {
    r.Ok? && OnlyAt(q, r.value, i)
  }

  lemma FindsAt(ms: seq<Msg>, p: Msg -> bool, i: nat)
    requires i < |ms| && p(ms[i]) && forall k | 0 <= k < |ms| && k != i :: !p(ms[k])
    ensures Find(ms, p) == Some(i)
  {
    assert ms[i] in ms;
  }

  /** A message that is returned by its holder can be had at once by anyone, unless it is still delayed,
      keeps the reason, and counts as lapsed for a poll at the same instant; its deliveries are not taken
      back. */
  lemma NakReturns(q: Queue, i: nat, handle: Id, reason: Option<string>, now: Instant)
    requires DistinctIds(q.messages) && i < |q.messages|
    ensures var m, r := q.messages[i], NakMessage(q, q.messages[i].id, handle, reason, now);
            && (m.receiptHandle != Some(handle) ==> r == Err(InvalidReceiptHandle))
            && (m.receiptHandle == Some(handle) ==>
                  && Touches(r, q, i)
                  && var m' := r.value.messages[i];
                     && HeldThrough(m', now - 1) && m'.expiresAt.Some? && m'.receiptHandle.None?
                     && m'.lastNakReason == reason && SameButLease(m.(lastNakReason := reason), m'))
  {
    FindsAt(q.messages, HasId(q.messages[i].id), i);
  }

  /** Its holder can hold it for longer or shorter. */
  lemma ExtendHolds(q: Queue, i: nat, handle: Id, deadline: Instant)
    requires i < |q.messages| && q.messages[i].receiptHandle == Some(handle)
    requires forall k | 0 <= k < |q.messages| && k != i :: q.messages[k].receiptHandle != Some(handle)
    ensures var r := UpdateVisibility(q, handle, deadline);
            && Touches(r, q, i) && HeldThrough(r.value.messages[i], deadline)
            && r.value.messages[i].receiptHandle == Some(handle) && SameButLease(q.messages[i], r.value.messages[i])
  {
    FindsAt(q.messages, HasHandle(handle), i);
  }

  /** Held through the time asked for, from now on; the rest of the store stays as it is. */
  lemma ExtendFromNow(w: World, op: Op, i: nat)
    requires Inv(w.store) && op.Extends? && op.name in w.store.queues && i < |w.store.queues[op.name].messages|
    requires w.store.queues[op.name].messages[i].receiptHandle == Some(op.handle)
    ensures var s, s', n := w.store, Step(w, op).store, op.name;
            && n in s'.queues && OnlyAt(s.queues[n], s'.queues[n], i) && s' == s.(queues := s.queues[n := s'.queues[n]])
            && HeldThrough(s'.queues[n].messages[i], w.now + op.timeMs)
            && SameButLease(s.queues[n].messages[i], s'.queues[n].messages[i])
            && s'.queues[n].messages[i].receiptHandle == Some(op.handle)
  {
    var q := w.store.queues[op.name];
    forall k | 0 <= k < |q.messages| && k != i ensures q.messages[k].receiptHandle != Some(op.handle) {
      assert In(w.store, op.name, q.messages[k]) && In(w.store, op.name, q.messages[i]);
    }
    ExtendHolds(q, i, op.handle, w.now + op.timeMs);
  }

  /** Without a holder nothing is extended. */
  lemma ExtendFails(q: Queue, handle: Id, deadline: Instant)
    requires forall m | m in q.messages :: m.receiptHandle != Some(handle)
    ensures UpdateVisibility(q, handle, deadline) == Err(InvalidReceiptHandle)
  {
  }

  /** An update sets exactly what it names; only who names the handle may set a deadline. */
  lemma UpdateSets(q: Queue, i: nat, handle: Option<Id>, u: MessageUpdate, now: Instant)
    requires DistinctIds(q.messages) && i < |q.messages|
    ensures var m, r := q.messages[i], UpdateMessage(q, q.messages[i].id, handle, u, now);
            && (r == Err(InvalidUpdate) <==> handle.None? && u.visibilityTimeoutMs.Some?)
            && (r == Err(InvalidReceiptHandle) <==> handle.Some? && m.receiptHandle != handle)
            && (r.Ok? ==>
                  && Touches(r, q, i)
                  && var m' := r.value.messages[i];
                     && (match u.priority case Some(p) => m'.priority == p case None => m'.priority == m.priority)
                     && (match u.attributes
                         case Some(a) => m'.attributes == a
                         case None => m'.attributes == m.attributes)
                     && (match u.visibilityTimeoutMs
                         case Some(ms) => HeldThrough(m', now + ms)
                         case None => m'.expiresAt == m.expiresAt)
                     && m' == m.(priority := m'.priority, attributes := m'.attributes, expiresAt := m'.expiresAt))
            && (r.Ok? || r == Err(InvalidUpdate) || r == Err(InvalidReceiptHandle))
  {
    FindsAt(q.messages, HasId(q.messages[i].id), i);
  }

  /** What names a message that is not there fails. */
  lemma NobodyFound(q: Queue, id: Id, handle: Id, maybeHandle: Option<Id>, reason: Option<string>, u: MessageUpdate,
          now: Instant)
    requires forall m | m in q.messages :: m.id != id
    ensures NakMessage(q, id, handle, reason, now) == Err(MessageNotFound)
    ensures UpdateMessage(q, id, maybeHandle, u, now) == Err(MessageNotFound)
    ensures DeleteMessage(q, id, maybeHandle).error == Some(MessageNotFound)
  {
    NothingDeleted(q.messages, id, maybeHandle);
  }

  lemma {:induction false} NothingDeleted(ms: seq<Msg>, id: Id, handle: Option<Id>)
    requires forall m | m in ms :: m.id != id
    ensures DeleteFrom(ms, id, handle) == (ms, true)
  {
    if ms != [] {
      assert ms == [ms[0]] + ms[1..];
      NothingDeleted(ms[1..], id, handle);
    }
  }

  /** A delete by handle removes the message with the handle and keeps the others in order. */
  lemma DeleteByHandleExactly(q: Queue, handle: Id)
    ensures var q' := DeleteByHandle(q, handle);
            && q' == q.(messages := q'.messages) && Subsequence(q'.messages, q.messages)
            && forall m :: m in q'.messages <==> m in q.messages && m.receiptHandle != Some(handle)
  {
    FilterMembers(q.messages, Not(HasHandle(handle)));
    FilterSubsequence(q.messages, Not(HasHandle(handle)));
  }

  // ---- polling

  /** What a poll makes of a message it keeps: one whose lease ended is free again, and set back as the queue
      says; any other stays as it is. */
  predicate Polled(behavior: Option<NakExpireBehavior>, m: Msg, m': Msg, now: Instant) {
    if m.expiresAt.Some? && m.expiresAt.value < now then
      && m' == m.(expiresAt := None, priority := m'.priority, orderTime := m'.orderTime)
      && match behavior
         case Some(MoveToEnd) => m'.orderTime == now && m'.priority == m.priority
         case Some(DecreasePriority(amount)) => m'.priority + amount == m.priority && m'.orderTime == m.orderTime
         case _ => m'.priority == m.priority && m'.orderTime == m.orderTime
    else m' == m
  }

  /** A poll drops what is over its retention, takes off what is exhausted, and keeps the rest, each message
      as `Polled` says. */
  lemma PollExactly(q: Queue, now: Instant, m: Msg)
    requires DistinctIds(q.messages) && m in q.messages
    ensures var ms' := PollQueue(q, now).messages;
            && ((exists m' | m' in ms' :: m'.id == m.id) <==> !IsOverdue(m, now) && !IsExhausted(q.options, m, now))
            && (forall m' | m' in ms' && m'.id == m.id :: Polled(q.options.nakExpireBehavior, m, m', now))
  {
    var ms', f := PollQueue(q, now).messages, FateOf(q.options, m, now);
    FateMember(q.options, q.messages, m, now);
    FateKeepsId(q.options, m, now);
    if f.Stays? {
      assert f.m in ms' && f.m.id == m.id;
    }
    forall m' | m' in ms' && m'.id == m.id ensures f == Stays(m') {
      KeptOrigin(q.options, q.messages, now);
      assert HasFate(q.options, q.messages, now, Stays(m'));
      OneFate(q.options, q.messages, m, Stays(m'), now);
    }
  }

  /** It adds nothing. */
  lemma PollAddsNothing(q: Queue, now: Instant, m': Msg)
    requires DistinctIds(q.messages) && m' in PollQueue(q, now).messages
    ensures exists m | m in q.messages :: m.id == m'.id
  {
    KeptOrigin(q.options, q.messages, now);
    assert HasFate(q.options, q.messages, now, Stays(m'));
    var m :| m in q.messages && FateOf(q.options, m, now) == Stays(m');
    FateKeepsId(q.options, m, now);
  }

  // ---- peeking

  /** Peeking without a maximum shows what can be had; what is held, if asked for; and what is delayed, held
      or not, if asked for. */
  lemma PeekShows(q: Queue, includeNotVisible: bool, includeDelayed: bool, now: Instant, m: Msg)
    requires m in q.messages
    ensures var delayed := m.delayUntil.Some? && now < m.delayUntil.value;
            var held := m.expiresAt.Some? && now <= m.expiresAt.value;
            m in Peek(q, includeNotVisible, includeDelayed, 0, now)
            <==> (if delayed then includeDelayed else if held then includeNotVisible else true)
  {
    SortMembers(q.messages);
    FilterMembers(Sort(q.messages), Peekable(includeNotVisible, includeDelayed, now));
  }
}
