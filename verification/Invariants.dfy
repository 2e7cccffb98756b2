/** What every reachable state of the broker keeps, and how one operation may change a
    message: the facts all whole-run theorems are derived from. */
module Invariants {
  import opened Basics
  import opened Messages
  import opened Sorting
  import opened Queues
  import opened Stores

  ghost predicate DistinctIds(ms: seq<Msg>) {
    forall i, j | 0 <= i < j < |ms| :: ms[i].id != ms[j].id
  }

  ghost predicate In(s: Store, n: string, m: Msg) {
    n in s.queues && m in s.queues[n].messages
  }

  /** Message ids are unique within and across queues. */
  ghost predicate IdsUnique(s: Store) {
    && (forall n | n in s.queues :: DistinctIds(s.queues[n].messages))
    && (forall n, n', m, m' :: In(s, n, m) && In(s, n', m') && m.id == m'.id ==> n == n')
  }

  /** No two messages hold the same receipt handle. */
  ghost predicate HandlesUnique(s: Store) {
    forall n, n', m, m' :: In(s, n, m) && In(s, n', m') && m.receiptHandle.Some? && m.receiptHandle == m'.receiptHandle
      ==> m.id == m'.id
  }

  /** Every identifier in use was answered by `createId`, and only a received message is leased. */
  ghost predicate Sound(m: Msg, nid: Id) {
    && m.id < nid
    && (m.receiptHandle.Some? ==> m.receiptHandle.value < nid && m.receiveCount > 0)
    && (m.expiresAt.Some? ==> m.receiveCount > 0)
  }

  ghost predicate AllSound(s: Store) {
    forall n, m :: In(s, n, m) ==> Sound(m, s.nextId)
  }

  ghost predicate DistinctTargets(subs: seq<Subscription>) {
    forall i, j | 0 <= i < j < |subs| :: subs[i].queueName != subs[j].queueName
  }

  ghost predicate TopicsGood(s: Store) {
    forall t | t in s.topics :: DistinctTargets(s.topics[t].subscriptions)
  }

  ghost predicate Inv(s: Store) {
    IdsUnique(s) && HandlesUnique(s) && AllSound(s) && TopicsGood(s)
  }

  // ---- how one operation may change one message

  ghost predicate SameLease(m: Msg, m': Msg) {
    m'.expiresAt == m.expiresAt && m'.receiptHandle == m.receiptHandle && m'.receiveCount == m.receiveCount
  }

  /** Handed out: it was available, and now has a fresh handle, a deadline and one delivery more. */
  ghost predicate Delivered(m: Msg, m': Msg, now: Instant, nid: Id, nid': Id) {
    && m.Available(now)
    && m'.receiptHandle.Some? && nid <= m'.receiptHandle.value < nid'
    && m'.expiresAt.Some? && m'.receiveCount == m.receiveCount + 1
  }

  /** Changed by the holder of its current handle. */
  ghost predicate UsedByHolder(m: Msg, m': Msg, used: Option<Id>) {
    && used.Some? && m.receiptHandle == used
    && (m'.receiptHandle == m.receiptHandle || m'.receiptHandle.None?)
    && m'.expiresAt.Some? && m'.receiveCount == m.receiveCount
  }

  /** Its deadline passed and a poll noticed: it stays, or starts over in a dead-letter queue. */
  ghost predicate LeaseEnded(m: Msg, m': Msg, now: Instant) {
    && m.LeaseOver(now) && m'.expiresAt.None?
    && ((m'.receiptHandle == m.receiptHandle && m'.receiveCount == m.receiveCount)
        || (m'.receiptHandle.None? && m'.receiveCount == 0))
  }

  ghost predicate Evolved(m: Msg, m': Msg, now: Instant, nid: Id, nid': Id, used: Option<Id>) {
    && m'.id == m.id && m'.body == m.body
    && (SameLease(m, m') || Delivered(m, m', now, nid, nid') || UsedByHolder(m, m', used) || LeaseEnded(m, m', now))
  }

  /** What a queue with options `o` does to the messages it holds: a delivery only below the
      limit, and a deadline is only taken off below the limit. */
  ghost predicate Lives(o: QueueOptions, m: Msg, m': Msg) {
    && m'.deduplicationId == m.deduplicationId
    && ((m'.receiveCount == m.receiveCount
         && (m'.expiresAt == m.expiresAt || m'.expiresAt.Some? || !o.PollExhausts(m)))
        || (m'.receiveCount == m.receiveCount + 1 && m'.expiresAt.Some? && !o.UsedUp(m)))
  }

  /** Dead-lettered: it starts over under its old id. */
  ghost predicate Reborn(m: Msg, m': Msg, now: Instant) {
    && m.LeaseOver(now) && m'.expiresAt.None? && m'.receiptHandle.None? && m'.receiveCount == 0
    && m'.deduplicationId.None?
  }

  /** A message that has just been sent. */
  ghost predicate Brandnew(m: Msg, nid: Id) {
    m.id >= nid && m.receiptHandle.None? && m.expiresAt.None? && m.receiveCount == 0
  }

  /** What an operation brings along: the handle it changes a lease with, the queue it moves
      messages into, the deduplication id of what it sends. */
  datatype Cause = Cause(used: Option<Id>, into: Option<string>, dedup: Option<string>)

  const NoCause := Cause(None, None, None)

  /** Message `m` of queue `n` has become `m'` of queue `n'`; a change of queue is a
      dead-lettering or a move into `into`. */
  ghost predicate Comes(s: Store, n: string, m: Msg, n': string, m': Msg, now: Instant, nid': Id,
                        c: Cause)
  {
    && In(s, n, m) && Evolved(m, m', now, s.nextId, nid', c.used)
    && ((n == n' && Lives(s.queues[n].options, m, m')) || c.into == Some(n') || Reborn(m, m', now))
  }

  ghost predicate Descends(s: Store, n': string, m': Msg, now: Instant, nid': Id, c: Cause) {
    || (Brandnew(m', s.nextId) && m'.deduplicationId == c.dedup)
    || exists n, m :: Comes(s, n, m, n', m', now, nid', c)
  }

  /** Every message of `s'` is new or comes from one of `s`. */
  ghost predicate Follows(s: Store, s': Store, now: Instant, c: Cause) {
    s.nextId <= s'.nextId && forall n', m' :: In(s', n', m') ==> Descends(s, n', m', now, s'.nextId, c)
  }

  // ---- one queue changes in place

  ghost predicate From(o: QueueOptions, ms: seq<Msg>, m': Msg, now: Instant, nid: Id, nid': Id, used: Option<Id>) {
    exists m | m in ms :: Evolved(m, m', now, nid, nid', used) && Lives(o, m, m')
  }

  /** Messages share a handle only if it is older than `nid`. */
  ghost predicate FreshHandlesDiffer(ms: seq<Msg>, nid: Id) {
    forall i, j | 0 <= i < j < |ms| && ms[i].receiptHandle.Some? && ms[i].receiptHandle == ms[j].receiptHandle ::
      ms[i].receiptHandle.value < nid
  }

  ghost predicate QueueStep(o: QueueOptions, ms: seq<Msg>, ms': seq<Msg>, now: Instant, nid: Id, nid': Id,
          used: Option<Id>)
  {
    && nid <= nid'
    && DistinctIds(ms')
    && (forall m' | m' in ms' :: From(o, ms, m', now, nid, nid', used))
    && FreshHandlesDiffer(ms', nid)
  }

  /** What evolving keeps of a message's identity. */
  ghost predicate Kin(m: Msg, m': Msg, nid: Id, nid': Id) {
    && m'.id == m.id && Sound(m', nid')
    && (m'.receiptHandle.None? || m'.receiptHandle == m.receiptHandle || m'.receiptHandle.value >= nid)
  }

  lemma EvolvedIsKin(m: Msg, m': Msg, now: Instant, nid: Id, nid': Id, used: Option<Id>)
    requires Evolved(m, m', now, nid, nid', used) && Sound(m, nid) && nid <= nid'
    ensures Kin(m, m', nid, nid')
  {
  }

  /** The message of the old state a message of the new state comes from. */
  lemma PutOrigin(s: Store, n: string, q': Queue, nid': Id, now: Instant, c: Cause, n': string, m': Msg)
    returns (m: Msg)
    requires Inv(s) && n in s.queues
    requires QueueStep(s.queues[n].options, s.queues[n].messages, q'.messages, now, s.nextId, nid', c.used)
    requires In(PutQueue(s, n, q').(nextId := nid'), n', m')
    ensures In(s, n', m) && Evolved(m, m', now, s.nextId, nid', c.used) && Kin(m, m', s.nextId, nid')
    ensures Comes(s, n', m, n', m', now, nid', c)
  {
    if n' == n {
      assert From(s.queues[n].options, s.queues[n].messages, m', now, s.nextId, nid', c.used);
      m :| m in s.queues[n].messages && Evolved(m, m', now, s.nextId, nid', c.used)
        && Lives(s.queues[n].options, m, m');
    } else {
      m := m';
    }
    assert In(s, n', m);
    EvolvedIsKin(m, m', now, s.nextId, nid', c.used);
  }

  lemma FreshHandleOwner(ms: seq<Msg>, nid: Id, a: Msg, b: Msg)
    requires FreshHandlesDiffer(ms, nid) && a in ms && b in ms
    requires a.receiptHandle.Some? && a.receiptHandle == b.receiptHandle && a.receiptHandle.value >= nid
    ensures a == b
  {
    var i :| 0 <= i < |ms| && ms[i] == a;
    var j :| 0 <= j < |ms| && ms[j] == b;
  }

  lemma PutStep(s: Store, n: string, q': Queue, nid': Id, now: Instant, c: Cause)
    requires Inv(s) && n in s.queues
    requires QueueStep(s.queues[n].options, s.queues[n].messages, q'.messages, now, s.nextId, nid', c.used)
    ensures var s' := PutQueue(s, n, q').(nextId := nid'); Inv(s') && Follows(s, s', now, c)
  {
    var s' := PutQueue(s, n, q').(nextId := nid');
    forall n', m' | In(s', n', m') ensures Descends(s, n', m', now, nid', c) && Sound(m', nid') {
      var m := PutOrigin(s, n, q', nid', now, c, n', m');
    }
    forall a, b, m, m' | In(s', a, m) && In(s', b, m') && m.id == m'.id ensures a == b {
      var x := PutOrigin(s, n, q', nid', now, c, a, m);
      var y := PutOrigin(s, n, q', nid', now, c, b, m');
    }
    forall a, b, m, m' | In(s', a, m) && In(s', b, m') && m.receiptHandle.Some? && m.receiptHandle == m'.receiptHandle
      ensures m.id == m'.id
    {
      var x := PutOrigin(s, n, q', nid', now, c, a, m);
      var y := PutOrigin(s, n, q', nid', now, c, b, m');
      assert Sound(x, s.nextId) && Sound(y, s.nextId);
      if m.receiptHandle.value >= s.nextId {
        assert a == n && b == n;
        FreshHandleOwner(q'.messages, s.nextId, m, m');
      }
    }
  }

  lemma SameMessages(o: QueueOptions, ms: seq<Msg>, ms': seq<Msg>, now: Instant, nid: Id, used: Option<Id>)
    requires DistinctIds(ms') && (forall m | m in ms' :: m in ms)
    requires forall m | m in ms :: Sound(m, nid)
    ensures QueueStep(o, ms, ms', now, nid, nid, used)
  {
    forall m' | m' in ms' ensures From(o, ms, m', now, nid, nid, used) {
      assert Evolved(m', m', now, nid, nid, used) && Lives(o, m', m');
    }
    forall i | 0 <= i < |ms'| ensures ms'[i].receiptHandle.Some? ==> ms'[i].receiptHandle.value < nid {
      assert ms'[i] in ms';
    }
  }

  lemma DistinctTail(ms: seq<Msg>)
    requires ms != [] && DistinctIds(ms)
    ensures DistinctIds(ms[1..]) && forall m | m in ms[1..] :: m.id != ms[0].id && m in ms
  {
    forall m | m in ms[1..] ensures m.id != ms[0].id && m in ms {
      var k :| 0 <= k < |ms[1..]| && ms[1..][k] == m;
      assert ms[k + 1] == m;
    }
  }

  lemma DistinctCons(m: Msg, ms: seq<Msg>)
    requires DistinctIds(ms) && forall x | x in ms :: x.id != m.id
    ensures DistinctIds([m] + ms)
  {
  }

  lemma DistinctSnoc(ms: seq<Msg>, m: Msg)
    requires DistinctIds(ms) && forall x | x in ms :: x.id != m.id
    ensures DistinctIds(ms + [m])
  {
  }

  lemma {:induction false} FilterDistinct(ms: seq<Msg>, p: Msg -> bool)
    requires DistinctIds(ms)
    ensures DistinctIds(Filter(ms, p))
  {
    if ms != [] {
      DistinctTail(ms);
      FilterDistinct(ms[1..], p);
      FilterMembers(ms[1..], p);
      DistinctCons(ms[0], Filter(ms[1..], p));
    }
  }

  lemma {:induction false} InsertDistinct(m: Msg, ms: seq<Msg>)
    requires DistinctIds(ms) && forall x | x in ms :: x.id != m.id
    ensures DistinctIds(Insert(m, ms))
  {
    if ms == [] || Compare(m, ms[0]) <= 0 {
      DistinctCons(m, ms);
    } else {
      DistinctTail(ms);
      InsertDistinct(m, ms[1..]);
      InsertMembers(m, ms[1..]);
      DistinctCons(ms[0], Insert(m, ms[1..]));
    }
  }

  lemma {:induction false} SortDistinct(ms: seq<Msg>)
    requires DistinctIds(ms)
    ensures DistinctIds(Sort(ms))
  {
    if ms != [] {
      DistinctTail(ms);
      SortDistinct(ms[1..]);
      SortMembers(ms[1..]);
      InsertDistinct(ms[0], Sort(ms[1..]));
    }
  }

  lemma {:induction false} ReverseDistinct(ms: seq<Msg>)
    requires DistinctIds(ms)
    ensures DistinctIds(Reverse(ms))
  {
    if ms != [] {
      DistinctTail(ms);
      ReverseDistinct(ms[1..]);
      ReverseMembers(ms[1..]);
      DistinctSnoc(Reverse(ms[1..]), ms[0]);
    }
  }

  // ---- the queue operations, one by one

  /** What a scan makes of one message: nothing, or the next delivery with a handle of its own. */
  ghost predicate Scanned(o: QueueOptions, m: Msg, m': Msg, now: Instant, deadline: Instant, nid: Id, nid': Id) {
    m' == m || (CanReceive(o, m, now) && m'.receiptHandle.Some? && nid <= m'.receiptHandle.value < nid'
                && m' == m.MarkReceived(deadline, now, m'.receiptHandle.value))
  }

  lemma {:induction false} ScanEach(o: QueueOptions, ms: seq<Msg>, now: Instant, deadline: Instant, room: int, nid: Id)
    ensures var r := ScanList(o, ms, now, deadline, room, nid);
            forall i | 0 <= i < |ms| :: Scanned(o, ms[i], r.messages[i], now, deadline, nid, nid + |r.delivered|)
  {
    if ms != [] {
      var r := ScanList(o, ms, now, deadline, room, nid);
      if !CanReceive(o, ms[0], now) {
        ScanEach(o, ms[1..], now, deadline, room, nid);
      } else if room != 1 {
        ScanEach(o, ms[1..], now, deadline, room - 1, nid + 1);
        var rest := ScanList(o, ms[1..], now, deadline, room - 1, nid + 1);
        assert |r.delivered| == |rest.delivered| + 1;
        forall i | 0 < i < |ms| ensures Scanned(o, ms[i], r.messages[i], now, deadline, nid, nid + |r.delivered|) {
          assert Scanned(o, ms[1..][i - 1], rest.messages[i - 1], now, deadline, nid + 1, nid + 1 + |rest.delivered|);
        }
      }
    }
  }

  ghost predicate OldOrFrom(m: Msg, nid0: Id, nid: Id) {
    m.receiptHandle.Some? ==> m.receiptHandle.value < nid0 || m.receiptHandle.value >= nid
  }

  ghost predicate OldOrDiffer(a: Msg, b: Msg, nid0: Id) {
    a.receiptHandle.Some? && a.receiptHandle == b.receiptHandle ==> a.receiptHandle.value < nid0
  }

  /** The handles a scan hands out are pairwise distinct. */
  lemma {:induction false} ScanHandles(o: QueueOptions, ms: seq<Msg>, now: Instant, deadline: Instant, room: int,
          nid: Id, nid0: Id, r: seq<Msg>)
    requires nid0 <= nid
    requires forall i | 0 <= i < |ms| :: ms[i].receiptHandle.Some? ==> ms[i].receiptHandle.value < nid0
    requires r == ScanList(o, ms, now, deadline, room, nid).messages
    ensures forall i | 0 <= i < |r| :: OldOrFrom(r[i], nid0, nid)
    ensures forall i, j | 0 <= i < j < |r| :: OldOrDiffer(r[i], r[j], nid0)
  {
    if ms != [] {
      if CanReceive(o, ms[0], now) && room == 1 {
        assert forall i | 0 < i < |r| :: r[i] == ms[i];
      } else {
        var took := CanReceive(o, ms[0], now);
        var nid1 := if took then nid + 1 else nid;
        var rest := ScanList(o, ms[1..], now, deadline, if took then room - 1 else room, nid1).messages;
        assert r[1..] == rest;
        assert forall i | 0 <= i < |ms[1..]| :: ms[1..][i] == ms[i + 1];
        ScanHandles(o, ms[1..], now, deadline, if took then room - 1 else room, nid1, nid0, rest);
        assert OldOrFrom(r[0], nid0, nid);
        forall i | 0 <= i < |r| ensures OldOrFrom(r[i], nid0, nid) {
          if i > 0 {
            assert r[i] == rest[i - 1] && OldOrFrom(rest[i - 1], nid0, nid1);
          }
        }
        forall i, j | 0 <= i < j < |r| ensures OldOrDiffer(r[i], r[j], nid0) {
          assert r[j] == rest[j - 1] && OldOrFrom(rest[j - 1], nid0, nid1);
          if i > 0 {
            assert r[i] == rest[i - 1] && OldOrDiffer(rest[i - 1], rest[j - 1], nid0);
          }
        }
      }
    }
  }

  lemma ScannedEvolves(o: QueueOptions, m: Msg, m': Msg, now: Instant, deadline: Instant, nid: Id, nid': Id)
    requires Scanned(o, m, m', now, deadline, nid, nid')
    ensures Evolved(m, m', now, nid, nid', None) && Lives(o, m, m')
  {
  }

  lemma ScanFreshHandles(o: QueueOptions, ms: seq<Msg>, now: Instant, deadline: Instant, room: int, nid: Id, r: Pass)
    requires forall m | m in ms :: Sound(m, nid)
    requires r == ScanList(o, ms, now, deadline, room, nid)
    ensures FreshHandlesDiffer(r.messages, nid)
  {
    forall i | 0 <= i < |ms| ensures ms[i].receiptHandle.Some? ==> ms[i].receiptHandle.value < nid {
      assert ms[i] in ms;
    }
    ScanHandles(o, ms, now, deadline, room, nid, nid, r.messages);
    forall i, j | 0 <= i < j < |ms| ensures OldOrDiffer(r.messages[i], r.messages[j], nid) {
    }
  }

  lemma ScanOrigins(o: QueueOptions, ms: seq<Msg>, now: Instant, deadline: Instant, room: int, nid: Id, r: Pass)
    requires r == ScanList(o, ms, now, deadline, room, nid)
    ensures forall i | 0 <= i < |ms| :: r.messages[i].id == ms[i].id
    ensures forall m' | m' in r.messages :: From(o, ms, m', now, nid, nid + |r.delivered|, None)
  {
    var nid', s := nid + |r.delivered|, r.messages;
    ScanEach(o, ms, now, deadline, room, nid);
    forall i | 0 <= i < |ms| ensures s[i].id == ms[i].id && From(o, ms, s[i], now, nid, nid', None) {
      assert Scanned(o, ms[i], s[i], now, deadline, nid, nid');
      ScannedEvolves(o, ms[i], s[i], now, deadline, nid, nid');
      assert ms[i] in ms;
    }
  }

  lemma SortedScanIsStep(o: QueueOptions, ms: seq<Msg>, now: Instant, deadline: Instant, room: int, nid: Id, r: Pass)
    requires DistinctIds(ms) && forall m | m in ms :: Sound(m, nid)
    requires r == ScanList(o, ms, now, deadline, room, nid)
    ensures QueueStep(o, ms, r.messages, now, nid, nid + |r.delivered|, None)
  {
    ScanFreshHandles(o, ms, now, deadline, room, nid, r);
    ScanOrigins(o, ms, now, deadline, room, nid, r);
  }

  lemma StepAfterReorder(o: QueueOptions, ms: seq<Msg>, ms1: seq<Msg>, ms2: seq<Msg>, now: Instant, nid: Id, nid': Id,
          used: Option<Id>)
    requires (forall m | m in ms1 :: m in ms) && QueueStep(o, ms1, ms2, now, nid, nid', used)
    ensures QueueStep(o, ms, ms2, now, nid, nid', used)
  {
    forall m' | m' in ms2 ensures From(o, ms, m', now, nid, nid', used) {
      assert From(o, ms1, m', now, nid, nid', used);
    }
  }

  lemma ScanIsStep(q: Queue, now: Instant, vis: Option<int>, room: int, nid: Id)
    requires DistinctIds(q.messages) && forall m | m in q.messages :: Sound(m, nid)
    ensures var r := Scan(q, now, vis, room, nid);
            QueueStep(q.options, q.messages, r.queue.messages, now, nid, nid + |r.delivered|, None)
  {
    if q.paused {
      SameMessages(q.options, q.messages, q.messages, now, nid, None);
    } else {
      var ms := Sort(q.messages);
      SortDistinct(q.messages);
      SortMembers(q.messages);
      var r := ScanList(q.options, ms, now, now + VisibilityTimeout(q, vis), room, nid);
      SortedScanIsStep(q.options, ms, now, now + VisibilityTimeout(q, vis), room, nid, r);
      StepAfterReorder(q.options, q.messages, ms, r.messages, now, nid, nid + |r.delivered|, None);
    }
  }

  lemma UpdateIsStep(o: QueueOptions, ms: seq<Msg>, i: nat, m': Msg, now: Instant, nid: Id, used: Option<Id>)
    requires i < |ms| && DistinctIds(ms) && forall m | m in ms :: Sound(m, nid)
    requires Evolved(ms[i], m', now, nid, nid, used) && Lives(o, ms[i], m')
    ensures QueueStep(o, ms, ms[i := m'], now, nid, nid, used)
  {
    var ms' := ms[i := m'];
    forall x | x in ms' ensures From(o, ms, x, now, nid, nid, used) {
      if x != m' {
        assert x in ms && Evolved(x, x, now, nid, nid, used) && Lives(o, x, x);
      } else {
        assert ms[i] in ms;
      }
    }
    forall x | x in ms' ensures x.receiptHandle.Some? ==> x.receiptHandle.value < nid {
      if x != m' {
        assert x in ms;
      } else {
        assert ms[i] in ms;
      }
    }
  }

  lemma {:induction false} DeleteFromDistinct(ms: seq<Msg>, id: Id, handle: Option<Id>)
    requires DistinctIds(ms)
    ensures DistinctIds(DeleteFrom(ms, id, handle).0)
    ensures forall m | m in DeleteFrom(ms, id, handle).0 :: m in ms
  {
    if ms != [] {
      DistinctTail(ms);
      DeleteFromDistinct(ms[1..], id, handle);
      DistinctCons(ms[0], DeleteFrom(ms[1..], id, handle).0);
    }
  }

  ghost predicate HasFate(o: QueueOptions, ms: seq<Msg>, now: Instant, f: Fate) {
    exists m | m in ms :: FateOf(o, m, now) == f
  }

  lemma HasFateTail(o: QueueOptions, ms: seq<Msg>, now: Instant, f: Fate)
    requires ms != [] && HasFate(o, ms[1..], now, f)
    ensures HasFate(o, ms, now, f)
  {
    var m :| m in ms[1..] && FateOf(o, m, now) == f;
    assert m in ms;
  }

  lemma FateKeepsId(o: QueueOptions, m: Msg, now: Instant)
    ensures FateOf(o, m, now).Drops? || FateOf(o, m, now).m.id == m.id
  {
  }

  lemma {:induction false} KeptOrigin(o: QueueOptions, ms: seq<Msg>, now: Instant)
    requires DistinctIds(ms)
    ensures DistinctIds(Kept(o, ms, now))
    ensures forall m' | m' in Kept(o, ms, now) :: HasFate(o, ms, now, Stays(m'))
  {
    if ms != [] {
      DistinctTail(ms);
      KeptOrigin(o, ms[1..], now);
      var k := Kept(o, ms[1..], now);
      forall m' | m' in k ensures HasFate(o, ms, now, Stays(m')) && m'.id != ms[0].id {
        assert HasFate(o, ms[1..], now, Stays(m'));
        HasFateTail(o, ms, now, Stays(m'));
        var m :| m in ms[1..] && FateOf(o, m, now) == Stays(m');
        FateKeepsId(o, m, now);
      }
      assert ms[0] in ms;
      var f := FateOf(o, ms[0], now);
      if f.Stays? {
        FateKeepsId(o, ms[0], now);
        DistinctCons(f.m, k);
        assert HasFate(o, ms, now, f);
      }
    }
  }

  lemma {:induction false} ExhaustedOrigin(o: QueueOptions, ms: seq<Msg>, now: Instant)
    requires DistinctIds(ms)
    ensures DistinctIds(Exhausted(o, ms, now))
    ensures forall e | e in Exhausted(o, ms, now) :: HasFate(o, ms, now, Leaves(e))
  {
    if ms != [] {
      DistinctTail(ms);
      ExhaustedOrigin(o, ms[1..], now);
      var k := Exhausted(o, ms[1..], now);
      forall e | e in k ensures HasFate(o, ms, now, Leaves(e)) && e.id != ms[0].id {
        assert HasFate(o, ms[1..], now, Leaves(e));
        HasFateTail(o, ms, now, Leaves(e));
        var m :| m in ms[1..] && FateOf(o, m, now) == Leaves(e);
        FateKeepsId(o, m, now);
      }
      assert ms[0] in ms;
      var f := FateOf(o, ms[0], now);
      if f.Leaves? {
        FateKeepsId(o, ms[0], now);
        DistinctCons(f.m, k);
        assert HasFate(o, ms, now, f);
      }
    }
  }
}
