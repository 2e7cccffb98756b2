/** What one pass of the receive loop hands out, and in which order. */
module Scans {
  import opened Basics
  import opened Messages
  import opened Sorting
  import opened Queues
  import opened Invariants
  import opened SqlTables

  function Receivable(o: QueueOptions, now: Instant): Msg -> bool {
    (m: Msg) => CanReceive(o, m, now)
  }

  /** The messages leased in order, each with the next handle. */
  function Leased(ms: seq<Msg>, deadline: Instant, now: Instant, nid: Id): (r: seq<Msg>)
    ensures |r| == |ms|
  {
    if ms == [] then [] else [ms[0].MarkReceived(deadline, now, nid)] + Leased(ms[1..], deadline, now, nid + 1)
  }

  lemma {:induction false} ScanListTakesFirst(o: QueueOptions, ms: seq<Msg>, now: Instant, deadline: Instant,
          room: int, nid: Id)
    ensures ScanList(o, ms, now, deadline, room, nid).delivered
         == Leased(First(Filter(ms, Receivable(o, now)), room), deadline, now, nid)
  {
    if ms != [] {
      var p := Receivable(o, now);
      var rest := Filter(ms[1..], p);
      if !CanReceive(o, ms[0], now) {
        ScanListTakesFirst(o, ms[1..], now, deadline, room, nid);
        assert Filter(ms, p) == rest;
      } else {
        assert Filter(ms, p) == [ms[0]] + rest;
        if room == 1 {
          assert First([ms[0]] + rest, 1) == [ms[0]];
        } else {
          ScanListTakesFirst(o, ms[1..], now, deadline, room - 1, nid + 1);
          assert First([ms[0]] + rest, room) == [ms[0]] + First(rest, room - 1);
          assert ([ms[0]] + First(rest, room - 1))[1..] == First(rest, room - 1);
        }
      }
    }
  }

  /** The messages a scan with this much room chooses. */
  function Chosen(q: Queue, now: Instant, room: int): seq<Msg> {
    First(Filter(Sort(q.messages), Receivable(q.options, now)), room)
  }

  /** One scan hands out exactly the first `room` receivable messages of the stable order:
      highest priority first, then earliest order time, then position in the list. */
  lemma ScanTakesFirst(q: Queue, now: Instant, vis: Option<int>, room: int, nid: Id)
    requires !q.paused
    ensures Scan(q, now, vis, room, nid).delivered
         == Leased(Chosen(q, now, room), now + VisibilityTimeout(q, vis), now, nid)
  {
    ScanListTakesFirst(q.options, Sort(q.messages), now, now + VisibilityTimeout(q, vis), room, nid);
  }

  lemma {:induction false} FilterAgrees(ms: seq<Msg>, p: Msg -> bool, p': Msg -> bool)
    requires forall m | m in ms :: p(m) == p'(m)
    ensures Filter(ms, p) == Filter(ms, p')
  {
    if ms != [] {
      assert ms[0] in ms && forall m | m in ms[1..] :: m in ms;
      FilterAgrees(ms[1..], p, p');
    }
  }

  /** Peeking shows what a receive at the same instant hands out, in the same order, unless the
      queue holds available messages that used up their deliveries. */
  lemma PeekPredictsReceive(q: Queue, now: Instant, vis: Option<int>, max: int, nid: Id)
    requires !q.paused && forall m | m in q.messages :: m.Available(now) ==> !q.options.UsedUp(m)
    ensures Scan(q, now, vis, max, nid).delivered
         == Leased(Peek(q, false, false, max, now), now + VisibilityTimeout(q, vis), now, nid)
  {
    ScanTakesFirst(q, now, vis, max, nid);
    SortMembers(q.messages);
    FilterAgrees(Sort(q.messages), Receivable(q.options, now), Peekable(false, false, now));
  }

  /** Peeking at everything shows the list `getMessage` counts positions in. */
  lemma PeekAllIsOrder(q: Queue, now: Instant)
    ensures Peek(q, true, true, 0, now) == Sort(q.messages)
  {
    FilterAll(Sort(q.messages), Peekable(true, true, now));
  }

  // ---- the same question asked of a database table

  function RowOf(m: Msg): Row {
    Row(m.priority, m.sentTime, m.orderTime, m.retainUntil, m.body, m.receiveCount, m.attributes, m.expiresAt,
        m.delayUntil, m.lastNakReason, m.deduplicationId, m.receiptHandle, m.firstReceiveTime)
  }

  function IdOf(): Msg -> Id { (m: Msg) => m.id }

  ghost predicate TableOf(rows: map<Id, Row>, ms: seq<Msg>) {
    && (forall m | m in ms :: m.id in rows && rows[m.id] == RowOf(m))
    && (forall x | x in rows :: exists m | m in ms :: m.id == x)
  }

  lemma {:induction false} FilterSorted(ms: seq<Msg>, p: Msg -> bool)
    requires Sorted(ms)
    ensures Sorted(Filter(ms, p))
  {
    if ms != [] {
      FilterSorted(ms[1..], p);
      FilterMembers(ms[1..], p);
      var f := Filter(ms[1..], p);
      forall i | 0 <= i < |f| ensures Compare(ms[0], f[i]) <= 0 {
        assert f[i] in f;
        var k :| 0 <= k < |ms[1..]| && ms[1..][k] == f[i];
        assert ms[k + 1] == f[i];
      }
    }
  }

  lemma ChosenFacts(q: Queue, now: Instant, count: nat)
    requires DistinctIds(q.messages) && count >= 1
    ensures var c := Chosen(q, now, count);
            && |c| <= count && DistinctIds(c) && Sorted(c)
            && forall i | 0 <= i < |c| :: c[i] in q.messages && CanReceive(q.options, c[i], now)
  {
    var ms, p := Sort(q.messages), Receivable(q.options, now);
    SortMembers(q.messages);
    SortDistinct(q.messages);
    SortSorts(q.messages);
    FilterMembers(ms, p);
    FilterDistinct(ms, p);
    FilterSorted(ms, p);
    var c := Chosen(q, now, count);
    forall i | 0 <= i < |c| ensures c[i] in q.messages && CanReceive(q.options, c[i], now) {
      assert c[i] in Filter(ms, p);
    }
  }

  /** A receivable message the scan did not choose comes after all it chose, and there was no room. */
  lemma NotChosen(q: Queue, now: Instant, count: nat, m: Msg)
    requires count >= 1 && m in q.messages && CanReceive(q.options, m, now) && m !in Chosen(q, now, count)
    ensures var c := Chosen(q, now, count); |c| == count && forall i | 0 <= i < |c| :: Compare(c[i], m) <= 0
  {
    var ms, p := Sort(q.messages), Receivable(q.options, now);
    SortMembers(q.messages);
    SortSorts(q.messages);
    FilterMembers(ms, p);
    FilterSorted(ms, p);
    var f := Filter(ms, p);
    var k :| 0 <= k < |f| && f[k] == m;
    assert f[k] in f[..] && |f| > count;
  }

  lemma RowsOfChosen(rows: map<Id, Row>, q: Queue, c: seq<Msg>, now: Instant, ids: seq<Id>)
    requires TableOf(rows, q.messages) && q.options.maxReceiveCount.Some? && ids == Map(c, IdOf())
    requires DistinctIds(c) && Sorted(c)
    requires forall i | 0 <= i < |c| :: c[i] in q.messages && CanReceive(q.options, c[i], now)
    ensures AllDiffer(ids)
    ensures forall i | 0 <= i < |ids| ::
              ids[i] in rows && rows[ids[i]] == RowOf(c[i]) && Matches(rows[ids[i]], now, q.options.maxReceiveCount)
    ensures forall i, j | 0 <= i < j < |ids| :: RowCompare(rows[ids[i]], rows[ids[j]]) <= 0
  {
    forall i | 0 <= i < |ids|
      ensures ids[i] in rows && rows[ids[i]] == RowOf(c[i]) && Matches(rows[ids[i]], now, q.options.maxReceiveCount)
    {
      assert ids[i] == c[i].id;
    }
    forall i, j | 0 <= i < j < |ids| ensures RowCompare(rows[ids[i]], rows[ids[j]]) <= 0 && ids[i] != ids[j] {
      assert Compare(c[i], c[j]) <= 0;
    }
  }

  lemma IdsOfMembers(c: seq<Msg>)
    ensures forall m | m in c :: m.id in Map(c, IdOf())
  {
    forall m | m in c ensures m.id in Map(c, IdOf()) {
      var i :| 0 <= i < |c| && c[i] == m;
      assert Map(c, IdOf())[i] == m.id;
    }
  }

  /** The memory scan's choice is an answer to the SQL query over the same rows, given a limit. */
  lemma ScanAnswersQuery(rows: map<Id, Row>, q: Queue, now: Instant, count: nat)
    requires DistinctIds(q.messages) && TableOf(rows, q.messages) && count >= 1
    requires q.options.maxReceiveCount.Some?
    ensures IsAnswer(rows, now, q.options.maxReceiveCount, count, Map(Chosen(q, now, count), IdOf()))
  {
    var c := Chosen(q, now, count);
    var ids := Map(c, IdOf());
    ChosenFacts(q, now, count);
    RowsOfChosen(rows, q, c, now, ids);
    forall x | x in rows && Matches(rows[x], now, q.options.maxReceiveCount) && x !in ids
      ensures |ids| == count && forall i | 0 <= i < |ids| :: RowCompare(rows[ids[i]], rows[x]) <= 0
    {
      var m :| m in q.messages && m.id == x;
      IdsOfMembers(c);
      NotChosen(q, now, count, m);
    }
  }

  /** Position by position, the messages have the priority and order time of the answer's rows. */
  ghost predicate Agrees(d: seq<Msg>, rows: map<Id, Row>, answer: seq<Id>) {
    && |d| == |answer|
    && forall i | 0 <= i < |d| ::
         answer[i] in rows && d[i].priority == rows[answer[i]].priority && d[i].orderTime == rows[answer[i]].orderBy
  }

  /** On the same rows and with a limit set, the SQL receive query and the memory scan hand out
      the same number of messages with the same priorities and order times. */
  lemma ScanIsQuery(rows: map<Id, Row>, q: Queue, now: Instant, vis: Option<int>, count: nat, nid: Id, answer: seq<Id>)
    requires DistinctIds(q.messages) && TableOf(rows, q.messages) && count >= 1 && !q.paused
    requires q.options.maxReceiveCount.Some? && IsAnswer(rows, now, q.options.maxReceiveCount, count, answer)
    ensures Agrees(Scan(q, now, vis, count, nid).delivered, rows, answer)
  {
    var d := Scan(q, now, vis, count, nid).delivered;
    ScanTakesFirst(q, now, vis, count, nid);
    ChosenIsQuery(rows, q, now, count, answer);
    LeasedAgrees(Chosen(q, now, count), d, now + VisibilityTimeout(q, vis), now, nid, rows, answer);
  }

  lemma ChosenIsQuery(rows: map<Id, Row>, q: Queue, now: Instant, count: nat, answer: seq<Id>)
    requires DistinctIds(q.messages) && TableOf(rows, q.messages) && count >= 1
    requires q.options.maxReceiveCount.Some? && IsAnswer(rows, now, q.options.maxReceiveCount, count, answer)
    ensures Agrees(Chosen(q, now, count), rows, answer)
  {
    var c := Chosen(q, now, count);
    var ids := Map(c, IdOf());
    ScanAnswersQuery(rows, q, now, count);
    ChosenFacts(q, now, count);
    RowsOfChosen(rows, q, c, now, ids);
    AnswersTie(rows, now, q.options.maxReceiveCount, count, ids, answer);
  }

  lemma {:induction false} LeasedKeeps(ms: seq<Msg>, deadline: Instant, now: Instant, nid: Id)
    ensures forall i | 0 <= i < |ms| ::
              Leased(ms, deadline, now, nid)[i] == ms[i].MarkReceived(deadline, now, nid + i)
  {
    if ms != [] {
      LeasedKeeps(ms[1..], deadline, now, nid + 1);
    }
  }

  lemma LeasedAgrees(c: seq<Msg>, d: seq<Msg>, deadline: Instant, now: Instant, nid: Id, rows: map<Id, Row>,
          answer: seq<Id>)
    requires Agrees(c, rows, answer) && d == Leased(c, deadline, now, nid)
    ensures Agrees(d, rows, answer)
  {
    LeasedKeeps(c, deadline, now, nid);
  }

  /** Without a limit the two differ on exactly the available messages received a million times. */
  lemma QueryWithoutLimit(m: Msg, o: QueueOptions, now: Instant)
    ensures (CanReceive(o, m, now) <==> Matches(RowOf(m), now, o.maxReceiveCount))
       <==> o.maxReceiveCount.Some? || !m.Available(now) || m.receiveCount < 1000000
  {
  }

  // ---- counting messages and counting rows

  ghost predicate KeysOf(keys: set<Key>, queue: string, ms: seq<Msg>) {
    && (forall m | m in ms :: (m.id, queue) in keys)
    && (forall k | k in keys :: k.1 == queue && exists m | m in ms :: m.id == k.0)
  }

  lemma {:induction false} KeyCount(keys: set<Key>, queue: string, ms: seq<Msg>)
    requires DistinctIds(ms) && KeysOf(keys, queue, ms)
    ensures |keys| == |ms|
  {
    if ms == [] {
      assert keys == {};
    } else {
      DistinctTail(ms);
      assert ms == [ms[0]] + ms[1..];
      KeyCount(keys - {(ms[0].id, queue)}, queue, ms[1..]);
    }
  }

  lemma FilteredCount(t: Table, queue: string, ms: seq<Msg>, keys: set<Key>, p: Msg -> bool)
    requires DistinctIds(ms) && TableOf(RowsOf(t, queue), ms)
    requires forall k :: k in keys ==> k in t && k.1 == queue
    requires forall m | m in ms :: p(m) <==> (m.id, queue) in keys
    ensures |keys| == |Filter(ms, p)|
  {
    var f := Filter(ms, p);
    FilterMembers(ms, p);
    FilterDistinct(ms, p);
    forall k | k in keys ensures exists m | m in f :: m.id == k.0 {
      assert k.0 in RowsOf(t, queue);
      var m :| m in ms && m.id == k.0;
      assert m in f;
    }
    KeyCount(keys, queue, f);
  }

  /** On the same rows, none of them both held and delayed, the three SQL counts are the numbers the
      if-chain of the memory queue counts; without that condition only the last could differ. */
  lemma CountsAgree(t: Table, queue: string, ms: seq<Msg>, now: Instant)
    requires DistinctIds(ms) && TableOf(RowsOf(t, queue), ms)
    ensures |VisibleKeys(t, queue, now)| == |Filter(ms, IsAvailable(now))|
    ensures |DelayedKeys(t, queue, now)| == |Filter(ms, IsDelayed(now))|
    ensures |NotVisibleKeys(t, queue, now)| == |Filter(ms, IsNotVisible(now))|
                                              + |DelayedKeys(t, queue, now) * NotVisibleKeys(t, queue, now)|
  {
    var v, d, n := VisibleKeys(t, queue, now), DelayedKeys(t, queue, now), NotVisibleKeys(t, queue, now);
    forall m | m in ms
      ensures (m.Available(now) <==> (m.id, queue) in v) && (m.Delayed(now) <==> (m.id, queue) in d)
      ensures m.NotVisible(now) <==> (m.id, queue) in n - d
    {
      CountedAlike(t, queue, ms, m, now);
    }
    FilteredCount(t, queue, ms, v, IsAvailable(now));
    FilteredCount(t, queue, ms, d, IsDelayed(now));
    FilteredCount(t, queue, ms, n - d, IsNotVisible(now));
    assert n == (n - d) + d * n;
  }

  lemma CountedAlike(t: Table, queue: string, ms: seq<Msg>, m: Msg, now: Instant)
    requires TableOf(RowsOf(t, queue), ms) && m in ms
    ensures m.Available(now) <==> (m.id, queue) in VisibleKeys(t, queue, now)
    ensures m.Delayed(now) <==> (m.id, queue) in DelayedKeys(t, queue, now)
    ensures m.NotVisible(now) <==> (m.id, queue) in NotVisibleKeys(t, queue, now) - DelayedKeys(t, queue, now)
  {
    assert m.id in RowsOf(t, queue) && t[(m.id, queue)] == RowOf(m);
  }
}
