/** Per-priority first-in-first-out order over whole runs: on a queue that retries, gets no
    priority updates and nothing moved in, the messages of one priority stay in the order in
    which they arrived, and a scan takes the earliest deliverable ones. */
module Fifo {
  import opened Basics
  import opened Messages
  import opened Sorting
  import opened Queues
  import opened Stores
  import opened Invariants
  import opened Steps
  import opened PollPass
  import opened Scans

  /** What decides the place of a message in its queue. */
  datatype Ticket = Ticket(id: Id, priority: int, time: Instant)

  function TicketOf(): Msg -> Ticket { (m: Msg) => Ticket(m.id, m.priority, m.orderTime) }

  function OfPriority(p: int): Ticket -> bool { (t: Ticket) => t.priority == p }

  /** The messages of one priority in list order. */
  function Line(ms: seq<Msg>, p: int): seq<Ticket> {
    Filter(Map(ms, TicketOf()), OfPriority(p))
  }

  ghost predicate Chronological(ts: seq<Ticket>, now: Instant) {
    && (forall i | 0 <= i < |ts| :: ts[i].time <= now)
    && (forall i, j | 0 <= i < j < |ts| :: ts[i].time <= ts[j].time)
  }

  // ---- lines

  lemma MapConcat(a: seq<Msg>, b: seq<Msg>)
    ensures Map(a + b, TicketOf()) == Map(a, TicketOf()) + Map(b, TicketOf())
  {
  }

  lemma LineConcat(a: seq<Msg>, b: seq<Msg>, p: int)
    ensures Line(a + b, p) == Line(a, p) + Line(b, p)
  {
    MapConcat(a, b);
    FilterConcat(Map(a, TicketOf()), Map(b, TicketOf()), OfPriority(p));
  }

  lemma LineCons(m: Msg, ms: seq<Msg>, p: int)
    ensures Line([m] + ms, p) == (if m.priority == p then [TicketOf()(m)] else []) + Line(ms, p)
  {
    var ts := Map([m] + ms, TicketOf());
    assert ts[1..] == Map(ms, TicketOf());
  }

  lemma {:induction false} FilterKeepsSubsequence<T>(a: seq<T>, b: seq<T>, f: T -> bool)
    requires Subsequence(a, b)
    ensures Subsequence(Filter(a, f), Filter(b, f))
    decreases |b|
  {
    if a != [] {
      if a[0] == b[0] && Subsequence(a[1..], b[1..]) {
        FilterKeepsSubsequence(a[1..], b[1..], f);
      } else {
        FilterKeepsSubsequence(a, b[1..], f);
      }
    }
  }

  lemma {:induction false} ChronologicalPart(a: seq<Ticket>, b: seq<Ticket>, now: Instant)
    requires Subsequence(a, b) && Chronological(b, now)
    ensures Chronological(a, now)
    decreases |b|
  {
    if a != [] {
      if a[0] == b[0] && Subsequence(a[1..], b[1..]) {
        ChronologicalPart(a[1..], b[1..], now);
        SubsequenceMembers(a[1..], b[1..]);
        forall j | 0 < j < |a| ensures a[0].time <= a[j].time {
          assert a[j] == a[1..][j - 1] && a[1..][j - 1] in b[1..];
        }
      } else {
        ChronologicalPart(a, b[1..], now);
      }
    }
  }

  lemma {:induction false} LineIsFilter(ms: seq<Msg>, p: int)
    ensures Line(ms, p) == Map(Filter(ms, HasPriority(p)), TicketOf())
  {
    if ms != [] {
      assert Map(ms, TicketOf())[1..] == Map(ms[1..], TicketOf());
      LineIsFilter(ms[1..], p);
    }
  }

  /** Inserting before everything as early puts the message first of its priority. */
  lemma {:induction false} InsertFirst(m: Msg, s: seq<Msg>, p: int)
    requires m.priority == p ==> forall x | x in s && x.priority == p :: m.orderTime <= x.orderTime
    ensures Filter(Insert(m, s), HasPriority(p)) == Filter([m] + s, HasPriority(p))
  {
    assert ([m] + s)[1..] == s;
    if s != [] && Compare(m, s[0]) > 0 {
      assert s[0] in s && forall x | x in s[1..] :: x in s;
      InsertFirst(m, s[1..], p);
      assert Insert(m, s)[1..] == Insert(m, s[1..]);
      assert ([m] + s[1..])[1..] == s[1..];
    }
  }

  lemma LineTail(ms: seq<Msg>, p: int, now: Instant)
    requires ms != [] && Chronological(Line(ms, p), now)
    ensures Chronological(Line(ms[1..], p), now)
    ensures ms[0].priority == p ==> forall t | t in Line(ms[1..], p) :: ms[0].orderTime <= t.time
  {
    var line, rest := Line(ms, p), Line(ms[1..], p);
    assert ms == [ms[0]] + ms[1..];
    LineCons(ms[0], ms[1..], p);
    if ms[0].priority == p {
      assert line[0] == TicketOf()(ms[0]);
      assert forall i | 0 <= i < |rest| :: rest[i] == line[i + 1];
    } else {
      assert rest == line;
    }
  }

  lemma FirstIsEarliest(ms: seq<Msg>, p: int, now: Instant)
    requires ms != [] && Chronological(Line(ms, p), now) && ms[0].priority == p
    ensures forall x | x in ms[1..] && x.priority == p :: ms[0].orderTime <= x.orderTime
  {
    LineTail(ms, p, now);
    LineIsFilter(ms[1..], p);
    FilterMembers(ms[1..], HasPriority(p));
    var f := Filter(ms[1..], HasPriority(p));
    forall x | x in ms[1..] && x.priority == p ensures ms[0].orderTime <= x.orderTime {
      var j :| 0 <= j < |f| && f[j] == x;
      assert Line(ms[1..], p)[j] == TicketOf()(x);
    }
  }

  /** Sorting does not disturb the messages of one priority if they are in time order. */
  lemma {:induction false} SortPriority(ms: seq<Msg>, p: int, now: Instant)
    requires Chronological(Line(ms, p), now)
    ensures Filter(Sort(ms), HasPriority(p)) == Filter(ms, HasPriority(p))
  {
    if ms != [] {
      LineTail(ms, p, now);
      if ms[0].priority == p {
        FirstIsEarliest(ms, p, now);
      }
      SortPriority(ms[1..], p, now);
      SortMembers(ms[1..]);
      InsertFirst(ms[0], Sort(ms[1..]), p);
      assert ([ms[0]] + Sort(ms[1..]))[1..] == Sort(ms[1..]);
    }
  }

  lemma {:induction false} KeptTickets(o: QueueOptions, ms: seq<Msg>, now: Instant)
    requires o.Behavior() == Retry
    ensures Subsequence(Map(Kept(o, ms, now), TicketOf()), Map(ms, TicketOf()))
  {
    if ms != [] {
      KeptTickets(o, ms[1..], now);
      var a, b := Map(Kept(o, ms, now), TicketOf()), Map(ms, TicketOf());
      assert b[1..] == Map(ms[1..], TicketOf());
      if FateOf(o, ms[0], now).Stays? {
        assert a[1..] == Map(Kept(o, ms[1..], now), TicketOf());
        assert a[0] == b[0];
      }
    }
  }

  lemma {:induction false} PartTickets(a: seq<Msg>, b: seq<Msg>)
    requires Subsequence(a, b)
    ensures Subsequence(Map(a, TicketOf()), Map(b, TicketOf()))
    decreases |b|
  {
    var x, y := Map(a, TicketOf()), Map(b, TicketOf());
    if a != [] {
      assert y[1..] == Map(b[1..], TicketOf());
      if a[0] == b[0] && Subsequence(a[1..], b[1..]) {
        assert x[1..] == Map(a[1..], TicketOf());
        PartTickets(a[1..], b[1..]);
      } else {
        PartTickets(a, b[1..]);
      }
    }
  }

  // ---- what one operation does to one queue

  /** `b` keeps part of each line of `ms`, in order. */
  ghost predicate Thinned(ms: seq<Msg>, b: seq<Msg>) {
    && (forall p :: Subsequence(Line(b, p), Line(ms, p)))
    && (forall m | m in b :: HasSameId(ms, m.id))
  }

  ghost predicate HasSameId(ms: seq<Msg>, id: Id) {
    exists m | m in ms :: m.id == id
  }

  ghost predicate InTime(ms: seq<Msg>, now: Instant) {
    forall p :: Chronological(Line(ms, p), now)
  }

  /** The queue keeps `b` of its messages, and the messages `a` arrive behind them. */
  ghost predicate Forks(ms: seq<Msg>, ms': seq<Msg>, b: seq<Msg>, a: seq<Msg>, now: Instant) {
    && ms' == b + a && Thinned(ms, b)
    && forall m | m in a :: m.orderTime == now && !HasSameId(ms, m.id)
  }

  ghost predicate Advances(ms: seq<Msg>, ms': seq<Msg>, now: Instant) {
    exists b, a :: Forks(ms, ms', b, a, now)
  }

  lemma MovesNothingNew(ms: seq<Msg>, b: seq<Msg>, now: Instant)
    requires Thinned(ms, b)
    ensures Advances(ms, b, now)
  {
    assert b == b + [];
    assert Forks(ms, b, b, [], now);
  }

  lemma ThinnedPart(ms: seq<Msg>, b: seq<Msg>)
    requires Subsequence(Map(b, TicketOf()), Map(ms, TicketOf()))
    ensures Thinned(ms, b)
  {
    forall p ensures Subsequence(Line(b, p), Line(ms, p)) {
      FilterKeepsSubsequence(Map(b, TicketOf()), Map(ms, TicketOf()), OfPriority(p));
    }
    SubsequenceMembers(Map(b, TicketOf()), Map(ms, TicketOf()));
    forall m | m in b ensures HasSameId(ms, m.id) {
      var i :| 0 <= i < |b| && b[i] == m;
      assert Map(b, TicketOf())[i] in Map(ms, TicketOf());
      var j :| 0 <= j < |ms| && Map(ms, TicketOf())[j] == Map(b, TicketOf())[i];
      assert ms[j].id == m.id;
    }
  }

  lemma ThinnedSelf(ms: seq<Msg>)
    ensures Thinned(ms, ms)
  {
    SubsequenceRefl(Map(ms, TicketOf()));
    ThinnedPart(ms, ms);
  }

  lemma ThinnedFilter(ms: seq<Msg>, f: Msg -> bool)
    ensures Thinned(ms, Filter(ms, f))
  {
    FilterSubsequence(ms, f);
    PartTickets(Filter(ms, f), ms);
    ThinnedPart(ms, Filter(ms, f));
  }

  lemma ThinnedSort(ms: seq<Msg>, now: Instant)
    requires InTime(ms, now)
    ensures Thinned(ms, Sort(ms))
  {
    forall p ensures Subsequence(Line(Sort(ms), p), Line(ms, p)) {
      SortPriority(ms, p, now);
      LineIsFilter(ms, p);
      LineIsFilter(Sort(ms), p);
      SubsequenceRefl(Line(ms, p));
    }
    SortMembers(ms);
  }

  /** The same tickets in the same places. */
  lemma ThinnedSame(ms: seq<Msg>, b: seq<Msg>, c: seq<Msg>)
    requires Thinned(ms, b) && |c| == |b|
    requires forall i | 0 <= i < |b| :: TicketOf()(c[i]) == TicketOf()(b[i])
    ensures Thinned(ms, c)
  {
    assert Map(c, TicketOf()) == Map(b, TicketOf());
    forall m | m in c ensures HasSameId(ms, m.id) {
      var i :| 0 <= i < |c| && c[i] == m;
      assert b[i] in b && TicketOf()(c[i]) == TicketOf()(b[i]);
    }
  }

  lemma {:induction false} ScanTickets(o: QueueOptions, ms: seq<Msg>, now: Instant, deadline: Instant, room: int,
          nid: Id)
    ensures forall i | 0 <= i < |ms| ::
              TicketOf()(ScanList(o, ms, now, deadline, room, nid).messages[i]) == TicketOf()(ms[i])
  {
    if ms != [] {
      if !CanReceive(o, ms[0], now) {
        ScanTickets(o, ms[1..], now, deadline, room, nid);
      } else if room != 1 {
        ScanTickets(o, ms[1..], now, deadline, room - 1, nid + 1);
      }
    }
  }

  lemma ThinnedPass(o: QueueOptions, ms: seq<Msg>, now: Instant, deadline: Instant, room: int, nid: Id, r: seq<Msg>)
    requires InTime(ms, now) && r == ScanList(o, Sort(ms), now, deadline, room, nid).messages
    ensures Thinned(ms, r)
  {
    var sorted := Sort(ms);
    ThinnedSort(ms, now);
    ScanTickets(o, sorted, now, deadline, room, nid);
    ThinnedSame(ms, sorted, r);
  }

  lemma ThinnedScan(q: Queue, now: Instant, vis: Option<int>, room: int, nid: Id, r: seq<Msg>)
    requires InTime(q.messages, now) && r == Scan(q, now, vis, room, nid).queue.messages
    ensures Thinned(q.messages, r)
  {
    if q.paused {
      ThinnedSelf(q.messages);
    } else {
      ThinnedPass(q.options, q.messages, now, now + VisibilityTimeout(q, vis), room, nid, r);
    }
  }

  lemma ThinnedUpdate(ms: seq<Msg>, i: nat, m: Msg)
    requires i < |ms| && TicketOf()(m) == TicketOf()(ms[i])
    ensures Thinned(ms, ms[i := m])
  {
    ThinnedSelf(ms);
    ThinnedSame(ms, ms, ms[i := m]);
  }

  lemma {:induction false} DeletePart(ms: seq<Msg>, id: Id, handle: Option<Id>)
    ensures Subsequence(DeleteFrom(ms, id, handle).0, ms)
  {
    if ms != [] {
      DeletePart(ms[1..], id, handle);
    }
  }

  lemma ThinnedDelete(ms: seq<Msg>, id: Id, handle: Option<Id>)
    ensures Thinned(ms, DeleteFrom(ms, id, handle).0)
  {
    DeletePart(ms, id, handle);
    PartTickets(DeleteFrom(ms, id, handle).0, ms);
    ThinnedPart(ms, DeleteFrom(ms, id, handle).0);
  }

  lemma ThinnedKept(o: QueueOptions, ms: seq<Msg>, now: Instant)
    requires o.Behavior() == Retry
    ensures Thinned(ms, Kept(o, ms, now))
  {
    KeptTickets(o, ms, now);
    ThinnedPart(ms, Kept(o, ms, now));
  }

  // ---- sends, publishes and polls

  /** No queue is its own dead-letter queue. */
  ghost predicate NotOwnTarget(s: Store) {
    forall n | n in s.queues :: s.queues[n].options.deadLetterQueueName != Some(n)
  }

  /** The id is new, or that of a message another queue held. */
  ghost predicate Foreign(s0: Store, n: string, id: Id) {
    id >= s0.nextId || exists k, m :: k != n && In(s0, k, m) && m.id == id
  }

  ghost predicate Arrived(s0: Store, n: string, m: Msg, now: Instant) {
    m.expiresAt.None? && m.orderTime == now && Foreign(s0, n, m.id)
  }

  ghost predicate GrewBy(s0: Store, s: Store, n: string, polled: bool, a: seq<Msg>, now: Instant)
    requires n in s0.queues && n in s.queues
  {
    var q := s0.queues[n];
    && s.queues[n].messages == (if polled then Kept(q.options, q.messages, now) else q.messages) + a
    && forall m | m in a :: Arrived(s0, n, m, now)
  }

  ghost predicate Grew(s0: Store, s: Store, n: string, now: Instant)
    requires n in s0.queues && n in s.queues
  {
    exists polled, a :: GrewBy(s0, s, n, polled, a, now)
  }

  /** `s` was reached from `s0` by sends and polls at this instant. */
  ghost predicate AllGrew(s0: Store, s: Store, now: Instant) {
    SameFrame(s0, s) && s0.nextId <= s.nextId
    && forall n | n in s0.queues :: n in s.queues && Grew(s0, s, n, now)
  }

  lemma GrewSelf(s: Store, now: Instant)
    ensures AllGrew(s, s, now)
  {
    forall n | n in s.queues ensures Grew(s, s, n, now) {
      assert s.queues[n].messages == s.queues[n].messages + [];
      assert GrewBy(s, s, n, false, [], now);
    }
  }

  /** Only queue `n` changed. */
  lemma GrewAt(s0: Store, s: Store, s': Store, n: string, now: Instant)
    requires AllGrew(s0, s, now) && SameFrame(s, s') && s.nextId <= s'.nextId && n in s.queues
    requires forall k | k in s.queues && k != n :: s'.queues[k].messages == s.queues[k].messages
    requires n in s0.queues && Grew(s0, s', n, now)
    ensures AllGrew(s0, s', now)
  {
    forall k | k in s0.queues ensures k in s'.queues && Grew(s0, s', k, now) {
      assert k in s'.queues.Keys;
      if k != n {
        assert Grew(s0, s, k, now);
        var polled, a :| GrewBy(s0, s, k, polled, a, now);
        assert GrewBy(s0, s', k, polled, a, now);
      }
    }
  }

  lemma GrewSend(s0: Store, s: Store, n: string, id: Id, body: string, o: SendOptions, now: Instant)
    requires AllGrew(s0, s, now) && (n in s.queues ==> Foreign(s0, n, id))
    ensures AllGrew(s0, SendTo(s, n, id, body, o, now).store, now)
  {
    var r := SendTo(s, n, id, body, o, now);
    if r.error.None? {
      assert n in s0.queues.Keys && Grew(s0, s, n, now);
      var polled, a :| GrewBy(s0, s, n, polled, a, now);
      var m := SentMsg(s.queues[n], id, body, o, now);
      assert r.store.queues[n].messages == s.queues[n].messages + [m];
      assert GrewBy(s0, r.store, n, polled, a + [m], now);
      GrewAt(s0, s, r.store, n, now);
    }
  }

  lemma GrewFreshId(s0: Store, s: Store, now: Instant)
    requires AllGrew(s0, s, now)
    ensures AllGrew(s0, FreshId(s), now)
  {
    forall k | k in s0.queues ensures Grew(s0, FreshId(s), k, now) {
      assert Grew(s0, s, k, now);
      var polled, a :| GrewBy(s0, s, k, polled, a, now);
      assert GrewBy(s0, FreshId(s), k, polled, a, now);
    }
  }

  lemma {:induction false} GrewPublish(s0: Store, s: Store, subs: seq<Subscription>, body: string, o: SendOptions,
          now: Instant)
    requires AllGrew(s0, s, now)
    ensures AllGrew(s0, PublishEach(s, subs, body, o, now).store, now)
    decreases |subs|
  {
    if subs != [] {
      GrewFreshId(s0, s, now);
      GrewSend(s0, FreshId(s), subs[0].queueName, s.nextId, body, o, now);
      var r := SendTo(FreshId(s), subs[0].queueName, s.nextId, body, o, now);
      if r.error.None? {
        GrewPublish(s0, r.store, subs[1..], body, o, now);
      }
    }
  }

  lemma GrewForwardOne(s0: Store, s: Store, o: QueueOptions, m: Msg, now: Instant)
    requires AllGrew(s0, s, now)
    requires Named(o.deadLetterQueueName) ==> Foreign(s0, o.deadLetterQueueName.value, m.id)
    ensures AllGrew(s0, ForwardOne(s, o, m, now).store, now)
  {
    var s1 := s;
    if Named(o.deadLetterQueueName) {
      GrewSend(s0, s, o.deadLetterQueueName.value, m.id, m.body, DeadLetterOptions(m), now);
      s1 := SendTo(s, o.deadLetterQueueName.value, m.id, m.body, DeadLetterOptions(m), now).store;
    }
    if Named(o.deadLetterTopicName) && o.deadLetterTopicName.value in s1.topics {
      GrewPublish(s0, s1, s1.topics[o.deadLetterTopicName.value].subscriptions, m.body, DeadLetterOptions(m), now);
    }
  }

  lemma {:induction false} GrewForward(s0: Store, s: Store, o: QueueOptions, ms: seq<Msg>, now: Instant)
    requires AllGrew(s0, s, now)
    requires Named(o.deadLetterQueueName) ==> forall m | m in ms :: Foreign(s0, o.deadLetterQueueName.value, m.id)
    ensures AllGrew(s0, ForwardAll(s, o, ms, now).store, now)
    decreases |ms|
  {
    if ms != [] {
      assert ms[0] in ms && forall m | m in ms[1..] :: m in ms;
      GrewForwardOne(s0, s, o, ms[0], now);
      var r := ForwardOne(s, o, ms[0], now);
      if r.error.None? {
        GrewForward(s0, r.store, o, ms[1..], now);
      }
    }
  }

  /** A poll may drop what just arrived, but neither changes it nor takes it off as exhausted. */
  lemma {:induction false} PollArrived(s0: Store, n: string, o: QueueOptions, a: seq<Msg>, now: Instant)
    requires forall m | m in a :: Arrived(s0, n, m, now)
    ensures Exhausted(o, a, now) == [] && forall m | m in Kept(o, a, now) :: Arrived(s0, n, m, now)
  {
    if a != [] {
      assert a[0] in a && forall m | m in a[1..] :: m in a;
      PollArrived(s0, n, o, a[1..], now);
    }
  }

  lemma PollGrown(o: QueueOptions, ms: seq<Msg>, polled: bool, a: seq<Msg>, s0: Store, n: string, now: Instant)
    requires forall m | m in a :: Arrived(s0, n, m, now)
    ensures var b := if polled then Kept(o, ms, now) else ms;
            && Kept(o, b + a, now) == Kept(o, ms, now) + Kept(o, a, now)
            && Exhausted(o, b + a, now) == (if polled then [] else Exhausted(o, ms, now))
            && forall m | m in Kept(o, a, now) :: Arrived(s0, n, m, now)
  {
    var b := if polled then Kept(o, ms, now) else ms;
    PollConcat(o, b, a, now);
    PollArrived(s0, n, o, a, now);
    if polled {
      KeptCalm(o, ms, now);
      PollCalm(o, b, now);
    }
  }

  lemma GrewPoll(s0: Store, s: Store, n: string, now: Instant)
    requires IdsUnique(s0) && AllGrew(s0, s, now) && n in s.queues
    ensures AllGrew(s0, PutQueue(s, n, PollQueue(s.queues[n], now)), now)
    ensures forall e | e in Exhausted(s.queues[n].options, s.queues[n].messages, now) :: HeldBy(s0, n, e.id)
  {
    var o, s' := s.queues[n].options, PutQueue(s, n, PollQueue(s.queues[n], now));
    assert n in s0.queues.Keys && Grew(s0, s, n, now);
    var polled, a :| GrewBy(s0, s, n, polled, a, now);
    PollGrown(o, s0.queues[n].messages, polled, a, s0, n, now);
    assert GrewBy(s0, s', n, true, Kept(o, a, now), now);
    GrewAt(s0, s, s', n, now);
    ExhaustedHeld(s0, n, now);
  }

  lemma ExhaustedHeld(s0: Store, n: string, now: Instant)
    requires IdsUnique(s0) && n in s0.queues
    ensures forall e | e in Exhausted(s0.queues[n].options, s0.queues[n].messages, now) :: HeldBy(s0, n, e.id)
  {
    var o, ms := s0.queues[n].options, s0.queues[n].messages;
    ExhaustedOrigin(o, ms, now);
    forall e | e in Exhausted(o, ms, now) ensures HeldBy(s0, n, e.id) {
      assert HasFate(o, ms, now, Leaves(e));
      var m :| m in ms && FateOf(o, m, now) == Leaves(e);
      assert In(s0, n, m) && m.id == e.id;
    }
  }

  ghost predicate HeldBy(s0: Store, n: string, id: Id) {
    exists m :: In(s0, n, m) && m.id == id
  }

  lemma GrewDeadLetter(s0: Store, s: Store, o: QueueOptions, ms: seq<Msg>, now: Instant)
    requires AllGrew(s0, s, now)
    requires Named(o.deadLetterQueueName) ==> forall m | m in ms :: Foreign(s0, o.deadLetterQueueName.value, m.id)
    ensures AllGrew(s0, DeadLetter(s, o, ms, now).store, now)
  {
    GrewForward(s0, s, o, ms, now);
  }

  lemma HeldIsForeign(s0: Store, n: string, d: string, ms: seq<Msg>)
    requires d != n && forall m | m in ms :: HeldBy(s0, n, m.id)
    ensures forall m | m in Reverse(ms) :: Foreign(s0, d, m.id)
  {
    ReverseMembers(ms);
    forall m | m in Reverse(ms) ensures Foreign(s0, d, m.id) {
      assert HeldBy(s0, n, m.id);
      var x :| In(s0, n, x) && x.id == m.id;
    }
  }

  lemma GrewPollOne(s0: Store, s: Store, n: string, now: Instant)
    requires IdsUnique(s0) && NotOwnTarget(s0) && AllGrew(s0, s, now) && n in s.queues
    ensures AllGrew(s0, PollOne(s, n, now).store, now)
  {
    var o := s.queues[n].options;
    var ex := Exhausted(o, s.queues[n].messages, now);
    GrewPoll(s0, s, n, now);
    assert n in s0.queues.Keys && s0.queues[n].options == o;
    if Named(o.deadLetterQueueName) {
      HeldIsForeign(s0, n, o.deadLetterQueueName.value, ex);
    }
    GrewDeadLetter(s0, PutQueue(s, n, PollQueue(s.queues[n], now)), o, Reverse(ex), now);
  }

  lemma {:induction false} GrewPass(s0: Store, s: Store, order: seq<string>, now: Instant)
    requires IdsUnique(s0) && NotOwnTarget(s0) && AllGrew(s0, s, now)
    ensures AllGrew(s0, PollQueues(s, order, now).store, now)
    decreases |order|
  {
    if order != [] {
      if order[0] in s.queues {
        GrewPollOne(s0, s, order[0], now);
        var r := PollOne(s, order[0], now);
        if r.error.None? {
          GrewPass(s0, r.store, order[1..], now);
        }
      } else {
        GrewPass(s0, s, order[1..], now);
      }
    }
  }

  // ---- every operation

  /** The queue retries, and the operation neither moves into it nor sets a priority in it. */
  predicate Orderly(s: Store, op: Op, n: string) {
    && (n in s.queues ==> s.queues[n].options.Behavior() == Retry)
    && MovesInto(op) != Some(n)
    && !(op.Updates? && op.name == n && op.update.priority.Some?)
  }

  lemma GrewMoves(s: Store, s': Store, n: string, now: Instant)
    requires IdsUnique(s) && AllSound(s) && AllGrew(s, s', now) && n in s.queues
             && s.queues[n].options.Behavior() == Retry
    ensures Advances(s.queues[n].messages, MessagesOf(s', n), now)
  {
    var o, ms := s.queues[n].options, s.queues[n].messages;
    assert n in s'.queues && Grew(s, s', n, now);
    var polled, a :| GrewBy(s, s', n, polled, a, now);
    var b := if polled then Kept(o, ms, now) else ms;
    if polled {
      ThinnedKept(o, ms, now);
    } else {
      ThinnedSelf(ms);
    }
    forall m: Msg | m in a ensures m.orderTime == now && !HasSameId(ms, m.id) {
      ForeignIsNew(s, n, m, now);
    }
    assert Forks(ms, s'.queues[n].messages, b, a, now);
  }

  lemma ForeignIsNew(s: Store, n: string, m: Msg, now: Instant)
    requires IdsUnique(s) && AllSound(s) && Arrived(s, n, m, now) && n in s.queues
    ensures m.orderTime == now && !HasSameId(s.queues[n].messages, m.id)
  {
    forall x | x in s.queues[n].messages ensures x.id != m.id {
      assert In(s, n, x) && Sound(x, s.nextId);
    }
  }

  /** The queue is as it was, or gone. */
  lemma UntouchedMoves(s: Store, s': Store, n: string, now: Instant)
    requires MessagesOf(s', n) == MessagesOf(s, n) || MessagesOf(s', n) == []
    ensures Advances(MessagesOf(s, n), MessagesOf(s', n), now)
  {
    var ms := MessagesOf(s, n);
    ThinnedSelf(ms);
    ThinnedFilter(ms, (m: Msg) => false);
    FilterNone(ms, (m: Msg) => false);
    MovesNothingNew(ms, MessagesOf(s', n), now);
  }

  lemma SendingGrows(s: Store, op: Op, now: Instant)
    requires op.Sends? || op.Publishes?
    ensures AllGrew(s, Apply(s, op, now).store, now)
  {
    GrewSelf(s, now);
    GrewFreshId(s, s, now);
    if op.Sends? {
      GrewSend(s, FreshId(s), op.name, s.nextId, op.body, op.sendOptions, now);
    } else if op.topic in s.topics {
      GrewPublish(s, s, s.topics[op.topic].subscriptions, op.body, op.sendOptions, now);
    }
  }

  lemma PollingGrows(s: Store, op: Op, now: Instant)
    requires IdsUnique(s) && NotOwnTarget(s) && op.Polls?
    ensures AllGrew(RemoveExpired(s, now), Apply(s, op, now).store, now)
  {
    GrewSelf(RemoveExpired(s, now), now);
    assert forall k, m :: In(RemoveExpired(s, now), k, m) ==> In(s, k, m);
    GrewPass(RemoveExpired(s, now), RemoveExpired(s, now), op.order, now);
  }

  lemma PollingMoves(s: Store, op: Op, now: Instant, n: string)
    requires Inv(s) && NotOwnTarget(s) && n in s.queues && Orderly(s, op, n) && op.Polls?
    ensures Advances(MessagesOf(s, n), MessagesOf(Apply(s, op, now).store, n), now)
  {
    var s0 := RemoveExpired(s, now);
    var s' := Apply(s, op, now).store;
    assert forall k, m :: In(s0, k, m) ==> In(s, k, m);
    PollingGrows(s, op, now);
    if n in s0.queues {
      GrewMoves(s0, s', n, now);
    } else {
      assert n !in s'.queues.Keys;
      UntouchedMoves(s, s', n, now);
    }
  }

  lemma StaysAbsent(s: Store, op: Op, now: Instant, n: string)
    requires Inv(s) && NotOwnTarget(s) && n !in s.queues && !op.CreatesQueue?
    ensures n !in Apply(s, op, now).store.queues
  {
    if op.Sends? || op.Publishes? || op.Polls? {
      GrowingStaysAbsent(s, op, now, n);
    } else if op.Unsubscribes? {
      UnsubscribeQueues(s, op.subscription, op.order);
    }
  }

  lemma GrowingStaysAbsent(s: Store, op: Op, now: Instant, n: string)
    requires Inv(s) && NotOwnTarget(s) && n !in s.queues && (op.Sends? || op.Publishes? || op.Polls?)
    ensures n !in Apply(s, op, now).store.queues
  {
    assert n !in s.queues.Keys;
    if op.Polls? {
      PollingGrows(s, op, now);
    } else {
      SendingGrows(s, op, now);
    }
  }

  /** The operation replaced the queue by one with these messages. */
  lemma PutMoves(s: Store, s': Store, n: string, b: seq<Msg>, now: Instant)
    requires n in s.queues && Thinned(s.queues[n].messages, b)
    requires n in s'.queues && s'.queues[n].messages == b
    ensures Advances(MessagesOf(s, n), MessagesOf(s', n), now)
  {
    MovesNothingNew(s.queues[n].messages, b, now);
  }

  lemma ReplacedMoves(s: Store, s': Store, n: string, i: nat, m: Msg, now: Instant)
    requires n in s.queues && i < |s.queues[n].messages| && TicketOf()(m) == TicketOf()(s.queues[n].messages[i])
    requires n in s'.queues && s'.queues[n].messages == s.queues[n].messages[i := m]
    ensures Advances(MessagesOf(s, n), MessagesOf(s', n), now)
  {
    ThinnedUpdate(s.queues[n].messages, i, m);
    PutMoves(s, s', n, s.queues[n].messages[i := m], now);
  }

  lemma HandleMoves(s: Store, op: Op, now: Instant, n: string)
    requires n in s.queues && Orderly(s, op, n) && (op.Naks? || op.Extends? || op.Updates?)
    ensures Advances(MessagesOf(s, n), MessagesOf(Apply(s, op, now).store, n), now)
  {
    var ms, r := s.queues[n].messages, Apply(s, op, now);
    if r.error.Some? || op.name != n {
      UntouchedMoves(s, r.store, n, now);
    } else {
      match op
      case Naks(_, id, h, reason) =>
        var i := Find(ms, HasId(id)).value;
        ReplacedMoves(s, r.store, n, i, ms[i].Nak(now, reason), now);
      case Extends(_, h, t) =>
        var i := Find(ms, HasHandle(h)).value;
        ReplacedMoves(s, r.store, n, i, ms[i].(expiresAt := Some(now + t)), now);
      case Updates(_, id, h, u) =>
        var i := Find(ms, HasId(id)).value;
        ReplacedMoves(s, r.store, n, i, ms[i].Update(now, u), now);
    }
  }

  lemma ReceiveMoves(s: Store, op: Op, now: Instant, n: string)
    requires n in s.queues && InTime(s.queues[n].messages, now) && op.Receives? && op.name == n
    ensures Advances(MessagesOf(s, n), MessagesOf(Apply(s, op, now).store, n), now)
  {
    var s' := Apply(s, op, now).store;
    var r := Scan(s.queues[n], now, op.visibilityTimeoutMs, op.room, s.nextId).queue.messages;
    ThinnedScan(s.queues[n], now, op.visibilityTimeoutMs, op.room, s.nextId, r);
    assert s'.queues[n].messages == r;
    PutMoves(s, s', n, r, now);
  }

  lemma SortMoves(s: Store, op: Op, now: Instant, n: string)
    requires n in s.queues && InTime(s.queues[n].messages, now) && (op.Peeks? || op.Looks?) && op.name == n
    ensures Advances(MessagesOf(s, n), MessagesOf(Apply(s, op, now).store, n), now)
  {
    var s' := Apply(s, op, now).store;
    ThinnedSort(s.queues[n].messages, now);
    assert s'.queues[n].messages == Sort(s.queues[n].messages);
    PutMoves(s, s', n, Sort(s.queues[n].messages), now);
  }

  lemma RemovalMoves(s: Store, op: Op, now: Instant, n: string)
    requires n in s.queues && Orderly(s, op, n) && (op.Deletes? || op.DeletesByHandle? || op.Moves?) && op.name == n
    requires Apply(s, op, now).error != Some(QueueNotFound)
    ensures Advances(MessagesOf(s, n), MessagesOf(Apply(s, op, now).store, n), now)
  {
    var ms, s' := s.queues[n].messages, Apply(s, op, now).store;
    match op
    case Deletes(_, id, h) =>
      ThinnedDelete(ms, id, h);
      PutMoves(s, s', n, DeleteFrom(ms, id, h).0, now);
    case DeletesByHandle(_, h) =>
      ThinnedFilter(ms, Not(HasHandle(h)));
      PutMoves(s, s', n, Filter(ms, Not(HasHandle(h))), now);
    case Moves(_, target) =>
      ThinnedFilter(ms, Not(IsAvailable(now)));
      PutMoves(s, s', n, Filter(ms, Not(IsAvailable(now))), now);
  }

  lemma ElsewhereMoves(s: Store, op: Op, now: Instant, n: string)
    requires n in s.queues && MovesInto(op) != Some(n)
    requires op.Purges? || op.Receives? || op.Peeks? || op.Looks? || op.Deletes? || op.DeletesByHandle? || op.Moves?
    requires op.name != n || op.Purges? || Apply(s, op, now).error == Some(QueueNotFound)
    ensures Advances(MessagesOf(s, n), MessagesOf(Apply(s, op, now).store, n), now)
  {
    UntouchedMoves(s, Apply(s, op, now).store, n, now);
  }

  lemma ListMoves(s: Store, op: Op, now: Instant, n: string)
    requires n in s.queues && Orderly(s, op, n) && InTime(s.queues[n].messages, now)
    requires op.Purges? || op.Receives? || op.Peeks? || op.Looks? || op.Deletes? || op.DeletesByHandle? || op.Moves?
    ensures Advances(MessagesOf(s, n), MessagesOf(Apply(s, op, now).store, n), now)
  {
    if op.name != n || op.Purges? || Apply(s, op, now).error == Some(QueueNotFound) {
      ElsewhereMoves(s, op, now, n);
    } else if op.Receives? {
      ReceiveMoves(s, op, now, n);
    } else if op.Peeks? || op.Looks? {
      SortMoves(s, op, now, n);
    } else {
      RemovalMoves(s, op, now, n);
    }
  }

  lemma TopicMoves(s: Store, op: Op, now: Instant, n: string)
    requires op.CreatesTopic? || op.DeletesTopic? || op.Subscribes? || op.Unsubscribes? || op.TimePasses? || op.Pauses?
          || op.Resumes? || op.CreatesQueue? || op.DeletesQueue?
    ensures Advances(MessagesOf(s, n), MessagesOf(Apply(s, op, now).store, n), now)
  {
    if op.Unsubscribes? {
      UnsubscribeQueues(s, op.subscription, op.order);
    }
    UntouchedMoves(s, Apply(s, op, now).store, n, now);
  }

  lemma OpMoves(s: Store, op: Op, now: Instant, n: string)
    requires Inv(s) && NotOwnTarget(s) && Orderly(s, op, n) && InTime(MessagesOf(s, n), now)
    ensures Advances(MessagesOf(s, n), MessagesOf(Apply(s, op, now).store, n), now)
  {
    if op.CreatesTopic? || op.DeletesTopic? || op.Subscribes? || op.Unsubscribes? || op.TimePasses? || op.Pauses?
          || op.Resumes? || op.CreatesQueue? || op.DeletesQueue? {
      TopicMoves(s, op, now, n);
    } else if n in s.queues {
      if op.Sends? || op.Publishes? {
        SendingGrows(s, op, now);
        GrewMoves(s, Apply(s, op, now).store, n, now);
      } else if op.Polls? {
        PollingMoves(s, op, now, n);
      } else if op.Naks? || op.Extends? || op.Updates? {
        HandleMoves(s, op, now, n);
      } else {
        ListMoves(s, op, now, n);
      }
    } else {
      StaysAbsent(s, op, now, n);
      UntouchedMoves(s, Apply(s, op, now).store, n, now);
    }
  }

  ghost predicate SameOptionsAs(s: Store, s': Store) {
    forall n | n in s'.queues :: n in s.queues && s'.queues[n].options == s.queues[n].options
  }

  lemma HandleOpsKeepOptions(s: Store, op: Op, now: Instant)
    requires op.Naks? || op.Extends? || op.Updates?
    ensures SameOptionsAs(s, Apply(s, op, now).store)
  {
  }

  lemma QueueOpsKeepOptions(s: Store, op: Op, now: Instant)
    requires op.Receives? || op.Peeks? || op.Looks? || op.Deletes? || op.DeletesByHandle?
    ensures SameOptionsAs(s, Apply(s, op, now).store)
  {
  }

  lemma OtherOpsKeepOptions(s: Store, op: Op, now: Instant)
    requires op.CreatesTopic? || op.DeletesTopic? || op.Subscribes? || op.Unsubscribes? || op.TimePasses? || op.Pauses?
          || op.Resumes? || op.Purges? || op.DeletesQueue? || op.Moves?
    ensures SameOptionsAs(s, Apply(s, op, now).store)
  {
    if op.Unsubscribes? {
      UnsubscribeQueues(s, op.subscription, op.order);
    }
  }

  lemma NotOwnTargetStep(s: Store, op: Op, now: Instant)
    requires Inv(s) && NotOwnTarget(s)
    ensures NotOwnTarget(Apply(s, op, now).store)
  {
    if op.Sends? || op.Publishes? {
      SendingGrows(s, op, now);
    } else if op.Polls? {
      PollingGrows(s, op, now);
    } else if op.Naks? || op.Extends? || op.Updates? {
      HandleOpsKeepOptions(s, op, now);
    } else if op.Receives? || op.Peeks? || op.Looks? || op.Deletes? || op.DeletesByHandle? {
      QueueOpsKeepOptions(s, op, now);
    } else if !op.CreatesQueue? {
      OtherOpsKeepOptions(s, op, now);
    }
  }

  lemma {:induction false} NotOwnTargetAfter(ws: seq<World>, ops: seq<Op>, j: nat)
    requires IsRun(ws, ops) && j <= |ops|
    ensures NotOwnTarget(ws[j].store)
  {
    if j > 0 {
      NotOwnTargetAfter(ws, ops, j - 1);
      InvAfter(ws, ops, j - 1);
      assert StepAt(ws, ops, j - 1);
      NotOwnTargetStep(ws[j - 1].store, ops[j - 1], ws[j - 1].now);
    }
  }

  // ---- the log of arrivals

  function IsNewTo(ms: seq<Msg>): Msg -> bool {
    (m: Msg) => forall x | x in ms :: x.id != m.id
  }

  /** The tickets of the messages that were not in the queue before, in list order. */
  function NewTickets(ms: seq<Msg>, ms': seq<Msg>): seq<Ticket> {
    Map(Filter(ms', IsNewTo(ms)), TicketOf())
  }

  /** Everything that ever arrived in queue `n` during the first `j` operations, in order. */
  function Log(ws: seq<World>, n: string, j: nat): seq<Ticket>
    requires j < |ws|
  {
    if j == 0 then []
    else Log(ws, n, j - 1) + NewTickets(MessagesOf(ws[j - 1].store, n), MessagesOf(ws[j].store, n))
  }

  ghost predicate InOrder(ms: seq<Msg>, log: seq<Ticket>) {
    forall p :: Subsequence(Line(ms, p), Filter(log, OfPriority(p)))
  }

  lemma ForkTickets(ms: seq<Msg>, ms': seq<Msg>, b: seq<Msg>, a: seq<Msg>, now: Instant)
    requires Forks(ms, ms', b, a, now)
    ensures NewTickets(ms, ms') == Map(a, TicketOf())
  {
    FilterConcat(b, a, IsNewTo(ms));
    forall m | m in b ensures !IsNewTo(ms)(m) {
      assert HasSameId(ms, m.id);
    }
    FilterNone(b, IsNewTo(ms));
    FilterAll(a, IsNewTo(ms));
  }

  lemma ChronologicalAppend(log: seq<Ticket>, more: seq<Ticket>, now: Instant)
    requires Chronological(log, now) && forall t | t in more :: t.time == now
    ensures Chronological(log + more, now)
  {
    var ts := log + more;
    forall i | 0 <= i < |ts| ensures ts[i].time <= now && (i >= |log| ==> ts[i].time == now) {
      if i >= |log| {
        assert ts[i] in more;
      }
    }
  }

  lemma LogStep(ms: seq<Msg>, ms': seq<Msg>, log: seq<Ticket>, now: Instant)
    requires InOrder(ms, log) && Chronological(log, now) && Advances(ms, ms', now)
    ensures InOrder(ms', log + NewTickets(ms, ms')) && Chronological(log + NewTickets(ms, ms'), now)
  {
    var b, a :| Forks(ms, ms', b, a, now);
    var more := Map(a, TicketOf());
    ForkTickets(ms, ms', b, a, now);
    forall t | t in more ensures t.time == now {
      var i :| 0 <= i < |more| && more[i] == t;
      assert a[i] in a;
    }
    ChronologicalAppend(log, more, now);
    forall p ensures Subsequence(Line(ms', p), Filter(log + more, OfPriority(p))) {
      LineConcat(b, a, p);
      FilterConcat(log, more, OfPriority(p));
      SubsequenceTrans(Line(b, p), Line(ms, p), Filter(log, OfPriority(p)));
      SubsequenceRefl(Line(a, p));
      SubsequenceConcat(Line(b, p), Filter(log, OfPriority(p)), Line(a, p), Line(a, p));
    }
  }

  lemma OrderedInTime(ms: seq<Msg>, log: seq<Ticket>, now: Instant)
    requires InOrder(ms, log) && Chronological(log, now)
    ensures InTime(ms, now)
  {
    forall p ensures Chronological(Line(ms, p), now) {
      FilterSubsequence(log, OfPriority(p));
      SubsequenceTrans(Line(ms, p), Filter(log, OfPriority(p)), log);
      ChronologicalPart(Line(ms, p), log, now);
    }
  }

  lemma FifoStep(s: Store, op: Op, now: Instant, n: string, log: seq<Ticket>)
    requires Inv(s) && NotOwnTarget(s) && Orderly(s, op, n)
    requires InOrder(MessagesOf(s, n), log) && Chronological(log, now)
    ensures var ms' := MessagesOf(Apply(s, op, now).store, n);
            var log' := log + NewTickets(MessagesOf(s, n), ms');
            InOrder(ms', log') && Chronological(log', now)
  {
    OrderedInTime(MessagesOf(s, n), log, now);
    OpMoves(s, op, now, n);
    LogStep(MessagesOf(s, n), MessagesOf(Apply(s, op, now).store, n), log, now);
  }

  /** The messages of each priority are in the order in which they arrived, which is by time. */
  ghost predicate FifoAt(ws: seq<World>, n: string, j: nat)
    requires j < |ws|
  {
    InOrder(MessagesOf(ws[j].store, n), Log(ws, n, j)) && Chronological(Log(ws, n, j), ws[j].now)
  }

  predicate OrderlyAt(ws: seq<World>, ops: seq<Op>, n: string, k: nat)
    requires k < |ws| && k < |ops|
  {
    Orderly(ws[k].store, ops[k], n)
  }

  lemma FifoAtStart(ws: seq<World>, ops: seq<Op>, n: string)
    requires IsRun(ws, ops)
    ensures FifoAt(ws, n, 0)
  {
    assert MessagesOf(ws[0].store, n) == [];
  }

  lemma FifoAtNext(ws: seq<World>, ops: seq<Op>, j: nat, n: string)
    requires IsRun(ws, ops) && j < |ops| && OrderlyAt(ws, ops, n, j) && FifoAt(ws, n, j)
    ensures FifoAt(ws, n, j + 1)
  {
    InvAfter(ws, ops, j);
    NotOwnTargetAfter(ws, ops, j);
    assert StepAt(ws, ops, j);
    FifoStep(ws[j].store, ops[j], ws[j].now, n, Log(ws, n, j));
    StillChronological(Log(ws, n, j + 1), ws[j].now, ws[j + 1].now);
  }

  /** In every run that leaves the queue orderly, at any moment the messages of each priority are
      in the order in which they arrived, whatever sorts, receives, deletes and polls came between. */
  lemma {:induction false} FifoRun(ws: seq<World>, ops: seq<Op>, j: nat, n: string)
    requires IsRun(ws, ops) && j <= |ops|
    requires forall k | 0 <= k < j :: OrderlyAt(ws, ops, n, k)
    ensures FifoAt(ws, n, j)
  {
    hide FifoAt;
    if j == 0 {
      FifoAtStart(ws, ops, n);
    } else {
      FifoRun(ws, ops, j - 1, n);
      FifoAtNext(ws, ops, j - 1, n);
    }
  }

  lemma StillChronological(ts: seq<Ticket>, now: Instant, later: Instant)
    requires Chronological(ts, now) && now <= later
    ensures Chronological(ts, later)
  {
  }

  // ---- a scan takes the earliest

  lemma {:induction false} FiltersCommute<T>(s: seq<T>, f: T -> bool, g: T -> bool)
    ensures Filter(Filter(s, f), g) == Filter(Filter(s, g), f)
  {
    if s != [] {
      FiltersCommute(s[1..], f, g);
    }
  }

  lemma FilterPrefix<T>(a: seq<T>, b: seq<T>, f: T -> bool)
    requires a <= b
    ensures Filter(a, f) <= Filter(b, f)
  {
    assert b == a + b[|a|..];
    FilterConcat(a, b[|a|..], f);
  }

  /** Among the messages of one priority a scan takes the deliverable ones that arrived first. */
  lemma ScanTakesEarliest(q: Queue, now: Instant, room: int, p: int)
    requires InTime(q.messages, now)
    ensures Filter(Chosen(q, now, room), HasPriority(p))
         <= Filter(Filter(q.messages, HasPriority(p)), Receivable(q.options, now))
  {
    var sorted, r, has := Sort(q.messages), Receivable(q.options, now), HasPriority(p);
    FilterPrefix(Chosen(q, now, room), Filter(sorted, r), has);
    FiltersCommute(sorted, r, has);
    SortPriority(q.messages, p, now);
  }

  /** In every state of every run that leaves the queue orderly, a scan takes of each priority the
      deliverable messages that arrived first, and they are handed out in the order they arrived. */
  lemma RunTakesEarliest(ws: seq<World>, ops: seq<Op>, j: nat, n: string, room: int, p: int)
    requires IsRun(ws, ops) && j <= |ops| && n in ws[j].store.queues
    requires forall k | 0 <= k < j :: OrderlyAt(ws, ops, n, k)
    ensures var q, now := ws[j].store.queues[n], ws[j].now;
            && Filter(Chosen(q, now, room), HasPriority(p))
               <= Filter(Filter(q.messages, HasPriority(p)), Receivable(q.options, now))
            && Subsequence(Line(q.messages, p), Filter(Log(ws, n, j), OfPriority(p)))
  {
    FifoRun(ws, ops, j, n);
    OrderedInTime(MessagesOf(ws[j].store, n), Log(ws, n, j), ws[j].now);
    ScanTakesEarliest(ws[j].store.queues[n], ws[j].now, room, p);
  }
}
