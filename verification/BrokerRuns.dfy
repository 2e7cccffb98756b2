/** Runs of the in-memory broker in which something a user may rely on does not hold, each from an
    empty store (packages/store-memory/src/MemoryStore.ts and MemoryQueue.ts). */
module BrokerRuns {
  import opened Basics
  import opened Messages
  import opened Sorting
  import opened Queues
  import opened Stores
  import opened Limits

  // ---- runs by their operations

  function AfterAll(w: World, ops: seq<Op>): World {
    if ops == [] then w else Step(AfterAll(w, ops[..|ops| - 1]), ops[|ops| - 1])
  }

  lemma {:induction false} RunOf(w: World, ops: seq<Op>) returns (ws: seq<World>)
    requires w.store == EmptyStore
    ensures IsRun(ws, ops) && ws[|ops|] == AfterAll(w, ops)
  {
    if ops == [] {
      ws := [w];
    } else {
      var n := |ops| - 1;
      var before := RunOf(w, ops[..n]);
      ws := before + [Step(before[n], ops[n])];
      forall i | 0 <= i < |ops| ensures StepAt(ws, ops, i) {
        assert i < n ==> StepAt(before, ops[..n], i);
      }
    }
  }

  lemma AfterThen(w: World, ops: seq<Op>, op: Op)
    ensures AfterAll(w, ops + [op]) == Step(AfterAll(w, ops), op)
  {
    assert (ops + [op])[..|ops|] == ops;
  }

  const NoOptions := QueueOptions(None, None, None, None, None, None, None, None, None, None, None)

  const Plain := SendOptions(None, None, None, None, None)

  predicate IsName(n: string) { n != "" && Trim(n) == n }

  // ---- a message that is moved to where it is stuck

  const LimitOne := NoOptions.(maxReceiveCount := Some(1))

  /** Two queues without topics, the second with limit one. */
  function Pair(a: string, inA: seq<Msg>, b: string, inB: seq<Msg>, nid: Id): Store {
    Store(map[a := NewQueue(a, NoOptions, 0).(messages := inA), b := NewQueue(b, LimitOne, 0).(messages := inB)],
          map[], nid)
  }

  function SentAs(body: string): Msg { NewMsg(0, body, map[], 0, 0, None, None, None, None) }

  lemma CreatesPair(a: string, b: string)
    requires IsName(a) && IsName(b) && a != b
    ensures var s := CreateQueue(EmptyStore, a, NoOptions, false, 0).store;
            CreateQueue(s, b, LimitOne, false, 0).store == Pair(a, [], b, [], 0)
  {
  }

  lemma SendsOne(a: string, b: string, body: string)
    requires a != b
    ensures SendMessage(Pair(a, [], b, [], 0), a, body, Plain, 0).store == Pair(a, [SentAs(body)], b, [], 1)
  {
    var s := Pair(a, [], b, [], 0);
    assert SentMsg(s.queues[a], 0, body, Plain, 0) == SentAs(body);
    assert [] + [SentAs(body)] == [SentAs(body)];
    assert SendMessage(s, a, body, Plain, 0).store.queues == Pair(a, [SentAs(body)], b, [], 1).queues;
  }

  lemma ReceivesOne(a: string, b: string, m: Msg)
    requires a != b && m == SentAs(m.body)
    ensures Receive(Pair(a, [m], b, [], 1), a, Some(0), 1, 0).store == Pair(a, [m.MarkReceived(0, 0, 1)], b, [], 2)
  {
    var s, d := Pair(a, [m], b, [], 1), m.MarkReceived(0, 0, 1);
    assert [m][1..] == [] && [d] + [] == [d];
    assert Sort([m]) == [m];
    assert ScanList(NoOptions, [m], 0, 0, 1, 1) == Pass([d], [d]);
    assert Scan(s.queues[a], 0, Some(0), 1, 1) == Receipt(s.queues[a].(messages := [d]), [d]);
    assert Receive(s, a, Some(0), 1, 0).store.queues == Pair(a, [d], b, [], 2).queues;
  }

  /** The poll that ends its lease; it does not count as exhausted where there is no limit. */
  lemma PollsOne(a: string, b: string, m: Msg)
    requires a != b && m.expiresAt == Some(0) && m.retainUntil.None?
    ensures Poll(Pair(a, [m], b, [], 2), [a, b], 1).store == Pair(a, [m.(expiresAt := None)], b, [], 2)
  {
    var s, c := Pair(a, [m], b, [], 2), m.(expiresAt := None);
    var s1 := Pair(a, [c], b, [], 2);
    assert RemoveExpired(s, 1).queues == s.queues;
    assert [m][1..] == [] && [c] + [] == [c];
    assert Kept(NoOptions, [m], 1) == [c];
    assert PollOne(s, a, 1) == Done(s1) by {
      assert PutQueue(s, a, PollQueue(s.queues[a], 1)).queues == s1.queues;
    }
    assert PollOne(s1, b, 1) == Done(s1) by {
      assert PutQueue(s1, b, PollQueue(s1.queues[b], 1)).queues == s1.queues;
    }
    assert [a, b][1..] == [b] && [b][1..] == [];
    assert PollQueues(s1, [b], 1) == PollQueues(s1, [], 1);
  }

  lemma MovesOne(a: string, b: string, m: Msg, nid: Id, now: Instant)
    requires a != b && m.Available(now) && m.retainUntil.None?
    ensures Move(Pair(a, [m], b, [], nid), a, b, now).store == Pair(a, [], b, [m], nid)
  {
    assert [m][1..] == [];
    assert Filter([m], IsAvailable(now)) == [m];
    assert Reverse([m]) == [m];
    assert Map([m], Retained(None)) == [m];
    assert Remaining([m], now) == [];
    assert Movers([m], None, now) == [m] && [] + [m] == [m];
    assert Move(Pair(a, [m], b, [], nid), a, b, now).store.queues == Pair(a, [], b, [m], nid).queues;
  }

  function BeforeSent(a: string, b: string): seq<Op> {
    [] + [CreatesQueue(a, NoOptions, false)] + [CreatesQueue(b, LimitOne, false)]
  }

  function BeforeStuck(a: string, b: string, body: string): seq<Op> {
    BeforeSent(a, b) + [Sends(a, body, Plain)] + [Receives(a, Some(0), 1)] + [TimePasses(1)]
  }

  function StuckOps(a: string, b: string, body: string): seq<Op> {
    BeforeStuck(a, b, body) + [Polls([a, b])] + [Moves(a, b)]
  }

  lemma PairCreated(a: string, b: string)
    requires IsName(a) && IsName(b) && a != b
    ensures AfterAll(World(EmptyStore, 0), BeforeSent(a, b)) == World(Pair(a, [], b, [], 0), 0)
  {
    AfterThen(World(EmptyStore, 0), [], CreatesQueue(a, NoOptions, false));
    AfterThen(World(EmptyStore, 0), [] + [CreatesQueue(a, NoOptions, false)], CreatesQueue(b, LimitOne, false));
    CreatesPair(a, b);
  }

  lemma StuckBefore(a: string, b: string, body: string)
    requires IsName(a) && IsName(b) && a != b
    ensures AfterAll(World(EmptyStore, 0), BeforeStuck(a, b, body))
         == World(Pair(a, [SentAs(body).MarkReceived(0, 0, 1)], b, [], 2), 1)
  {
    var w, ops := World(EmptyStore, 0), BeforeSent(a, b);
    PairCreated(a, b);
    AfterThen(w, ops, Sends(a, body, Plain));
    SendsOne(a, b, body);
    AfterThen(w, ops + [Sends(a, body, Plain)], Receives(a, Some(0), 1));
    ReceivesOne(a, b, SentAs(body));
    AfterThen(w, ops + [Sends(a, body, Plain)] + [Receives(a, Some(0), 1)], TimePasses(1));
  }

  function Returned(body: string): Msg { SentAs(body).MarkReceived(0, 0, 1).(expiresAt := None) }

  lemma StuckAfter(a: string, b: string, body: string)
    requires IsName(a) && IsName(b) && a != b
    ensures AfterAll(World(EmptyStore, 0), StuckOps(a, b, body)) == World(Pair(a, [], b, [Returned(body)], 2), 1)
  {
    var w, ops := World(EmptyStore, 0), BeforeStuck(a, b, body);
    StuckBefore(a, b, body);
    AfterThen(w, ops, Polls([a, b]));
    PollsOne(a, b, SentAs(body).MarkReceived(0, 0, 1));
    AfterThen(w, ops + [Polls([a, b])], Moves(a, b));
    MovesOne(a, b, Returned(body), 2, 1);
  }

  /** A message received once and returned by a poll is moved into a queue with limit one: there it is
      never received, and never taken off as exhausted. */
  lemma MoveGetsStuck(a: string, b: string, body: string) returns (ws: seq<World>)
    requires IsName(a) && IsName(b) && a != b
    ensures var n := |StuckOps(a, b, body)|;
            && IsRun(ws, StuckOps(a, b, body)) && ws[n].store == Pair(a, [], b, [Returned(body)], 2)
    ensures Stuck(LimitOne, Returned(body))
  {
    ws := RunOf(World(EmptyStore, 0), StuckOps(a, b, body));
    StuckAfter(a, b, body);
    StuckExactly(LimitOne, Returned(body), 1);
  }

  // ---- a dead-letter queue that expires

  function Expiring(ms: int): QueueOptions { NoOptions.(expiresMs := Some(ms)) }

  function DeadLettersTo(d: string): QueueOptions { NoOptions.(deadLetterQueueName := Some(d)) }

  /** A queue without messages whose dead-letter queue is gone: no pass over it succeeds. */
  lemma {:induction false} PassFails(s: Store, q: string, d: string, order: seq<string>, now: Instant)
    requires s.queues.Keys == {q} && d != "" && d != q && s.queues[q].messages == []
    requires s.queues[q].options.deadLetterQueueName == Some(d) && q in order
    ensures PollQueues(s, order, now).error == Some(QueueNotFound)
    decreases |order|
  {
    if order[0] != q {
      assert order == [order[0]] + order[1..];
      PassFails(s, q, d, order[1..], now);
    }
  }

  function BothOps(q: string, d: string, ms: int): seq<Op> {
    [] + [CreatesQueue(d, Expiring(ms), false)] + [CreatesQueue(q, DeadLettersTo(d), false)]
  }

  function ExpiryOps(q: string, d: string, ms: int, later: nat): seq<Op> {
    BothOps(q, d, ms) + [TimePasses(later)]
  }

  function Both(q: string, d: string, ms: int): Store {
    Store(map[d := NewQueue(d, Expiring(ms), 0), q := NewQueue(q, DeadLettersTo(d), 0)], map[], 0)
  }

  lemma CreatesBoth(q: string, d: string, ms: int)
    requires IsName(q) && IsName(d) && q != d
    ensures var s := CreateQueue(EmptyStore, d, Expiring(ms), false, 0).store;
            CreateQueue(s, q, DeadLettersTo(d), false, 0).store == Both(q, d, ms)
  {
  }

  lemma BothCreated(q: string, d: string, ms: int)
    requires IsName(q) && IsName(d) && q != d
    ensures AfterAll(World(EmptyStore, 0), BothOps(q, d, ms)) == World(Both(q, d, ms), 0)
  {
    AfterThen(World(EmptyStore, 0), [], CreatesQueue(d, Expiring(ms), false));
    var first := [] + [CreatesQueue(d, Expiring(ms), false)];
    AfterThen(World(EmptyStore, 0), first, CreatesQueue(q, DeadLettersTo(d), false));
    CreatesBoth(q, d, ms);
  }

  lemma BothExpired(q: string, d: string, ms: int, later: nat)
    requires IsName(q) && IsName(d) && q != d
    ensures AfterAll(World(EmptyStore, 0), ExpiryOps(q, d, ms, later)) == World(Both(q, d, ms), later)
  {
    AfterThen(World(EmptyStore, 0), BothOps(q, d, ms), TimePasses(later));
    BothCreated(q, d, ms);
  }

  lemma BothPollFails(q: string, d: string, ms: int, order: seq<string>, now: Instant)
    requires IsName(d) && q != d && now > ms && q in order
    ensures Poll(Both(q, d, ms), order, now).error == Some(QueueNotFound)
  {
    var s := RemoveExpired(Both(q, d, ms), now);
    assert s.queues.Keys == {q};
    PassFails(s, q, d, order, now);
  }

  /** Two queues that were never sent anything, one the dead-letter queue of the other: once the former
      has expired a poll pass fails, whatever the order of the queues. */
  lemma ExpiredTargetFails(q: string, d: string, ms: int, later: nat, order: seq<string>) returns (ws: seq<World>)
    requires IsName(q) && IsName(d) && q != d && later > ms && q in order
    ensures IsRun(ws, ExpiryOps(q, d, ms, later)) && ws[|ws| - 1] == World(Both(q, d, ms), later)
    ensures Apply(Both(q, d, ms), Polls(order), later).error == Some(QueueNotFound)
  {
    ws := RunOf(World(EmptyStore, 0), ExpiryOps(q, d, ms, later));
    BothExpired(q, d, ms, later);
    BothPollFails(q, d, ms, order, later);
  }
}
