/** Every operation keeps the store invariant, and changes each message only in the ways
    `Evolved` lists: the step from the queue operations to the whole broker. */
module Steps {
  import opened Basics
  import opened Messages
  import opened Sorting
  import opened Queues
  import opened Stores
  import opened Invariants

  // ---- sending and polling, with exhausted messages in flight between two queues

  /** Changes that sends and polls make: none, or the end of a lease that ran out. */
  ghost predicate Lasts(m: Msg, m': Msg, now: Instant) {
    m'.id == m.id && m'.body == m.body && (SameLease(m, m') || LeaseEnded(m, m', now))
  }

  ghost predicate LastsFrom(s0: Store, n: string, m: Msg, n': string, m': Msg, now: Instant) {
    && In(s0, n, m) && Lasts(m, m', now)
    && ((n == n' && LivesOn(s0.queues[n].options, m, m')) || Reborn(m, m', now))
  }

  /** `Lives` without a delivery. */
  ghost predicate LivesOn(o: QueueOptions, m: Msg, m': Msg) {
    m'.receiveCount == m.receiveCount && Lives(o, m, m')
  }

  ghost predicate Remains(s0: Store, n': string, m': Msg, now: Instant, dd: Option<string>) {
    (Brandnew(m', s0.nextId) && m'.deduplicationId == dd) || exists n, m :: LastsFrom(s0, n, m, n', m', now)
  }

  /** An exhausted message on its way: its lease ran out in the old state. */
  ghost predicate Flies(s0: Store, e: Msg, now: Instant) {
    exists n, m :: In(s0, n, m) && m.id == e.id && m.body == e.body && m.LeaseOver(now)
  }

  /** `s` was reached from `s0` by sends and polls only, with the messages of `flying` on their way. */
  ghost predicate Reached(s0: Store, s: Store, flying: seq<Msg>, now: Instant, dd: Option<string>) {
    && Inv(s) && s0.nextId <= s.nextId
    && (forall n | n in s.queues :: n in s0.queues && s.queues[n].options == s0.queues[n].options)
    && (forall n, m :: In(s, n, m) ==> Remains(s0, n, m, now, dd))
    && DistinctIds(flying)
    && (forall e | e in flying :: Flies(s0, e, now) && e.id < s.nextId)
    && (forall n, m, e :: In(s, n, m) && e in flying ==> m.id != e.id)
  }

  lemma ReachedSelf(s: Store, now: Instant, dd: Option<string>)
    requires Inv(s)
    ensures Reached(s, s, [], now, dd)
  {
    forall n, m | In(s, n, m) ensures Remains(s, n, m, now, dd) {
      assert LastsFrom(s, n, m, n, m, now);
    }
  }

  lemma ReachedFollows(s0: Store, s: Store, flying: seq<Msg>, now: Instant, dd: Option<string>)
    requires Reached(s0, s, flying, now, dd)
    ensures Follows(s0, s, now, Cause(None, None, dd))
  {
    forall n', m' | In(s, n', m') ensures Descends(s0, n', m', now, s.nextId, Cause(None, None, dd)) {
      assert Remains(s0, n', m', now, dd);
      if !(Brandnew(m', s0.nextId) && m'.deduplicationId == dd) {
        var n, m :| LastsFrom(s0, n, m, n', m', now);
        assert Comes(s0, n, m, n', m', now, s.nextId, Cause(None, None, dd));
      }
    }
  }

  lemma ReachedDropsFirst(s0: Store, s: Store, flying: seq<Msg>, now: Instant, dd: Option<string>)
    requires Reached(s0, s, flying, now, dd) && flying != []
    ensures Reached(s0, s, flying[1..], now, dd)
  {
    assert forall e | e in flying[1..] :: e in flying;
  }

  lemma ReachedDropsAll(s0: Store, s: Store, flying: seq<Msg>, now: Instant, dd: Option<string>)
    requires Reached(s0, s, flying, now, dd)
    ensures Reached(s0, s, [], now, dd)
  {
  }

  /** A message with an id that is nowhere in the store joins a queue. */
  lemma AddMessage(s: Store, n: string, m: Msg)
    requires Inv(s) && n in s.queues
    requires m.id < s.nextId && Brandnew(m, 0)
    requires forall n', m' :: In(s, n', m') ==> m'.id != m.id
    ensures var s' := PutQueue(s, n, s.queues[n].(messages := s.queues[n].messages + [m]));
            Inv(s') && (forall n', m' :: In(s', n', m') ==> In(s, n', m') || m' == m)
  {
    var s' := PutQueue(s, n, s.queues[n].(messages := s.queues[n].messages + [m]));
    forall x | x in s.queues[n].messages ensures x.id != m.id {
      assert In(s, n, x);
    }
    DistinctSnoc(s.queues[n].messages, m);
    forall n', m' | In(s', n', m') ensures In(s, n', m') || (m' == m && n' == n) {
    }
    assert IdsUnique(s');
    assert HandlesUnique(s');
    assert AllSound(s');
  }

  lemma NoSuchId(s: Store, n: string, id: Id)
    requires n in s.queues && forall n', m' :: In(s, n', m') ==> m'.id != id
    ensures !exists m | m in s.queues[n].messages :: m.id == id
  {
    forall m | m in s.queues[n].messages ensures m.id != id {
      assert In(s, n, m);
    }
  }

  lemma JoinKeeps(s0: Store, s: Store, flying: seq<Msg>, n: string, m: Msg, now: Instant, dd: Option<string>)
    requires Reached(s0, s, flying, now, dd) && n in s.queues
    requires m.id < s.nextId && Brandnew(m, 0) && Remains(s0, n, m, now, dd)
    requires (forall n', m' :: In(s, n', m') ==> m'.id != m.id) && (forall e | e in flying :: e.id != m.id)
    ensures Reached(s0, PutQueue(s, n, s.queues[n].(messages := s.queues[n].messages + [m])), flying, now, dd)
  {
    AddMessage(s, n, m);
    var s' := PutQueue(s, n, s.queues[n].(messages := s.queues[n].messages + [m]));
    forall n', m' | In(s', n', m') ensures Remains(s0, n', m', now, dd) {
      if n' == n && m' == m {
      } else {
        assert In(s, n', m');
      }
    }
  }

  lemma SentRemains(s0: Store, n: string, m: Msg, now: Instant, dd: Option<string>)
    requires Brandnew(m, 0) && (m.id >= s0.nextId ==> m.deduplicationId == dd)
    requires m.id >= s0.nextId
             || (m.deduplicationId.None? && exists e :: Flies(s0, e, now) && e.id == m.id && e.body == m.body)
    ensures Remains(s0, n, m, now, dd)
  {
    if m.id < s0.nextId {
      var e :| Flies(s0, e, now) && e.id == m.id && e.body == m.body;
      var n0, m0 :| In(s0, n0, m0) && m0.id == e.id && m0.body == e.body && m0.LeaseOver(now);
      assert LastsFrom(s0, n0, m0, n, m, now);
    }
  }

  /** Sending under an id that is not in the store never meets the duplicate-id error. */
  lemma SendKeeps(s0: Store, s: Store, flying: seq<Msg>, n: string, id: Id, body: string, o: SendOptions, now: Instant,
                  dd: Option<string>)
    requires Reached(s0, s, flying, now, dd)
    requires id < s.nextId && (forall n', m' :: In(s, n', m') ==> m'.id != id) && (forall e | e in flying :: e.id != id)
    requires id >= s0.nextId ==> o.deduplicationId == dd
    requires id >= s0.nextId
             || (o.deduplicationId.None? && exists e :: Flies(s0, e, now) && e.id == id && e.body == body)
    ensures var r := SendTo(s, n, id, body, o, now);
            Reached(s0, r.store, flying, now, dd) && r.error != Some(DuplicateId) && r.store.nextId == s.nextId
            && r.store.queues.Keys == s.queues.Keys && r.store.topics == s.topics
  {
    if n in s.queues {
      NoSuchId(s, n, id);
      if SendError(s.queues[n], id, body, o).None? {
        var m := SentMsg(s.queues[n], id, body, o, now);
        SentRemains(s0, n, m, now, dd);
        JoinKeeps(s0, s, flying, n, m, now, dd);
      }
    }
  }

  lemma FreshIdKeeps(s0: Store, s: Store, flying: seq<Msg>, now: Instant, dd: Option<string>)
    requires Reached(s0, s, flying, now, dd)
    ensures Reached(s0, FreshId(s), flying, now, dd)
    ensures forall n', m' :: In(FreshId(s), n', m') ==> m'.id != s.nextId
    ensures forall e | e in flying :: e.id != s.nextId
  {
    assert forall n', m' :: In(FreshId(s), n', m') ==> In(s, n', m');
  }

  lemma {:induction false} PublishEachKeeps(s0: Store, s: Store, flying: seq<Msg>, subs: seq<Subscription>,
          body: string, o: SendOptions, now: Instant, dd: Option<string>)
    requires Reached(s0, s, flying, now, dd) && o.deduplicationId == dd
    ensures var r := PublishEach(s, subs, body, o, now);
            Reached(s0, r.store, flying, now, dd) && r.error != Some(DuplicateId)
            && r.store.queues.Keys == s.queues.Keys && r.store.topics == s.topics
    decreases |subs|
  {
    if subs != [] {
      FreshIdKeeps(s0, s, flying, now, dd);
      SendKeeps(s0, FreshId(s), flying, subs[0].queueName, s.nextId, body, o, now, dd);
      var r := SendTo(FreshId(s), subs[0].queueName, s.nextId, body, o, now);
      if r.error.None? {
        PublishEachKeeps(s0, r.store, flying, subs[1..], body, o, now, dd);
      }
    }
  }

  lemma PublishKeeps(s0: Store, s: Store, flying: seq<Msg>, t: string, body: string, o: SendOptions, now: Instant,
          dd: Option<string>)
    requires Reached(s0, s, flying, now, dd) && o.deduplicationId == dd
    ensures var r := Publish(s, t, body, o, now);
            Reached(s0, r.store, flying, now, dd) && r.error != Some(DuplicateId)
            && r.store.queues.Keys == s.queues.Keys && r.store.topics == s.topics
  {
    if t in s.topics {
      PublishEachKeeps(s0, s, flying, s.topics[t].subscriptions, body, o, now, dd);
    }
  }

  lemma ForwardOneKeeps(s0: Store, s: Store, flying: seq<Msg>, o: QueueOptions, now: Instant)
    requires Reached(s0, s, flying, now, None) && flying != []
    ensures var r := ForwardOne(s, o, flying[0], now);
            Reached(s0, r.store, flying[1..], now, None) && r.error != Some(DuplicateId)
            && r.store.queues.Keys == s.queues.Keys && r.store.topics == s.topics
  {
    var m := flying[0];
    DistinctTail(flying);
    ReachedDropsFirst(s0, s, flying, now, None);
    assert m in flying;
    var s1 := s;
    if Named(o.deadLetterQueueName) {
      SendKeeps(s0, s, flying[1..], o.deadLetterQueueName.value, m.id, m.body, DeadLetterOptions(m), now, None);
      s1 := SendTo(s, o.deadLetterQueueName.value, m.id, m.body, DeadLetterOptions(m), now).store;
    }
    if Named(o.deadLetterTopicName) {
      PublishKeeps(s0, s1, flying[1..], o.deadLetterTopicName.value, m.body, DeadLetterOptions(m), now, None);
    }
  }

  lemma {:induction false} ForwardAllKeeps(s0: Store, s: Store, flying: seq<Msg>, o: QueueOptions, now: Instant)
    requires Reached(s0, s, flying, now, None)
    ensures var r := ForwardAll(s, o, flying, now);
            Reached(s0, r.store, [], now, None) && r.error != Some(DuplicateId)
            && r.store.queues.Keys == s.queues.Keys && r.store.topics == s.topics
    decreases |flying|
  {
    if flying != [] {
      ForwardOneKeeps(s0, s, flying, o, now);
      var r := ForwardOne(s, o, flying[0], now);
      if r.error.None? {
        ForwardAllKeeps(s0, r.store, flying[1..], o, now);
      } else {
        ReachedDropsAll(s0, r.store, flying[1..], now, None);
      }
    }
  }

  lemma FateEvolves(o: QueueOptions, m: Msg, m': Msg, now: Instant)
    requires FateOf(o, m, now) == Stays(m')
    ensures Lasts(m, m', now) && LivesOn(o, m, m')
  {
  }

  lemma LastsTwice(o: QueueOptions, a: Msg, b: Msg, c: Msg, now: Instant)
    requires Lasts(a, b, now) && Lasts(b, c, now) && LivesOn(o, b, c)
    ensures Lasts(a, c, now)
    ensures LivesOn(o, a, b) ==> LivesOn(o, a, c)
    ensures Reborn(a, b, now) ==> Reborn(a, c, now)
  {
  }

  lemma LeavesWasOver(o: QueueOptions, m: Msg, e: Msg, now: Instant)
    requires FateOf(o, m, now) == Leaves(e)
    ensures m.LeaseOver(now) && e.id == m.id && e.body == m.body
  {
  }

  /** Polling one queue: what stays is kept, what is exhausted is in flight. */
  lemma KeptIsStep(s: Store, n: string, now: Instant)
    requires Inv(s) && n in s.queues
    ensures QueueStep(s.queues[n].options, s.queues[n].messages, PollQueue(s.queues[n], now).messages,
                      now, s.nextId, s.nextId, None)
  {
    var q := s.queues[n];
    var k := Kept(q.options, q.messages, now);
    KeptOrigin(q.options, q.messages, now);
    forall m' | m' in k
      ensures From(q.options, q.messages, m', now, s.nextId, s.nextId, None)
      ensures m'.receiptHandle.Some? ==> m'.receiptHandle.value < s.nextId
    {
      assert HasFate(q.options, q.messages, now, Stays(m'));
      var m :| m in q.messages && FateOf(q.options, m, now) == Stays(m');
      FateEvolves(q.options, m, m', now);
      assert In(s, n, m) && Evolved(m, m', now, s.nextId, s.nextId, None);
    }
    forall i | 0 <= i < |k| ensures k[i].receiptHandle.Some? ==> k[i].receiptHandle.value < s.nextId {
      assert k[i] in k;
    }
  }

  lemma PollTakesOff(s0: Store, s: Store, n: string, now: Instant, dd: Option<string>)
    requires Reached(s0, s, [], now, dd) && n in s.queues
    ensures var q := s.queues[n];
            Reached(s0, PutQueue(s, n, PollQueue(q, now)), Reverse(Exhausted(q.options, q.messages, now)), now, dd)
  {
    var q := s.queues[n];
    var s1 := PutQueue(s, n, PollQueue(q, now));
    var e := Exhausted(q.options, q.messages, now);
    KeptIsStep(s, n, now);
    PutStep(s, n, PollQueue(q, now), s.nextId, now, NoCause);
    KeptOrigin(q.options, q.messages, now);
    ExhaustedOrigin(q.options, q.messages, now);
    ReverseDistinct(e);
    ReverseMembers(e);
    forall n', m' | In(s1, n', m') ensures Remains(s0, n', m', now, dd) {
      if n' == n {
        assert HasFate(q.options, q.messages, now, Stays(m'));
        var m :| m in q.messages && FateOf(q.options, m, now) == Stays(m');
        FateEvolves(q.options, m, m', now);
        assert In(s, n, m) && Remains(s0, n, m, now, dd);
        LastsRemains(s0, n, q.options, m, m', now, dd);
      } else {
        assert In(s, n', m');
      }
    }
    forall x | x in e ensures Flies(s0, x, now) && x.id < s.nextId {
      assert HasFate(q.options, q.messages, now, Leaves(x));
      var m :| m in q.messages && FateOf(q.options, m, now) == Leaves(x);
      LeavesWasOver(q.options, m, x, now);
      assert In(s, n, m) && Remains(s0, n, m, now, dd);
      OverFlies(s0, n, m, x, now, dd);
    }
    forall n', m', x | In(s1, n', m') && x in e ensures m'.id != x.id {
      PollSeparates(s, n, now, n', m', x);
    }
  }

  lemma LastsRemains(s0: Store, n': string, o: QueueOptions, m: Msg, m': Msg, now: Instant, dd: Option<string>)
    requires n' in s0.queues && s0.queues[n'].options == o
    requires Remains(s0, n', m, now, dd) && Lasts(m, m', now) && LivesOn(o, m, m')
    ensures Remains(s0, n', m', now, dd)
  {
    if !(Brandnew(m, s0.nextId) && m.deduplicationId == dd) {
      var n, x :| LastsFrom(s0, n, x, n', m, now);
      LastsTwice(o, x, m, m', now);
      assert LastsFrom(s0, n, x, n', m', now);
    }
  }

  lemma OverFlies(s0: Store, n': string, m: Msg, e: Msg, now: Instant, dd: Option<string>)
    requires Remains(s0, n', m, now, dd) && m.LeaseOver(now) && e.id == m.id && e.body == m.body
    ensures Flies(s0, e, now)
  {
    var n, x :| LastsFrom(s0, n, x, n', m, now);
  }

  lemma {:induction false} FatesApart(o: QueueOptions, ms: seq<Msg>, now: Instant, k: Msg, e: Msg)
    requires DistinctIds(ms) && k in Kept(o, ms, now) && e in Exhausted(o, ms, now)
    ensures k.id != e.id
  {
    KeptOrigin(o, ms, now);
    ExhaustedOrigin(o, ms, now);
    assert HasFate(o, ms, now, Stays(k)) && HasFate(o, ms, now, Leaves(e));
    var a :| a in ms && FateOf(o, a, now) == Stays(k);
    var b :| b in ms && FateOf(o, b, now) == Leaves(e);
    FateKeepsId(o, a, now);
    FateKeepsId(o, b, now);
    assert a != b;
  }

  lemma PollSeparates(s: Store, n: string, now: Instant, n': string, m': Msg, x: Msg)
    requires Inv(s) && n in s.queues
    requires In(PutQueue(s, n, PollQueue(s.queues[n], now)), n', m')
    requires x in Exhausted(s.queues[n].options, s.queues[n].messages, now)
    ensures m'.id != x.id
  {
    var q := s.queues[n];
    if n' == n {
      FatesApart(q.options, q.messages, now, m', x);
    } else {
      ExhaustedOrigin(q.options, q.messages, now);
      assert HasFate(q.options, q.messages, now, Leaves(x));
      var m :| m in q.messages && FateOf(q.options, m, now) == Leaves(x);
      FateKeepsId(q.options, m, now);
      assert In(s, n, m) && In(s, n', m');
    }
  }

  lemma DeadLetterKeeps(s0: Store, s: Store, flying: seq<Msg>, o: QueueOptions, now: Instant)
    requires Reached(s0, s, flying, now, None)
    ensures var r := DeadLetter(s, o, flying, now);
            Reached(s0, r.store, [], now, None) && r.error != Some(DuplicateId)
            && r.store.queues.Keys == s.queues.Keys && r.store.topics == s.topics
  {
    ReachedDropsAll(s0, s, flying, now, None);
    ForwardAllKeeps(s0, s, flying, o, now);
  }

  lemma PollOneKeeps(s0: Store, s: Store, n: string, now: Instant)
    requires Reached(s0, s, [], now, None) && n in s.queues
    ensures var r := PollOne(s, n, now);
            Reached(s0, r.store, [], now, None) && r.error != Some(DuplicateId) && r.store.queues.Keys == s.queues.Keys
            && r.store.topics == s.topics
  {
    var q := s.queues[n];
    PollTakesOff(s0, s, n, now, None);
    DeadLetterKeeps(s0, PutQueue(s, n, PollQueue(q, now)), Reverse(Exhausted(q.options, q.messages, now)), q.options,
                    now);
  }

  lemma {:induction false} PollQueuesKeeps(s0: Store, s: Store, order: seq<string>, now: Instant)
    requires Reached(s0, s, [], now, None)
    ensures var r := PollQueues(s, order, now);
            Reached(s0, r.store, [], now, None) && r.error != Some(DuplicateId) && r.store.topics == s.topics
    decreases |order|
  {
    if order != [] {
      if order[0] in s.queues {
        PollOneKeeps(s0, s, order[0], now);
        var r := PollOne(s, order[0], now);
        if r.error.None? {
          PollQueuesKeeps(s0, r.store, order[1..], now);
        }
      } else {
        PollQueuesKeeps(s0, s, order[1..], now);
      }
    }
  }

  // ---- moving

  lemma DistinctConcat(a: seq<Msg>, b: seq<Msg>)
    requires DistinctIds(a) && DistinctIds(b) && forall x, y | x in a && y in b :: x.id != y.id
    ensures DistinctIds(a + b)
  {
  }

  lemma MoversOrigin(ms: seq<Msg>, until: Option<Instant>, now: Instant)
    requires DistinctIds(ms)
    ensures DistinctIds(Movers(ms, until, now)) && DistinctIds(Remaining(ms, now))
    ensures forall m' | m' in Movers(ms, until, now) ::
              exists m | m in ms :: m.Available(now) && m' == m.(retainUntil := until)
    ensures forall m' | m' in Remaining(ms, now) :: m' in ms && !m'.Available(now)
  {
    var f := Filter(ms, IsAvailable(now));
    FilterDistinct(ms, IsAvailable(now));
    FilterMembers(ms, IsAvailable(now));
    ReverseDistinct(f);
    ReverseMembers(f);
    FilterDistinct(ms, Not(IsAvailable(now)));
    FilterMembers(ms, Not(IsAvailable(now)));
    var mv := Movers(ms, until, now);
    forall m' | m' in mv ensures exists m | m in ms :: m.Available(now) && m' == m.(retainUntil := until) {
      var i :| 0 <= i < |mv| && mv[i] == m';
      assert Reverse(f)[i] in Reverse(f);
    }
  }

  lemma MoveOrigin(s: Store, source: string, target: string, now: Instant, n': string, m': Msg)
    returns (n: string, m: Msg)
    requires Inv(s) && source in s.queues && target in s.queues
    requires In(Move(s, source, target, now).store, n', m')
    ensures In(s, n, m) && Evolved(m, m', now, s.nextId, s.nextId, None) && Kin(m, m', s.nextId, s.nextId)
    ensures n' == if n == source && m.Available(now) then target else n
    ensures SameLease(m, m') && Comes(s, n, m, n', m', now, s.nextId, Cause(None, Some(target), None))
  {
    var ms := s.queues[source].messages;
    var until := s.queues[target].options.RetainUntil(now);
    MoversOrigin(ms, until, now);
    var mv := Movers(ms, until, now);
    if n' == target && m' in mv {
      n := source;
      m :| m in ms && m.Available(now) && m' == m.(retainUntil := until);
    } else {
      n, m := n', m';
    }
    assert In(s, n, m);
  }

  lemma MoveDistinct(s: Store, source: string, target: string, now: Instant, n: string)
    requires Inv(s) && source in s.queues && target in s.queues && n in s.queues
    ensures DistinctIds(Move(s, source, target, now).store.queues[n].messages)
  {
    var ms := s.queues[source].messages;
    var until := s.queues[target].options.RetainUntil(now);
    MoversOrigin(ms, until, now);
    if n == target {
      var base := if source == target then Remaining(ms, now) else s.queues[target].messages;
      forall x, y | x in base && y in Movers(ms, until, now) ensures x.id != y.id {
        var m :| m in ms && m.Available(now) && y == m.(retainUntil := until);
        assert In(s, source, m) && In(s, target, x);
        if source == target {
          assert x != m;
        }
      }
      DistinctConcat(base, Movers(ms, until, now));
    }
  }

  lemma MoveKeeps(s: Store, source: string, target: string, now: Instant)
    requires Inv(s)
    ensures var r := Move(s, source, target, now);
            && Inv(r.store)
            && Follows(s, r.store, now, Cause(None, Some(target), None))
  {
    if source in s.queues && target in s.queues {
      var s' := Move(s, source, target, now).store;
      forall n | n in s'.queues ensures DistinctIds(s'.queues[n].messages) {
        MoveDistinct(s, source, target, now, n);
      }
      forall n', m' | In(s', n', m')
        ensures Descends(s, n', m', now, s.nextId, Cause(None, Some(target), None)) && Sound(m', s.nextId)
      {
        var n, m := MoveOrigin(s, source, target, now, n', m');
      }
      forall a, b, m, m' | In(s', a, m) && In(s', b, m') && m.id == m'.id ensures a == b {
        var n1, x := MoveOrigin(s, source, target, now, a, m);
        var n2, y := MoveOrigin(s, source, target, now, b, m');
        SameIdSame(s, n1, x, n2, y);
      }
      forall a, b, m, m' | In(s', a, m) && In(s', b, m') && m.receiptHandle.Some? && m.receiptHandle == m'.receiptHandle
        ensures m.id == m'.id
      {
        var n1, x := MoveOrigin(s, source, target, now, a, m);
        var n2, y := MoveOrigin(s, source, target, now, b, m');
      }
    } else {
      SubStore(s, s, now, Cause(None, Some(target), None));
    }
  }

  /** Unique ids: an id determines the message and the queue it is in. */
  lemma SameIdSame(s: Store, a: string, x: Msg, b: string, y: Msg)
    requires IdsUnique(s) && In(s, a, x) && In(s, b, y) && x.id == y.id
    ensures a == b && x == y
  {
    var ms := s.queues[a].messages;
    var i :| 0 <= i < |ms| && ms[i] == x;
    var j :| 0 <= j < |ms| && ms[j] == y;
  }

  // ---- every operation

  /** Messages only disappear. */
  lemma SubStore(s: Store, s': Store, now: Instant, c: Cause)
    requires Inv(s) && s.nextId <= s'.nextId && TopicsGood(s')
    requires forall n, m :: In(s', n, m) ==> In(s, n, m)
    requires forall n | n in s'.queues :: DistinctIds(s'.queues[n].messages)
    ensures Inv(s') && Follows(s, s', now, c)
  {
    forall n, m | In(s', n, m) ensures Descends(s, n, m, now, s'.nextId, c) && Sound(m, s'.nextId) {
      assert Comes(s, n, m, n, m, now, s'.nextId, c);
    }
    assert HandlesUnique(s');
    assert IdsUnique(s');
  }

  lemma SoundMessages(s: Store, n: string)
    requires Inv(s) && n in s.queues
    ensures DistinctIds(s.queues[n].messages) && forall m | m in s.queues[n].messages :: Sound(m, s.nextId)
  {
    forall m | m in s.queues[n].messages ensures Sound(m, s.nextId) {
      assert In(s, n, m);
    }
  }

  /** The operation replaces queue `n` by one with some of its messages, in any order. */
  lemma ShrinkKeeps(s: Store, n: string, q': Queue, now: Instant, c: Cause)
    requires Inv(s) && n in s.queues
    requires DistinctIds(q'.messages) && forall m | m in q'.messages :: m in s.queues[n].messages
    ensures var s' := PutQueue(s, n, q'); Inv(s') && Follows(s, s', now, c)
  {
    SoundMessages(s, n);
    SameMessages(s.queues[n].options, s.queues[n].messages, q'.messages, now, s.nextId, c.used);
    PutStep(s, n, q', s.nextId, now, c);
  }

  /** The operation changes the message at index `i` of queue `n`. */
  lemma ChangeKeeps(s: Store, n: string, i: nat, m': Msg, now: Instant, c: Cause)
    requires Inv(s) && n in s.queues && i < |s.queues[n].messages|
    requires Evolved(s.queues[n].messages[i], m', now, s.nextId, s.nextId, c.used)
    requires Lives(s.queues[n].options, s.queues[n].messages[i], m')
    ensures var s' := PutQueue(s, n, s.queues[n].(messages := s.queues[n].messages[i := m']));
            Inv(s') && Follows(s, s', now, c)
  {
    SoundMessages(s, n);
    UpdateIsStep(s.queues[n].options, s.queues[n].messages, i, m', now, s.nextId, c.used);
    PutStep(s, n, s.queues[n].(messages := s.queues[n].messages[i := m']), s.nextId, now, c);
  }

  /** The handle with which an operation changes a lease. */
  function UsedHandle(op: Op): Option<Id> {
    match op
    case Naks(_, _, h, _) => Some(h)
    case Extends(_, h, _) => Some(h)
    case Updates(_, _, h, u) => if u.visibilityTimeoutMs.Some? then h else None
    case _ => None
  }

  /** The queue that messages may be moved into. */
  function MovesInto(op: Op): Option<string> {
    if op.Moves? then Some(op.target) else None
  }

  function CauseOf(op: Op): Cause {
    Cause(UsedHandle(op), MovesInto(op), if op.Sends? || op.Publishes? then op.sendOptions.deduplicationId else None)
  }

  ghost predicate KeepsInv(s: Store, op: Op, now: Instant) {
    var r := Apply(s, op, now);
    Inv(r.store) && Follows(s, r.store, now, CauseOf(op)) && r.error != Some(DuplicateId)
  }

  lemma HandleOpsKeep(s: Store, op: Op, now: Instant)
    requires Inv(s) && (op.Naks? || op.Extends? || op.Updates?)
    ensures KeepsInv(s, op, now)
  {
    if Apply(s, op, now).error.Some? {
      SubStore(s, s, now, CauseOf(op));
    } else {
      match op
      case Naks(_, _, _, _) => NakKeeps(s, op, now);
      case Extends(_, _, _) => ExtendKeeps(s, op, now);
      case Updates(_, _, _, _) => UpdateKeeps(s, op, now);
    }
  }

  lemma NakKeeps(s: Store, op: Op, now: Instant)
    requires Inv(s) && op.Naks? && Apply(s, op, now).error.None?
    ensures KeepsInv(s, op, now)
  {
    var ms := s.queues[op.name].messages;
    var i := Find(ms, HasId(op.id)).value;
    ChangeKeeps(s, op.name, i, ms[i].Nak(now, op.reason), now, CauseOf(op));
  }

  lemma ExtendKeeps(s: Store, op: Op, now: Instant)
    requires Inv(s) && op.Extends? && Apply(s, op, now).error.None?
    ensures KeepsInv(s, op, now)
  {
    var ms := s.queues[op.name].messages;
    var i := Find(ms, HasHandle(op.handle)).value;
    ChangeKeeps(s, op.name, i, ms[i].(expiresAt := Some(now + op.timeMs)), now, CauseOf(op));
  }

  lemma UpdateKeeps(s: Store, op: Op, now: Instant)
    requires Inv(s) && op.Updates? && Apply(s, op, now).error.None?
    ensures KeepsInv(s, op, now)
  {
    var ms := s.queues[op.name].messages;
    var i := Find(ms, HasId(op.id)).value;
    ChangeKeeps(s, op.name, i, ms[i].Update(now, op.update), now, CauseOf(op));
  }

  lemma ListOpsKeep(s: Store, op: Op, now: Instant)
    requires Inv(s)
    requires op.Purges? || op.Pauses? || op.Resumes? || op.Peeks? || op.Looks? || op.Deletes? || op.DeletesByHandle?
    ensures KeepsInv(s, op, now)
  {
    var n := op.name;
    if n !in s.queues {
      SubStore(s, s, now, CauseOf(op));
    } else {
      var q := s.queues[n];
      SoundMessages(s, n);
      SortDistinct(q.messages);
      SortMembers(q.messages);
      if op.Deletes? {
        DeleteFromDistinct(q.messages, op.id, op.maybeHandle);
      }
      if op.DeletesByHandle? {
        FilterDistinct(q.messages, Not(HasHandle(op.handle)));
        FilterMembers(q.messages, Not(HasHandle(op.handle)));
      }
      ShrinkKeeps(s, n, Apply(s, op, now).store.queues[n], now, CauseOf(op));
    }
  }

  lemma TopicOpsKeep(s: Store, op: Op, now: Instant)
    requires Inv(s)
    requires op.CreatesTopic? || op.DeletesTopic? || op.Subscribes? || op.Unsubscribes? || op.TimePasses?
    ensures KeepsInv(s, op, now)
  {
    var s' := Apply(s, op, now).store;
    if op.Unsubscribes? {
      UnsubscribeKeeps(s, op.subscription, op.order);
    }
    assert s'.queues == s.queues;
    assert TopicsGood(s');
    SubStore(s, s', now, CauseOf(op));
  }

  lemma {:induction false} RemoveKeepsTargets(subs: seq<Subscription>, id: Id)
    requires DistinctTargets(subs)
    ensures var r := RemoveSubscription(subs, id);
            DistinctTargets(r) && forall x | x in r :: x in subs
  {
    if subs != [] && subs[0].id != id {
      RemoveKeepsTargets(subs[1..], id);
      var t := RemoveSubscription(subs[1..], id);
      forall i | 0 <= i < |t| ensures t[i].queueName != subs[0].queueName {
        assert t[i] in t;
        var k :| 0 <= k < |subs[1..]| && subs[1..][k] == t[i];
        assert subs[k + 1] == t[i];
      }
    }
  }

  lemma {:induction false} UnsubscribeQueues(s: Store, id: Id, order: seq<string>)
    ensures DeleteSubscription(s, id, order).store.queues == s.queues
  {
    if order != [] {
      UnsubscribeQueues(s, id, order[1..]);
    }
  }

  lemma {:induction false} UnsubscribeKeeps(s: Store, id: Id, order: seq<string>)
    requires TopicsGood(s)
    ensures var r := DeleteSubscription(s, id, order);
            r.store.queues == s.queues && r.store.nextId == s.nextId && TopicsGood(r.store)
            && r.error != Some(DuplicateId) && r.delivered == []
  {
    if order != [] {
      if order[0] in s.topics {
        RemoveKeepsTargets(s.topics[order[0]].subscriptions, id);
      }
      UnsubscribeKeeps(s, id, order[1..]);
    }
  }

  lemma QueueOpsKeep(s: Store, op: Op, now: Instant)
    requires Inv(s) && (op.CreatesQueue? || op.DeletesQueue?)
    ensures KeepsInv(s, op, now)
  {
    SubStore(s, Apply(s, op, now).store, now, CauseOf(op));
  }

  lemma SendsKeep(s: Store, op: Op, now: Instant)
    requires Inv(s) && op.Sends?
    ensures KeepsInv(s, op, now)
  {
    var dd := CauseOf(op).dedup;
    ReachedSelf(s, now, dd);
    if op.name in s.queues {
      FreshIdKeeps(s, s, [], now, dd);
      SendKeeps(s, FreshId(s), [], op.name, s.nextId, op.body, op.sendOptions, now, dd);
    }
    ReachedFollows(s, Apply(s, op, now).store, [], now, dd);
  }

  lemma PublishesKeep(s: Store, op: Op, now: Instant)
    requires Inv(s) && op.Publishes?
    ensures KeepsInv(s, op, now)
  {
    ReachedSelf(s, now, CauseOf(op).dedup);
    PublishKeeps(s, s, [], op.topic, op.body, op.sendOptions, now, CauseOf(op).dedup);
    ReachedFollows(s, Apply(s, op, now).store, [], now, CauseOf(op).dedup);
  }

  lemma ExpiryKeeps(s: Store, now: Instant)
    requires Inv(s)
    ensures Reached(s, RemoveExpired(s, now), [], now, None)
  {
    SubStore(s, RemoveExpired(s, now), now, NoCause);
    ExpiryRemains(s, now);
  }

  lemma ExpiryRemains(s: Store, now: Instant)
    ensures forall n, m :: In(RemoveExpired(s, now), n, m) ==> Remains(s, n, m, now, None)
  {
    forall n, m | In(RemoveExpired(s, now), n, m) ensures Remains(s, n, m, now, None) {
      assert LastsFrom(s, n, m, n, m, now);
    }
  }

  lemma PollsKeep(s: Store, op: Op, now: Instant)
    requires Inv(s) && op.Polls?
    ensures KeepsInv(s, op, now)
  {
    ExpiryKeeps(s, now);
    PollQueuesKeeps(s, RemoveExpired(s, now), op.order, now);
    ReachedFollows(s, Apply(s, op, now).store, [], now, None);
  }

  lemma ReceiveKeeps(s: Store, op: Op, now: Instant)
    requires Inv(s) && op.Receives?
    ensures KeepsInv(s, op, now)
  {
    if op.name in s.queues {
      SoundMessages(s, op.name);
      var q := s.queues[op.name];
      var r := Scan(q, now, op.visibilityTimeoutMs, op.room, s.nextId);
      ScanIsStep(q, now, op.visibilityTimeoutMs, op.room, s.nextId);
      PutStep(s, op.name, r.queue, s.nextId + |r.delivered|, now, CauseOf(op));
    } else {
      SubStore(s, s, now, CauseOf(op));
    }
  }

  /** The step theorem: every operation, failing or not, keeps the invariant and evolves each
      message in one of the listed ways; no operation ever meets a duplicate id. */
  lemma StepKeeps(s: Store, op: Op, now: Instant)
    requires Inv(s)
    ensures Inv(Apply(s, op, now).store)
    ensures Follows(s, Apply(s, op, now).store, now, CauseOf(op))
    ensures Apply(s, op, now).error != Some(DuplicateId)
  {
    match op {
      case Naks(_, _, _, _) => HandleOpsKeep(s, op, now);
      case Extends(_, _, _) => HandleOpsKeep(s, op, now);
      case Updates(_, _, _, _) => HandleOpsKeep(s, op, now);
      case CreatesQueue(_, _, _) => QueueOpsKeep(s, op, now);
      case DeletesQueue(_) => QueueOpsKeep(s, op, now);
      case Sends(_, _, _) => SendsKeep(s, op, now);
      case Publishes(_, _, _) => PublishesKeep(s, op, now);
      case Polls(_) => PollsKeep(s, op, now);
      case Receives(_, _, _) => ReceiveKeeps(s, op, now);
      case Moves(n, t) => MoveKeeps(s, n, t, now);
      case CreatesTopic(_, _) => TopicOpsKeep(s, op, now);
      case DeletesTopic(_) => TopicOpsKeep(s, op, now);
      case Subscribes(_, _) => TopicOpsKeep(s, op, now);
      case Unsubscribes(_, _) => TopicOpsKeep(s, op, now);
      case TimePasses(_) => TopicOpsKeep(s, op, now);
      case _ => ListOpsKeep(s, op, now);
    }
  }

  /** Message ids stay unique across all queues in every state of every run. */
  lemma {:induction false} InvAfter(ws: seq<World>, ops: seq<Op>, i: nat)
    requires IsRun(ws, ops) && i <= |ops|
    ensures Inv(ws[i].store)
  {
    if i > 0 {
      InvAfter(ws, ops, i - 1);
      assert StepAt(ws, ops, i - 1);
      StepKeeps(ws[i - 1].store, ops[i - 1], ws[i - 1].now);
    }
  }

  /** The duplicate-id error is unreachable through the store, in every run. */
  lemma NoDuplicateId(ws: seq<World>, ops: seq<Op>, i: nat)
    requires IsRun(ws, ops) && i < |ops|
    ensures Apply(ws[i].store, ops[i], ws[i].now).error != Some(DuplicateId)
  {
    InvAfter(ws, ops, i);
    StepKeeps(ws[i].store, ops[i], ws[i].now);
  }
}
