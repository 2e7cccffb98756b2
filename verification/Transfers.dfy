/** What publishing to a topic and moving messages between queues do, as a whole. */
module Transfers {
  import opened Basics
  import opened Messages
  import opened Queues
  import opened Sendings
  import opened Stores
  import opened Invariants
  import opened Steps

  // ---- publishing

  predicate AllPresent(s: Store, subs: seq<Subscription>) {
    forall i | 0 <= i < |subs| :: subs[i].queueName in s.queues
  }

  /** The queue of the i-th subscription takes the i-th fresh id. */
  ghost predicate TakesAt(s: Store, subs: seq<Subscription>, body: string, o: SendOptions, i: nat)
    requires i < |subs|
  {
    subs[i].queueName in s.queues && SendError(s.queues[subs[i].queueName], s.nextId + i, body, o).None?
  }

  /** The queue got exactly the i-th copy, a message as a send with these options leaves it, behind what
      it held. */
  ghost predicate CopiedAt(s: Store, s': Store, subs: seq<Subscription>, body: string, o: SendOptions, now: Instant,
          i: nat)
    requires i < |subs|
  {
    var n := subs[i].queueName;
    n in s.queues && n in s'.queues
    && var q, q', k := s.queues[n], s'.queues[n], |s.queues[n].messages|;
       && q' == q.(messages := q'.messages) && |q'.messages| == k + 1 && q'.messages[..k] == q.messages
       && AsSent(q.options, q'.messages[k], s.nextId + i, body, o, now)
  }

  /** Every subscribed queue got one copy under its own fresh id, and nothing else changed. */
  ghost predicate FannedOut(s: Store, s': Store, subs: seq<Subscription>, body: string, o: SendOptions, now: Instant) {
    && s'.nextId == s.nextId + |subs| && s'.topics == s.topics && s'.queues.Keys == s.queues.Keys
    && (forall i | 0 <= i < |subs| :: CopiedAt(s, s', subs, body, o, now, i))
    && (forall n | n in s.queues && !Subscribed(subs, n) :: s'.queues[n] == s.queues[n])
  }

  lemma FanOutStep(s: Store, s1: Store, s': Store, subs: seq<Subscription>, body: string, o: SendOptions, now: Instant)
    requires subs != [] && DistinctTargets(subs) && subs[0].queueName in s.queues
    requires var n := subs[0].queueName;
             s1 == PutQueue(FreshId(s), n,
                            s.queues[n].(messages := s.queues[n].messages
                                                     + [SentMsg(s.queues[n], s.nextId, body, o, now)]))
    requires FannedOut(s1, s', subs[1..], body, o, now)
    ensures FannedOut(s, s', subs, body, o, now)
  {
    forall i | 0 <= i < |subs| ensures CopiedAt(s, s', subs, body, o, now, i) {
      if i == 0 {
        assert !Subscribed(subs[1..], subs[0].queueName);
        SentIsAsSent(s.queues[subs[0].queueName], s.nextId, body, o, now);
      } else {
        assert subs[1..][i - 1] == subs[i] && CopiedAt(s1, s', subs[1..], body, o, now, i - 1);
      }
    }
    forall n | n in s.queues && !Subscribed(subs, n) ensures s'.queues[n] == s.queues[n] {
      assert subs[0].queueName != n && !Subscribed(subs[1..], n);
    }
  }

  lemma {:induction false} FanOut(s: Store, subs: seq<Subscription>, body: string, o: SendOptions, now: Instant)
    requires DistinctTargets(subs)
    ensures var r := PublishEach(s, subs, body, o, now);
            && (r.error.None? <==> forall i | 0 <= i < |subs| :: TakesAt(s, subs, body, o, i))
            && (r.error.None? ==> FannedOut(s, r.store, subs, body, o, now))
    decreases |subs|
  {
    if subs != [] {
      var n := subs[0].queueName;
      var first := SendTo(FreshId(s), n, s.nextId, body, o, now);
      if first.error.Some? {
        assert !TakesAt(s, subs, body, o, 0);
      } else {
        FanOut(first.store, subs[1..], body, o, now);
        TakesRest(s, first.store, subs, body, o);
        if PublishEach(s, subs, body, o, now).error.None? {
          FanOutStep(s, first.store, PublishEach(s, subs, body, o, now).store, subs, body, o, now);
        }
      }
    }
  }

  /** The first copy has no bearing on whether the others are taken. */
  lemma TakesLater(s: Store, s1: Store, subs: seq<Subscription>, body: string, o: SendOptions)
    requires subs != [] && DistinctTargets(subs) && s1.nextId == s.nextId + 1
    requires forall n | n != subs[0].queueName ::
               (n in s1.queues <==> n in s.queues) && (n in s.queues ==> s1.queues[n] == s.queues[n])
    ensures forall i | 0 < i < |subs| :: TakesAt(s, subs, body, o, i) <==> TakesAt(s1, subs[1..], body, o, i - 1)
  {
    forall i | 0 < i < |subs| ensures TakesAt(s, subs, body, o, i) <==> TakesAt(s1, subs[1..], body, o, i - 1) {
      assert subs[1..][i - 1] == subs[i];
    }
  }

  lemma TakesRest(s: Store, s1: Store, subs: seq<Subscription>, body: string, o: SendOptions)
    requires subs != [] && DistinctTargets(subs) && TakesAt(s, subs, body, o, 0)
    requires s1.nextId == s.nextId + 1
    requires forall n | n != subs[0].queueName ::
               (n in s1.queues <==> n in s.queues) && (n in s.queues ==> s1.queues[n] == s.queues[n])
    ensures (forall i | 0 <= i < |subs[1..]| :: TakesAt(s1, subs[1..], body, o, i))
       <==> (forall i | 0 <= i < |subs| :: TakesAt(s, subs, body, o, i))
  {
    TakesLater(s, s1, subs, body, o);
    if forall i | 0 <= i < |subs| :: TakesAt(s, subs, body, o, i) {
      forall i | 0 <= i < |subs[1..]| ensures TakesAt(s1, subs[1..], body, o, i) {
        assert TakesAt(s, subs, body, o, i + 1);
      }
    }
  }

  /** A publish accepted by all subscribed queues adds exactly one message, under a fresh id of its
      own, to each of them and touches no other queue; if one is missing, nothing is sent. */
  lemma PublishExactly(s: Store, t: string, body: string, o: SendOptions, now: Instant)
    requires Inv(s) && t in s.topics
    ensures var subs, r := s.topics[t].subscriptions, Publish(s, t, body, o, now);
            && (r.error.None? <==> forall i | 0 <= i < |subs| :: TakesAt(s, subs, body, o, i))
            && (r.error.None? ==> FannedOut(s, r.store, subs, body, o, now))
            && (!AllPresent(s, subs) ==> r == Fails(s, QueueNotFound))
  {
    var subs := s.topics[t].subscriptions;
    FanOut(s, subs, body, o, now);
    if !AllPresent(s, subs) {
      var i :| 0 <= i < |subs| && subs[i].queueName !in s.queues;
      assert !TakesAt(s, subs, body, o, i);
    }
  }

  /** Subscribing twice does not: in every run each topic names a queue at most once. */
  lemma SubscriptionsDistinct(ws: seq<World>, ops: seq<Op>, j: nat, t: string)
    requires IsRun(ws, ops) && j <= |ops| && t in ws[j].store.topics
    ensures DistinctTargets(ws[j].store.topics[t].subscriptions)
  {
    InvAfter(ws, ops, j);
  }

  // ---- moving

  lemma {:induction false} ReverseAt<T>(s: seq<T>, k: nat)
    requires k < |s|
    ensures Reverse(s)[k] == s[|s| - 1 - k]
  {
    if k < |s| - 1 {
      ReverseAt(s[1..], k);
    }
  }

  /** `after` is `before` followed by the messages `go` in reverse, with the given retention. */
  ghost predicate AppendsReversed(after: seq<Msg>, before: seq<Msg>, go: seq<Msg>, until: Option<Instant>) {
    && |after| == |before| + |go| && after[..|before|] == before
    && forall k | |before| <= k < |after| :: after[k] == go[|after| - 1 - k].(retainUntil := until)
  }

  lemma MoversReversed(before: seq<Msg>, ms: seq<Msg>, until: Option<Instant>, now: Instant)
    ensures AppendsReversed(before + Movers(ms, until, now), before, Filter(ms, IsAvailable(now)), until)
  {
    var go, after := Filter(ms, IsAvailable(now)), before + Movers(ms, until, now);
    forall k | |before| <= k < |after| ensures after[k] == go[|after| - 1 - k].(retainUntil := until) {
      ReverseAt(go, k - |before|);
    }
  }

  /** Moving takes exactly the available messages, last one first, appends them to the target with
      the target's retention, and leaves the source with the others in order; with one queue as
      source and target its available messages end up behind the others, reversed. */
  lemma MoveExactly(s: Store, source: string, target: string, now: Instant)
    requires source in s.queues && target in s.queues
    ensures var r, ms := Move(s, source, target, now), s.queues[source].messages;
            var stay := Filter(ms, Not(IsAvailable(now)));
            && r.error.None? && source in r.store.queues && target in r.store.queues
            && (source != target ==> r.store.queues[source].messages == stay)
            && AppendsReversed(r.store.queues[target].messages,
                               if source == target then stay else s.queues[target].messages,
                               Filter(ms, IsAvailable(now)), s.queues[target].options.RetainUntil(now))
  {
    var ms, until := s.queues[source].messages, s.queues[target].options.RetainUntil(now);
    MoversReversed(if source == target then Remaining(ms, now) else s.queues[target].messages, ms, until, now);
  }

  /** What a move leaves of a message: everything but its retention. */
  function Portable(): Msg -> Msg { (m: Msg) => m.(retainUntil := None) }

  function Carried(ms: seq<Msg>): multiset<Msg> { multiset(Map(ms, Portable())) }

  lemma CarriedConcat(a: seq<Msg>, b: seq<Msg>)
    ensures Carried(a + b) == Carried(a) + Carried(b)
  {
    assert Map(a + b, Portable()) == Map(a, Portable()) + Map(b, Portable());
  }

  lemma CarriedCons(m: Msg, ms: seq<Msg>)
    ensures Carried([m] + ms) == multiset{Portable()(m)} + Carried(ms)
  {
    CarriedConcat([m], ms);
    assert Map([m], Portable()) == [Portable()(m)];
  }

  lemma {:induction false} CarriedReverse(ms: seq<Msg>)
    ensures Carried(Reverse(ms)) == Carried(ms)
  {
    if ms != [] {
      CarriedReverse(ms[1..]);
      CarriedConcat(Reverse(ms[1..]), [ms[0]]);
      CarriedCons(ms[0], ms[1..]);
      CarriedCons(ms[0], []);
      assert [ms[0]] + ms[1..] == ms && [ms[0]] + [] == [ms[0]];
    }
  }

  lemma CarriedRetained(ms: seq<Msg>, until: Option<Instant>)
    ensures Carried(Map(ms, Retained(until))) == Carried(ms)
  {
    assert Map(Map(ms, Retained(until)), Portable()) == Map(ms, Portable());
  }

  lemma {:induction false} CarriedSplits(ms: seq<Msg>, p: Msg -> bool)
    ensures Carried(Filter(ms, p)) + Carried(Filter(ms, Not(p))) == Carried(ms)
  {
    if ms != [] {
      var yes, no := Filter(ms[1..], p), Filter(ms[1..], Not(p));
      CarriedSplits(ms[1..], p);
      assert [ms[0]] + ms[1..] == ms;
      CarriedCons(ms[0], ms[1..]);
      if p(ms[0]) {
        assert Filter(ms, p) == [ms[0]] + yes && Filter(ms, Not(p)) == no;
        CarriedCons(ms[0], yes);
      } else {
        assert Filter(ms, p) == yes && Filter(ms, Not(p)) == [ms[0]] + no;
        CarriedCons(ms[0], no);
      }
    }
  }

  /** Moving conserves messages: the two queues together hold the same ones as before, each as it was
      but for its retention, and held or delayed messages stay where they are. */
  lemma MoveConserves(s: Store, source: string, target: string, now: Instant)
    requires source in s.queues && target in s.queues && source != target
    ensures var s' := Move(s, source, target, now).store;
            && source in s'.queues && target in s'.queues
            && Carried(s'.queues[source].messages) + Carried(s'.queues[target].messages)
               == Carried(s.queues[source].messages) + Carried(s.queues[target].messages)
            && (forall m | m in s.queues[source].messages && !m.Available(now) :: m in s'.queues[source].messages)
            && (forall m | m in s.queues[target].messages :: m in s'.queues[target].messages)
  {
    var ms, until := s.queues[source].messages, s.queues[target].options.RetainUntil(now);
    var go := Filter(ms, IsAvailable(now));
    CarriedSplits(ms, IsAvailable(now));
    CarriedReverse(go);
    CarriedRetained(Reverse(go), until);
    CarriedConcat(s.queues[target].messages, Movers(ms, until, now));
    FilterMembers(ms, Not(IsAvailable(now)));
  }
}
