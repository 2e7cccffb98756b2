/** The blocking receive of the SQL store as a small-step machine
    (packages/store-sql/src/SqlStore.ts): receivers register a trigger, query and wait; senders
    commit and then notify; publishes notify inside their transaction and commit at its end. Every
    step up to the next `await`, and every database statement outside a publish, is one step here,
    and the steps of any number of receivers, senders and publishes interleave freely.

    What the two databases add is part of the state. The transactions of SQLite, those of receive
    queries included, exclude each other by a mutex (dialect/SqliteDialect.ts). Postgres has no
    mutex; there a trigger of the table sends a notification at each commit, which reaches the store
    as long as its listening connection is up (dialect/PostgresDialect.ts). */
module WakeUp {
  import opened Basics
  import opened Triggers

  /** A committed send, or a committed publish, to a queue. */
  datatype Entry = Entry(queue: string, published: bool)

  /** Where a call of `receiveMessages` stands. `since` is the number of commits when it added its
      current trigger, `seen` the number of commits its query saw; a paused queue is not queried. */
  datatype Phase =
    | Starting
    | Registered(trigger: nat, since: nat)
    | Queried(trigger: nat, since: nat, seen: Option<nat>)
    | Waiting(trigger: nat, since: nat, seen: Option<nat>)
    | Finished

  datatype Receiver = Receiver(queue: string, phase: Phase)
  {
    predicate Active() { phase.Registered? || phase.Queried? || phase.Waiting? }

    /** Its current pass has queried its queue. */
    predicate Asked() { (phase.Queried? || phase.Waiting?) && phase.seen.Some? }
  }

  datatype Progress = Requested | Open | Ended

  /** A call of `publishMessage` for the subscribed queues, the first `done` of which have their row
      inserted and were notified. */
  datatype Publish = Publish(queues: seq<string>, done: nat, progress: Progress)
  {
    predicate Reached(queue: string) { done <= |queues| && queue in queues[..done] }
  }

  /** `mutex` tells whether transactions exclude each other, and `lock` which publish holds it;
      `connected` whether the database can notify the store. `listed` is the record of triggers by
      queue, `pending` the commits whose notification is still to come, and `unheard` the publishes
      whose notification no connection took up. */
  datatype State = State(
    mutex: bool,
    connected: bool,
    lock: Option<nat>,
    publishes: seq<Publish>,
    listed: map<string, seq<nat>>,
    triggers: seq<TriggerState>,
    receivers: seq<Receiver>,
    log: seq<Entry>,
    pending: set<nat>,
    unheard: set<nat>)

  function Start(mutex: bool, connected: bool): State {
    State(mutex, connected, None, [], map[], [], [], [], {}, {})
  }

  /** What may happen next. `Connects` allows more than the source: when its connection ends, it tries to
      listen again while it still has the old client, which throws, so that the connection never comes back
      (packages/store-sql/src/dialect/PostgresDialect.ts:58-71). No run below that misses a publish needs it. */
  datatype Act =
    | Arrives(queue: string)
    | Registers(r: nat)
    | Queries(r: nat)
    | SkipsQuery(r: nat)
    | Answers(r: nat)
    | Waits(r: nat)
    | GoesOn(r: nat)
    | GivesUp(r: nat)
    | Commits(queue: string)
    | Notifies(i: nat)
    | Signals(queue: string, e: Event)
    | RequestsPublish(queues: seq<string>)
    | OpensPublish(p: nat)
    | SignalsNext(p: nat)
    | CommitsPublish(p: nat)
    | RollsBack(p: nat)
    | Connects
    | Disconnects
    | RunsTimer(t: nat)
    | RunsCallback(t: nat)

  function ListedFor(s: State, queue: string): seq<nat> {
    if queue in s.listed then s.listed[queue] else []
  }

  /** `SqlStore.trigger`: the list is taken out of the record and everyone on it is signalled. */
  function Notify(s: State, queue: string, e: Event): State {
    s.(listed := s.listed - {queue}, triggers := SignalEach(s.triggers, ListedFor(s, queue), e))
  }

  function SetPhase(s: State, r: nat, p: Phase): State
    requires r < |s.receivers|
  {
    s.(receivers := s.receivers[r := s.receivers[r].(phase := p)])
  }

  function SetPublish(s: State, p: nat, u: Publish): State
    requires p < |s.publishes|
  {
    s.(publishes := s.publishes[p := u])
  }

  predicate IsOpen(s: State, p: nat) { p < |s.publishes| && s.publishes[p].progress.Open? }

  predicate Enabled(s: State, a: Act) {
    match a
    case Registers(r) => r < |s.receivers| && s.receivers[r].phase.Starting?
    case Queries(r) => r < |s.receivers| && s.receivers[r].phase.Registered? && s.lock.None?
    case SkipsQuery(r) => r < |s.receivers| && s.receivers[r].phase.Registered?
    case Answers(r) => r < |s.receivers| && s.receivers[r].phase.Queried?
    case Waits(r) => r < |s.receivers| && s.receivers[r].phase.Queried? && s.receivers[r].phase.trigger < |s.triggers|
    case GoesOn(r) => r < |s.receivers| && Woken(s, r)
    case GivesUp(r) => r < |s.receivers| && Woken(s, r)
    case Notifies(i) => i in s.pending && i < |s.log|
    case OpensPublish(p) => p < |s.publishes| && s.publishes[p].progress.Requested? && s.lock.None?
    case SignalsNext(p) => IsOpen(s, p) && s.publishes[p].done < |s.publishes[p].queues|
    case CommitsPublish(p) => IsOpen(s, p) && s.publishes[p].done == |s.publishes[p].queues|
    case RollsBack(p) => IsOpen(s, p)
    case RunsTimer(t) => t < |s.triggers|
    case RunsCallback(t) => t < |s.triggers|
    case _ => true
  }

  /** The wait the receiver awaits has ended. */
  predicate Woken(s: State, r: nat)
    requires r < |s.receivers|
  {
    var p := s.receivers[r].phase;
    p.Waiting? && p.trigger < |s.triggers| && s.triggers[p.trigger].Ended()
  }

  function Between(a: nat, b: nat): (r: set<nat>)
    ensures forall i :: i in r <==> a <= i < b
    decreases b - a
  {
    if a >= b then {} else {a} + Between(a + 1, b)
  }

  /** One entry per queue, and the notifications of the database for them if they can come. */
  function CommitPublish(s: State, queues: seq<string>): State {
    var news := Between(|s.log|, |s.log| + |queues|);
    s.(log := s.log + Map(queues, (q: string) => Entry(q, true)),
       pending := if s.connected then s.pending + news else s.pending,
       unheard := if s.connected then s.unheard else s.unheard + news)
  }

  function Step(s: State, a: Act): State {
    if !Enabled(s, a) then s else
    match a
    case Arrives(q) => s.(receivers := s.receivers + [Receiver(q, Starting)])
    case Registers(r) =>
      var q, t := s.receivers[r].queue, |s.triggers|;
      SetPhase(s, r, Registered(t, |s.log|)).(listed := s.listed[q := ListedFor(s, q) + [t]],
                                              triggers := s.triggers + [FreshTrigger])
    case Queries(r) =>
      SetPhase(s, r, Queried(s.receivers[r].phase.trigger, s.receivers[r].phase.since, Some(|s.log|)))
    case SkipsQuery(r) => SetPhase(s, r, Queried(s.receivers[r].phase.trigger, s.receivers[r].phase.since, None))
    case Answers(r) => SetPhase(s, r, Finished)
    case Waits(r) =>
      var p := s.receivers[r].phase;
      SetPhase(s, r, Waiting(p.trigger, p.since, p.seen)).(
        triggers := s.triggers[p.trigger := OnWait(s.triggers[p.trigger])])
    case GoesOn(r) => SetPhase(s, r, Starting)
    case GivesUp(r) => SetPhase(s, r, Finished)
    case Commits(q) => s.(log := s.log + [Entry(q, false)], pending := s.pending + {|s.log|})
    case Notifies(i) =>
      Notify(s, s.log[i].queue, NewQueueMessage(s.log[i].queue)).(pending := s.pending - {i})
    case Signals(q, e) => Notify(s, q, e)
    case RequestsPublish(queues) => s.(publishes := s.publishes + [Publish(queues, 0, Requested)])
    case OpensPublish(p) =>
      SetPublish(s, p, s.publishes[p].(progress := Open)).(lock := if s.mutex then Some(p) else None)
    case SignalsNext(p) =>
      var u := s.publishes[p];
      SetPublish(Notify(s, u.queues[u.done], NewQueueMessage(u.queues[u.done])), p, u.(done := u.done + 1))
    case CommitsPublish(p) =>
      SetPublish(CommitPublish(s, s.publishes[p].queues), p, s.publishes[p].(progress := Ended)).(lock := None)
    case RollsBack(p) => SetPublish(s, p, s.publishes[p].(progress := Ended)).(lock := None)
    case Connects => s.(connected := true)
    case Disconnects =>
      var lost := set i | i in s.pending && i < |s.log| && s.log[i].published;
      s.(connected := false, pending := s.pending - lost, unheard := s.unheard + lost)
    case RunsTimer(t) => s.(triggers := s.triggers[t := OnTimeout(s.triggers[t], 0)])
    case RunsCallback(t) => s.(triggers := s.triggers[t := OnCallback(s.triggers[t], 0)])
  }

  /** The state after a list of steps; a step that is not enabled changes nothing. */
  function Reached(mutex: bool, connected: bool, acts: seq<Act>): State {
    if acts == [] then Start(mutex, connected)
    else Step(Reached(mutex, connected, acts[..|acts| - 1]), acts[|acts| - 1])
  }

  // ---- the invariant

  /** If the entry is of the queue, its notification is still to come, or it is a publish whose
      notification no connection took up. */
  ghost predicate AnnouncedAt(s: State, queue: string, i: nat)
    requires i < |s.log|
  {
    s.log[i].queue == queue ==> i in s.pending || (s.log[i].published && i in s.unheard)
  }

  /** A trigger nobody has signalled is still listed, and every commit to its queue since it was
      added has its notification coming, if it has one. */
  ghost predicate Covered(s: State, r: nat)
    requires r < |s.receivers|
  {
    var q, p := s.receivers[r].queue, s.receivers[r].phase;
    s.receivers[r].Active() ==>
      && p.trigger < |s.triggers| && p.since <= |s.log|
      && (!p.Registered? && p.seen.Some? ==> p.since <= p.seen.value <= |s.log|)
      && (!p.Waiting? ==> s.triggers[p.trigger].promises == [])
      && (s.triggers[p.trigger].Silent() ==>
            p.trigger in ListedFor(s, q) && forall i | p.since <= i < |s.log| :: AnnouncedAt(s, q, i))
  }

  ghost predicate NotPublishedAt(s: State, queue: string, i: nat)
    requires i < |s.log|
  {
    s.log[i].queue == queue ==> !s.log[i].published
  }

  /** Under the mutex, a receiver no signal has reached since its query has no publish committed
      since, nor one that has inserted its row. */
  ghost predicate Excluded(s: State, r: nat)
    requires r < |s.receivers|
  {
    var q, p := s.receivers[r].queue, s.receivers[r].phase;
    s.mutex && s.receivers[r].Asked() && p.trigger < |s.triggers| && s.triggers[p.trigger].Silent() ==>
      && (forall i | p.seen.value <= i < |s.log| :: NotPublishedAt(s, q, i))
      && (s.lock.Some? && s.lock.value < |s.publishes| ==> !s.publishes[s.lock.value].Reached(q))
  }

  ghost predicate Apart(s: State, r: nat, r': nat)
    requires r < |s.receivers| && r' < |s.receivers|
  {
    s.receivers[r].Active() && s.receivers[r'].Active() ==>
        s.receivers[r].phase.trigger != s.receivers[r'].phase.trigger
  }

  /** Under the mutex exactly the publish that holds it is open; one not opened yet has no rows. */
  ghost predicate Locking(s: State) {
    && (forall p | 0 <= p < |s.publishes| && s.publishes[p].progress.Requested? :: s.publishes[p].done == 0)
    && (s.lock.Some? ==> s.mutex && IsOpen(s, s.lock.value))
    && (s.mutex ==> forall p: nat | IsOpen(s, p) :: s.lock == Some(p))
  }

  ghost predicate Good(s: State) {
    && (forall r | 0 <= r < |s.receivers| :: Covered(s, r) && Excluded(s, r))
    && (forall r, r' | 0 <= r < r' < |s.receivers| :: Apart(s, r, r'))
    && (forall t | 0 <= t < |s.triggers| :: s.triggers[t].Consistent())
    && (forall i | i in s.pending :: i < |s.log| && i !in s.unheard)
    && (forall i | i in s.unheard :: i < |s.log| && s.log[i].published)
    && Locking(s)
  }

  // ---- what steps keep of one receiver

  /** A step that leaves the receiver alone, silences no trigger, takes no silent one off its list,
      and announces what it commits. */
  ghost predicate Spares(s: State, s': State, r: nat)
    requires r < |s.receivers| && Covered(s, r)
  {
    var q, p := s.receivers[r].queue, s.receivers[r].phase;
    && s'.mutex == s.mutex && r < |s'.receivers| && s'.receivers[r] == s.receivers[r]
    && |s.log| <= |s'.log| && s'.log[..|s.log|] == s.log
    && (s.receivers[r].Active() ==>
          && p.trigger < |s'.triggers|
          && (s'.triggers[p.trigger].promises == [] <==> s.triggers[p.trigger].promises == [])
          && (s'.triggers[p.trigger].Silent() ==>
                && s.triggers[p.trigger].Silent() && p.trigger in ListedFor(s', q)
                && forall i | 0 <= i < |s'.log| :: StaysAnnounced(s, s', q, i)))
  }

  ghost predicate StaysAnnounced(s: State, s': State, queue: string, i: nat)
    requires i < |s'.log|
  {
    (i < |s.log| ==> AnnouncedAt(s, queue, i)) ==> AnnouncedAt(s', queue, i)
  }

  lemma CoveredStays(s: State, s': State, r: nat)
    requires r < |s.receivers| && Covered(s, r) && Spares(s, s', r)
    ensures Covered(s', r)
  {
    var q, p := s.receivers[r].queue, s.receivers[r].phase;
    if s.receivers[r].Active() && s'.triggers[p.trigger].Silent() {
      forall i | p.since <= i < |s'.log| ensures AnnouncedAt(s', q, i) {
        assert StaysAnnounced(s, s', q, i);
        assert i < |s.log| ==> AnnouncedAt(s, q, i);
      }
    }
  }

  /** Steps that neither commit a publish nor insert a row of one. */
  lemma ExcludedStays(s: State, s': State, r: nat)
    requires r < |s.receivers| && Covered(s, r) && Spares(s, s', r) && Excluded(s, r)
    requires forall i | |s.log| <= i < |s'.log| :: !s'.log[i].published
    requires s'.lock.Some? && s'.lock.value < |s'.publishes|
             && s'.publishes[s'.lock.value].Reached(s.receivers[r].queue) ==>
               s.lock == s'.lock && s.lock.value < |s.publishes|
                 && s.publishes[s.lock.value].Reached(s.receivers[r].queue)
    ensures Excluded(s', r)
  {
    var q, p := s.receivers[r].queue, s.receivers[r].phase;
    if s'.mutex && s'.receivers[r].Asked() && s'.triggers[p.trigger].Silent() {
      forall i | p.seen.value <= i < |s'.log| ensures NotPublishedAt(s', q, i) {
        if i < |s.log| {
          assert NotPublishedAt(s, q, i) && s'.log[i] == s'.log[..|s.log|][i];
        }
      }
    }
  }

  /** Steps that leave the publishes alone. */
  lemma Stays(s: State, s': State, r: nat)
    requires r < |s.receivers| && Covered(s, r) && Excluded(s, r) && Spares(s, s', r)
    requires s'.publishes == s.publishes && s'.lock == s.lock
    requires forall i | |s.log| <= i < |s'.log| :: !s'.log[i].published
    ensures Covered(s', r) && Excluded(s', r)
  {
    CoveredStays(s, s', r);
    ExcludedStays(s, s', r);
  }

  lemma ApartStays(s: State, s': State)
    requires Good(s) && s'.receivers == s.receivers
    ensures forall r, r' | 0 <= r < r' < |s'.receivers| :: Apart(s', r, r')
  {
    forall r, r' | 0 <= r < r' < |s.receivers| ensures Apart(s', r, r') {
      assert Apart(s, r, r');
    }
  }

  /** What a notification does to one receiver. */
  lemma NotifySpares(s: State, queue: string, e: Event, r: nat)
    requires Good(s) && r < |s.receivers| && Covered(s, r)
    ensures Spares(s, Notify(s, queue, e), r)
    ensures s.receivers[r].Active() && s.receivers[r].queue == queue ==>
              !Notify(s, queue, e).triggers[s.receivers[r].phase.trigger].Silent()
  {
    var s' := Notify(s, queue, e);
    if s.receivers[r].Active() {
      SignalReaches(s.triggers, ListedFor(s, queue), e, s.receivers[r].phase.trigger);
    }
  }

  lemma NotifyConsistent(s: State, queue: string, e: Event)
    requires Good(s)
    ensures forall t | 0 <= t < |s.triggers| :: Notify(s, queue, e).triggers[t].Consistent()
  {
    forall t | 0 <= t < |s.triggers| ensures Notify(s, queue, e).triggers[t].Consistent() {
      SignalReaches(s.triggers, ListedFor(s, queue), e, t);
    }
  }

  lemma NotifyGood(s: State, queue: string, e: Event)
    requires Good(s)
    ensures Good(Notify(s, queue, e))
  {
    var s' := Notify(s, queue, e);
    forall r | 0 <= r < |s.receivers| ensures Covered(s', r) && Excluded(s', r) {
      NotifySpares(s, queue, e, r);
      Stays(s, s', r);
    }
    NotifyConsistent(s, queue, e);
    ApartStays(s, s');
  }

  /** A notification that has come is off the pending ones: everyone it was for is signalled. */
  lemma NotifiesGood(s: State, i: nat)
    requires Good(s) && i in s.pending && i < |s.log|
    ensures Good(Step(s, Notifies(i)))
  {
    var q := s.log[i].queue;
    var e := NewQueueMessage(q);
    var s' := Step(s, Notifies(i));
    forall r | 0 <= r < |s.receivers| ensures Covered(s', r) && Excluded(s', r) {
      NotifySpares(s, q, e, r);
      if s.receivers[r].Active() && s'.triggers[s.receivers[r].phase.trigger].Silent() {
        forall k | 0 <= k < |s.log| ensures StaysAnnounced(s, s', s.receivers[r].queue, k) {
          assert StaysAnnounced(s, Notify(s, q, e), s.receivers[r].queue, k);
        }
      }
      Stays(s, s', r);
    }
    NotifyConsistent(s, q, e);
    ApartStays(s, s');
  }

  /** The next row of a publish: whoever has queried its queue is signalled. */
  lemma SignalsNextGood(s: State, p: nat)
    requires Good(s) && IsOpen(s, p) && s.publishes[p].done < |s.publishes[p].queues|
    ensures Good(Step(s, SignalsNext(p)))
  {
    var u := s.publishes[p];
    var q := u.queues[u.done];
    var e := NewQueueMessage(q);
    var s1, s' := Notify(s, q, e), Step(s, SignalsNext(p));
    forall r | 0 <= r < |s.receivers| ensures Covered(s', r) && Excluded(s', r) {
      NotifySpares(s, q, e, r);
      assert Spares(s, s', r);
      CoveredStays(s, s', r);
      if s.receivers[r].queue != q {
        assert u.queues[..u.done + 1] == u.queues[..u.done] + [q];
        ExcludedStays(s, s', r);
      }
    }
    NotifyConsistent(s, q, e);
    ApartStays(s, s');
  }

  lemma CommitGood(s: State, queue: string)
    requires Good(s)
    ensures Good(Step(s, Commits(queue)))
  {
    var s' := Step(s, Commits(queue));
    forall r | 0 <= r < |s.receivers| ensures Covered(s', r) && Excluded(s', r) {
      Stays(s, s', r);
    }
    ApartStays(s, s');
  }

  /** Nobody who could miss the publish is waiting under the mutex; elsewhere the database notifies. */
  lemma CommitsPublishGood(s: State, p: nat)
    requires Good(s) && IsOpen(s, p) && s.publishes[p].done == |s.publishes[p].queues|
    ensures Good(Step(s, CommitsPublish(p)))
  {
    var s' := Step(s, CommitsPublish(p));
    var u := s.publishes[p];
    forall r | 0 <= r < |s.receivers| ensures Covered(s', r) && Excluded(s', r) {
      CoveredStays(s, s', r);
      if s.mutex {
        assert u.queues[..u.done] == u.queues;
        CommittedApart(s, s', r, u.queues);
      }
    }
    ApartStays(s, s');
  }

  lemma CommittedApart(s: State, s': State, r: nat, queues: seq<string>)
    requires r < |s.receivers| && Covered(s, r) && Excluded(s, r)
    requires s'.mutex && s.mutex && s'.receivers == s.receivers && s'.triggers == s.triggers && s'.lock.None?
    requires s'.log == s.log + Map(queues, (q: string) => Entry(q, true))
    requires s.lock.Some? && s.lock.value < |s.publishes|
    requires s.publishes[s.lock.value].queues == queues && s.publishes[s.lock.value].done == |queues|
    ensures Excluded(s', r)
  {
    var q, ph := s.receivers[r].queue, s.receivers[r].phase;
    if s.receivers[r].Asked() && s.triggers[ph.trigger].Silent() {
      assert queues[..|queues|] == queues;
      forall i | ph.seen.value <= i < |s'.log| ensures NotPublishedAt(s', q, i) {
        if i < |s.log| {
          assert NotPublishedAt(s, q, i);
        } else {
          assert s'.log[i].queue == queues[i - |s.log|];
        }
      }
    }
  }

  /** A publish is asked for, opens, or ends without effect. */
  lemma PublishGood(s: State, a: Act)
    requires Good(s) && Enabled(s, a) && (a.OpensPublish? || a.RollsBack? || a.RequestsPublish?)
    ensures Good(Step(s, a))
  {
    var s' := Step(s, a);
    forall r | 0 <= r < |s.receivers| ensures Covered(s', r) && Excluded(s', r) {
      CoveredStays(s, s', r);
      ExcludedStays(s, s', r);
    }
    ApartStays(s, s');
  }

  /** The listening connection comes up or goes down; what it would have delivered is unheard then. */
  lemma ConnectionGood(s: State, a: Act)
    requires Good(s) && (a.Connects? || a.Disconnects?)
    ensures Good(Step(s, a))
  {
    var s' := Step(s, a);
    forall r | 0 <= r < |s.receivers| ensures Covered(s', r) && Excluded(s', r) {
      forall i | 0 <= i < |s.log| ensures StaysAnnounced(s, s', s.receivers[r].queue, i) {}
      Stays(s, s', r);
    }
    ApartStays(s, s');
  }

  /** One receiver changes its phase; triggers and lists stay. */
  lemma PhaseGood(s: State, r: nat, p: Phase)
    requires Good(s) && r < |s.receivers| && Covered(SetPhase(s, r, p), r) && Excluded(SetPhase(s, r, p), r)
    requires p.Starting? || p.Finished? || (s.receivers[r].Active() && p.trigger == s.receivers[r].phase.trigger)
    ensures Good(SetPhase(s, r, p))
  {
    var s' := SetPhase(s, r, p);
    forall x | 0 <= x < |s.receivers| && x != r ensures Covered(s', x) && Excluded(s', x) {
      Stays(s, s', x);
    }
    forall x, y | 0 <= x < y < |s.receivers| ensures Apart(s', x, y) {
      assert Apart(s, x, y);
    }
  }

  lemma QueryGood(s: State, r: nat, seen: Option<nat>)
    requires Good(s) && r < |s.receivers| && s.receivers[r].phase.Registered?
    requires seen.Some? ==> seen.value == |s.log| && s.lock.None?
    ensures Good(SetPhase(s, r, Queried(s.receivers[r].phase.trigger, s.receivers[r].phase.since, seen)))
  {
    var p := Queried(s.receivers[r].phase.trigger, s.receivers[r].phase.since, seen);
    var s' := SetPhase(s, r, p);
    assert Covered(s, r);
    forall k | p.since <= k < |s.log| && s.triggers[p.trigger].Silent()
      ensures AnnouncedAt(s', s.receivers[r].queue, k)
    {
      assert AnnouncedAt(s, s.receivers[r].queue, k);
    }
    PhaseGood(s, r, p);
  }

  /** A trigger makes a step of its own: it does not become silent again, and is asked only once. */
  lemma TriggerGood(s: State, t: nat, u: TriggerState)
    requires Good(s) && t < |s.triggers| && u.Consistent()
    requires u.Silent() ==> s.triggers[t].Silent()
    requires u.promises == [] <==> s.triggers[t].promises == []
    ensures Good(s.(triggers := s.triggers[t := u]))
  {
    var s' := s.(triggers := s.triggers[t := u]);
    forall x | 0 <= x < |s.receivers| ensures Covered(s', x) && Excluded(s', x) {
      Stays(s, s', x);
    }
    ApartStays(s, s');
  }

  lemma RegisterGood(s: State, r: nat)
    requires Good(s) && r < |s.receivers| && s.receivers[r].phase.Starting?
    ensures Good(Step(s, Registers(r)))
  {
    var s' := Step(s, Registers(r));
    forall x | 0 <= x < |s.receivers| && x != r ensures Covered(s', x) && Excluded(s', x) {
      Stays(s, s', x);
    }
    forall x, y | 0 <= x < y < |s.receivers| ensures Apart(s', x, y) {
      assert Apart(s, x, y) && Covered(s, x) && Covered(s, y);
    }
  }

  /** Only the receiver itself waits on its trigger. */
  lemma WaitGood(s: State, r: nat)
    requires Good(s) && r < |s.receivers| && s.receivers[r].phase.Queried?
    ensures Good(Step(s, Waits(r)))
  {
    var s' := Step(s, Waits(r));
    assert Covered(s, r) && Excluded(s, r);
    forall x | 0 <= x < |s.receivers| && x != r ensures Covered(s', x) && Excluded(s', x) {
      assert if x < r then Apart(s, x, r) else Apart(s, r, x);
      Stays(s, s', x);
    }
    WaiterGood(s, r);
    forall x, y | 0 <= x < y < |s.receivers| ensures Apart(s', x, y) {
      assert Apart(s, x, y);
    }
  }

  lemma WaiterGood(s: State, r: nat)
    requires r < |s.receivers| && Covered(s, r) && Excluded(s, r) && s.receivers[r].phase.Queried?
    requires Enabled(s, Waits(r))
    ensures Covered(Step(s, Waits(r)), r) && Excluded(Step(s, Waits(r)), r)
  {
    var s' := Step(s, Waits(r));
    var q, p := s.receivers[r].queue, s.receivers[r].phase;
    if s'.triggers[p.trigger].Silent() {
      forall k | p.since <= k < |s.log| ensures AnnouncedAt(s', q, k) {
        assert AnnouncedAt(s, q, k);
      }
      if s.mutex && s.receivers[r].Asked() {
        forall k | p.seen.value <= k < |s.log| ensures NotPublishedAt(s', q, k) {
          assert NotPublishedAt(s, q, k);
        }
      }
    }
  }

  lemma ArriveGood(s: State, queue: string)
    requires Good(s)
    ensures Good(Step(s, Arrives(queue)))
  {
    var s' := Step(s, Arrives(queue));
    forall x | 0 <= x < |s.receivers| ensures Covered(s', x) && Excluded(s', x) {
      Stays(s, s', x);
    }
    forall x, y | 0 <= x < y < |s'.receivers| ensures Apart(s', x, y) {
      if y < |s.receivers| {
        assert Apart(s, x, y);
      }
    }
  }

  lemma StepGood(s: State, a: Act)
    requires Good(s)
    ensures Good(Step(s, a))
  {
    if Enabled(s, a) {
      match a
      case Arrives(q) => ArriveGood(s, q);
      case Registers(r) => RegisterGood(s, r);
      case Queries(r) => QueryGood(s, r, Some(|s.log|));
      case SkipsQuery(r) => QueryGood(s, r, None);
      case Answers(r) => PhaseGood(s, r, Finished);
      case Waits(r) => WaitGood(s, r);
      case GoesOn(r) => PhaseGood(s, r, Starting);
      case GivesUp(r) => PhaseGood(s, r, Finished);
      case Commits(q) => CommitGood(s, q);
      case Notifies(i) => NotifiesGood(s, i);
      case Signals(q, e) => NotifyGood(s, q, e);
      case SignalsNext(p) => SignalsNextGood(s, p);
      case CommitsPublish(p) => CommitsPublishGood(s, p);
      case RunsTimer(t) => TriggerGood(s, t, OnTimeout(s.triggers[t], 0));
      case RunsCallback(t) => TriggerGood(s, t, OnCallback(s.triggers[t], 0));
      case Connects => ConnectionGood(s, a);
      case Disconnects => ConnectionGood(s, a);
      case _ => PublishGood(s, a);
    }
  }

  lemma StepMutex(s: State, a: Act)
    ensures Step(s, a).mutex == s.mutex
  {
  }

  lemma {:induction false} GoodAlways(mutex: bool, connected: bool, acts: seq<Act>)
    ensures Good(Reached(mutex, connected, acts)) && Reached(mutex, connected, acts).mutex == mutex
  {
    if acts != [] {
      GoodAlways(mutex, connected, acts[..|acts| - 1]);
      StepMutex(Reached(mutex, connected, acts[..|acts| - 1]), acts[|acts| - 1]);
      StepGood(Reached(mutex, connected, acts[..|acts| - 1]), acts[|acts| - 1]);
    }
  }

  // ---- no lost wake-up

  /** The receiver waits, and nothing is under way that would wake it. */
  predicate Blocked(s: State, r: nat) {
    && r < |s.receivers| && s.receivers[r].phase.Waiting? && s.receivers[r].phase.trigger < |s.triggers|
    && s.triggers[s.receivers[r].phase.trigger].Blocked()
  }

  /** No lost wake-up, in every interleaving, on either database: while a receiver is blocked, each send
      committed to its queue since its query, indeed since it registered, still has its notification
      to come. */
  lemma NoLostWakeUp(mutex: bool, connected: bool, acts: seq<Act>, r: nat, i: nat)
    requires var s := Reached(mutex, connected, acts);
             && Blocked(s, r) && s.receivers[r].phase.since <= i < |s.log|
             && s.log[i] == Entry(s.receivers[r].queue, false)
    ensures i in Reached(mutex, connected, acts).pending
  {
    GoodAlways(mutex, connected, acts);
    assert Covered(Reached(mutex, connected, acts), r);
    assert AnnouncedAt(Reached(mutex, connected, acts), Reached(mutex, connected, acts).receivers[r].queue, i);
  }

  /** The query of a blocked receiver came after its registration. */
  lemma QueryAfterRegistration(mutex: bool, connected: bool, acts: seq<Act>, r: nat)
    requires Blocked(Reached(mutex, connected, acts), r)
    ensures var s := Reached(mutex, connected, acts); var p := s.receivers[r].phase;
            p.since <= |s.log| && (p.seen.Some? ==> p.since <= p.seen.value <= |s.log|)
  {
    GoodAlways(mutex, connected, acts);
    assert Covered(Reached(mutex, connected, acts), r);
  }

  /** A notification reaches every receiver of the queue that has registered: none stays silent. */
  lemma NotificationReaches(mutex: bool, connected: bool, acts: seq<Act>, i: nat, r: nat)
    requires var s := Reached(mutex, connected, acts); i in s.pending && i < |s.log| && r < |s.receivers|
    requires Reached(mutex, connected, acts).receivers[r].queue == Reached(mutex, connected, acts).log[i].queue
    ensures !Blocked(Step(Reached(mutex, connected, acts), Notifies(i)), r)
  {
    GoodAlways(mutex, connected, acts);
    var s := Reached(mutex, connected, acts);
    assert Covered(s, r);
    NotifySpares(s, s.log[i].queue, NewQueueMessage(s.log[i].queue), r);
  }

  /** The trigger of a blocked receiver is listed, and a notification makes its wait due. */
  lemma NotificationSchedules(mutex: bool, connected: bool, acts: seq<Act>, i: nat, r: nat)
    requires var s := Reached(mutex, connected, acts);
             Blocked(s, r) && i in s.pending && i < |s.log| && s.log[i].queue == s.receivers[r].queue
    ensures var s := Reached(mutex, connected, acts); var t := s.receivers[r].phase.trigger;
            && t < |s.triggers| == |Step(s, Notifies(i)).triggers|
            && Step(s, Notifies(i)).triggers[t].promises == [Scheduled(NewQueueMessage(s.receivers[r].queue))]
  {
    GoodAlways(mutex, connected, acts);
    var s := Reached(mutex, connected, acts);
    assert Covered(s, r);
    var t := s.receivers[r].phase.trigger;
    assert s.triggers[t].Consistent() && s.triggers[t] == AskedTrigger;
    SignalSchedules(s.triggers, ListedFor(s, s.log[i].queue), NewQueueMessage(s.log[i].queue), t);
  }

  /** A receiver whose wait is due: the callback runs, it goes on and adds a new trigger. */
  lemma GoesOnAndRegisters(s: State, r: nat, e: Event)
    requires r < |s.receivers| && s.receivers[r].phase.Waiting? && s.receivers[r].phase.trigger < |s.triggers|
    requires s.triggers[s.receivers[r].phase.trigger].promises == [Scheduled(e)]
    ensures var s1 := Step(s, RunsCallback(s.receivers[r].phase.trigger));
            var s2 := Step(s1, GoesOn(r));
            var s3 := Step(s2, Registers(r));
            && s3.log == s.log && s3.lock == s.lock && |s3.receivers| == |s.receivers|
            && s3.receivers[r] == Receiver(s.receivers[r].queue, Registered(|s.triggers|, |s.log|))
  {
    var t := s.receivers[r].phase.trigger;
    var s1 := Step(s, RunsCallback(t));
    assert s1.triggers[t].promises == [Settled(ByEvent(e))] && Woken(s1, r);
    var s2 := Step(s1, GoesOn(r));
    assert s2.receivers[r].phase.Starting?;
  }

  /** A notification leads a blocked receiver to its next query, which sees every commit there is: the one
      it is notified of and all since. */
  lemma NotificationLeadsToQuery(mutex: bool, connected: bool, acts: seq<Act>, i: nat, r: nat)
    requires var s := Reached(mutex, connected, acts);
             Blocked(s, r) && i in s.pending && i < |s.log| && s.log[i].queue == s.receivers[r].queue && s.lock.None?
    ensures var s := Reached(mutex, connected, acts); var t := s.receivers[r].phase.trigger;
            var s' := Reached(mutex, connected,
                              acts + [Notifies(i)] + [RunsCallback(t)] + [GoesOn(r)] + [Registers(r)] + [Queries(r)]);
            && s'.log == s.log && r < |s'.receivers| && s'.receivers[r].queue == s.receivers[r].queue
            && s'.receivers[r].Asked() && s'.receivers[r].phase.seen == Some(|s'.log|)
  {
    var s := Reached(mutex, connected, acts);
    var t, q := s.receivers[r].phase.trigger, s.receivers[r].queue;
    NotificationSchedules(mutex, connected, acts, i, r);
    GoesOnAndRegisters(Step(s, Notifies(i)), r, NewQueueMessage(q));
    ReachedThen(mutex, connected, acts, Notifies(i));
    ThreeThen(mutex, connected, acts + [Notifies(i)], RunsCallback(t), GoesOn(r), Registers(r));
    ReachedThen(mutex, connected, acts + [Notifies(i)] + [RunsCallback(t)] + [GoesOn(r)] + [Registers(r)], Queries(r));
  }

  /** At quiescence a blocked receiver has missed no send: all were committed before its query. */
  lemma QuiescentMissesNothing(mutex: bool, connected: bool, acts: seq<Act>, r: nat, i: nat)
    requires var s := Reached(mutex, connected, acts);
             && s.pending == {} && Blocked(s, r) && i < |s.log|
             && s.log[i] == Entry(s.receivers[r].queue, false)
    ensures var p := Reached(mutex, connected, acts).receivers[r].phase;
            i < p.since && (p.seen.Some? ==> i < p.seen.value)
  {
    QueryAfterRegistration(mutex, connected, acts, r);
    if Reached(mutex, connected, acts).receivers[r].phase.since <= i {
      NoLostWakeUp(mutex, connected, acts, r, i);
    }
  }

  // ---- publishes

  /** A commit the receiver's query did not see, and no notification of it is left to come. */
  predicate Misses(s: State, r: nat, i: nat) {
    && Blocked(s, r) && s.receivers[r].phase.seen.Some? && s.receivers[r].phase.seen.value <= i < |s.log|
    && s.log[i].queue == s.receivers[r].queue && i !in s.pending
  }

  /** Under the mutex a blocked receiver was not published to since its query. */
  lemma MutexMissesNothing(connected: bool, acts: seq<Act>, r: nat, i: nat)
    requires var s := Reached(true, connected, acts);
             && Blocked(s, r) && s.receivers[r].phase.seen.Some? && i < |s.log|
             && s.log[i] == Entry(s.receivers[r].queue, true)
    ensures i < Reached(true, connected, acts).receivers[r].phase.seen.value
  {
    GoodAlways(true, connected, acts);
    var s := Reached(true, connected, acts);
    assert Covered(s, r) && Excluded(s, r);
    assert s.receivers[r].phase.seen.value <= i ==> NotPublishedAt(s, s.receivers[r].queue, i);
  }

  /** What a blocked receiver misses is exactly a publish, without the mutex, that no listening
      connection took up. */
  lemma MissesExactly(mutex: bool, connected: bool, acts: seq<Act>, r: nat, i: nat)
    requires var s := Reached(mutex, connected, acts);
             && Blocked(s, r) && s.receivers[r].phase.seen.Some? && s.receivers[r].phase.seen.value <= i < |s.log|
             && s.log[i].queue == s.receivers[r].queue
    ensures var s := Reached(mutex, connected, acts);
            Misses(s, r, i) <==> s.log[i].published && !mutex && i in s.unheard
  {
    GoodAlways(mutex, connected, acts);
    var s := Reached(mutex, connected, acts);
    assert Covered(s, r);
    assert AnnouncedAt(s, s.receivers[r].queue, i);
    if mutex && s.log[i].published {
      MutexMissesNothing(connected, acts, r, i);
    }
  }

  lemma StepConnected(s: State, a: Act)
    requires s.connected && s.unheard == {} && a != Disconnects
    ensures Step(s, a).connected && Step(s, a).unheard == {}
  {
  }

  /** While the listening connection stays up, every publish is heard. */
  lemma {:induction false} ConnectedHearsAll(mutex: bool, acts: seq<Act>)
    requires Disconnects !in acts
    ensures Reached(mutex, true, acts).connected && Reached(mutex, true, acts).unheard == {}
  {
    if acts != [] {
      ConnectedHearsAll(mutex, acts[..|acts| - 1]);
      StepConnected(Reached(mutex, true, acts[..|acts| - 1]), acts[|acts| - 1]);
    }
  }

  /** A commit is missed in some run that does not take the connection down. */
  ghost predicate MayMiss(mutex: bool, connected: bool) {
    exists acts: seq<Act>, r: nat, i: nat ::
      Disconnects !in acts && Misses(Reached(mutex, connected, acts), r, i)
  }

  /** The same, whatever happens to the connection. */
  ghost predicate MayEverMiss(mutex: bool, connected: bool) {
    exists acts: seq<Act>, r: nat, i: nat :: Misses(Reached(mutex, connected, acts), r, i)
  }

  lemma ReachedThen(mutex: bool, connected: bool, acts: seq<Act>, a: Act)
    ensures Reached(mutex, connected, acts + [a]) == Step(Reached(mutex, connected, acts), a)
  {
    assert (acts + [a])[..|acts|] == acts;
  }

  lemma ThreeThen(mutex: bool, connected: bool, acts: seq<Act>, a: Act, b: Act, c: Act)
    ensures Reached(mutex, connected, acts + [a] + [b] + [c])
         == Step(Step(Step(Reached(mutex, connected, acts), a), b), c)
  {
    ReachedThen(mutex, connected, acts, a);
    ReachedThen(mutex, connected, acts + [a], b);
    ReachedThen(mutex, connected, acts + [a] + [b], c);
  }

  /** A state with one publish to "q", no mutex, no connection and nothing committed. */
  ghost predicate Looks(s: State, publish: Publish, receivers: seq<Receiver>, triggers: seq<TriggerState>) {
    && !s.mutex && !s.connected && s.lock.None? && s.publishes == [publish]
    && s.receivers == receivers && s.triggers == triggers && s.listed.Keys <= {"q"}
    && s.log == [] && s.pending == {} && s.unheard == {}
  }

  lemma NotifiesNobody()
    ensures var s' := Step(Step(Step(Start(false, false), RequestsPublish(["q"])), OpensPublish(0)), SignalsNext(0));
            Looks(s', Publish(["q"], 1, Open), [], [])
  {
    var s1 := Step(Start(false, false), RequestsPublish(["q"]));
    assert Looks(s1, Publish(["q"], 0, Requested), [], []);
    var s2 := Step(s1, OpensPublish(0));
    assert Looks(s2, Publish(["q"], 0, Open), [], []);
  }

  lemma FallsAsleep(s: State)
    requires Looks(s, Publish(["q"], 1, Open), [Receiver("q", Starting)], [])
    ensures var s' := Step(Step(Step(s, Registers(0)), Queries(0)), Waits(0));
            Looks(s', Publish(["q"], 1, Open), [Receiver("q", Waiting(0, 0, Some(0)))], [AskedTrigger])
  {
    var s1 := Step(s, Registers(0));
    assert Looks(s1, Publish(["q"], 1, Open), [Receiver("q", Registered(0, 0))], [FreshTrigger]);
    var s2 := Step(s1, Queries(0));
    assert Looks(s2, Publish(["q"], 1, Open), [Receiver("q", Queried(0, 0, Some(0)))], [FreshTrigger]);
    assert OnWait(FreshTrigger) == AskedTrigger;
  }

  const Notified := [] + [RequestsPublish(["q"])] + [OpensPublish(0)] + [SignalsNext(0)]

  const Asleep := Notified + [Arrives("q")] + [Registers(0)] + [Queries(0)] + [Waits(0)]

  const Missing := Asleep + [CommitsPublish(0)]

  lemma CommitIsMissed(s: State)
    requires Looks(s, Publish(["q"], 1, Open), [Receiver("q", Waiting(0, 0, Some(0)))], [AskedTrigger])
    ensures var s' := Step(s, CommitsPublish(0));
            Misses(s', 0, 0) && s'.log == [Entry("q", true)] && s'.pending == {}
  {
    assert Map(["q"], (q: string) => Entry(q, true)) == [Entry("q", true)];
  }

  /** Without mutex and connection a receiver can come after a publish has notified, query before it
      commits, and wait. */
  lemma PublishIsMissed()
    ensures var s := Reached(false, false, Missing);
            && Misses(s, 0, 0) && s.log == [Entry("q", true)] && s.pending == {} && Disconnects !in Missing
  {
    ThreeThen(false, false, [], RequestsPublish(["q"]), OpensPublish(0), SignalsNext(0));
    NotifiesNobody();
    ReachedThen(false, false, Notified, Arrives("q"));
    ThreeThen(false, false, Notified + [Arrives("q")], Registers(0), Queries(0), Waits(0));
    FallsAsleep(Reached(false, false, Notified + [Arrives("q")]));
    ReachedThen(false, false, Asleep, CommitsPublish(0));
    CommitIsMissed(Reached(false, false, Asleep));
  }

  /** Exactly which databases keep a receiver from missing a publish while their connection is as it
      was: those with a transaction mutex, and those whose listening connection is up. */
  lemma MayMissExactly(mutex: bool, connected: bool)
    ensures MayMiss(mutex, connected) <==> !mutex && !connected
  {
    if MayMiss(mutex, connected) {
      var acts, r: nat, i: nat :| Disconnects !in acts && Misses(Reached(mutex, connected, acts), r, i);
      MissesExactly(mutex, connected, acts, r, i);
      if connected {
        ConnectedHearsAll(mutex, acts);
      }
    }
    if !mutex && !connected {
      PublishIsMissed();
    }
  }

  lemma StartDisconnected()
    ensures Step(Start(false, true), Disconnects) == Start(false, false)
  {
  }

  lemma {:induction false} ReachedAfterDisconnecting(acts: seq<Act>)
    ensures Reached(false, true, [Disconnects] + acts) == Reached(false, false, acts)
  {
    if acts == [] {
      assert [Disconnects] + acts == [] + [Disconnects];
      ReachedThen(false, true, [], Disconnects);
      StartDisconnected();
    } else {
      var n := |acts| - 1;
      ReachedAfterDisconnecting(acts[..n]);
      ReachedThen(false, true, [Disconnects] + acts[..n], acts[n]);
      ReachedThen(false, false, acts[..n], acts[n]);
      assert acts == acts[..n] + [acts[n]];
      assert [Disconnects] + acts == ([Disconnects] + acts[..n]) + [acts[n]];
    }
  }

  /** With a connection that may go down, only the mutex keeps a receiver from missing a publish. */
  lemma MayEverMissExactly(mutex: bool, connected: bool)
    ensures MayEverMiss(mutex, connected) <==> !mutex
  {
    if MayEverMiss(mutex, connected) {
      var acts, r: nat, i: nat :| Misses(Reached(mutex, connected, acts), r, i);
      MissesExactly(mutex, connected, acts, r, i);
    }
    if !mutex {
      PublishIsMissed();
      if connected {
        ReachedAfterDisconnecting(Missing);
        assert Misses(Reached(false, true, [Disconnects] + Missing), 0, 0);
      }
    }
  }
}
