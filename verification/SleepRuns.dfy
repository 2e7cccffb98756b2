/** The store and the receivers of one of its queues, side by side: the machine of `Stores` and that of
    `Waiters` take their steps together, the receivers hearing of an operation exactly when it signals
    them (packages/store-memory/src/MemoryQueue.ts). */
module SleepRuns {
  import opened Basics
  import opened Queues
  import opened Stores
  import opened Triggers
  import opened Sleepers
  import opened BrokerRuns
  import W = Waiters

  datatype Joint = Joint(world: World, waiters: W.State)

  /** An operation on the store; a pass of receiver `r` over the queue, with its deadline gone by if
      `late`; or another step of a receiver or its timers. */
  datatype Turn =
    | Operates(op: Op)
    | Passes(r: nat, visibilityTimeoutMs: Option<int>, room: int, late: bool)
    | Waits(act: W.Act)

  predicate MayPass(j: Joint, n: string, r: nat) {
    n in j.world.store.queues && W.Enabled(j.waiters, W.Scans(r, true))
  }

  /** What the turn does to the store. */
  function OpOf(j: Joint, t: Turn, n: string): Op {
    match t
    case Operates(op) => op
    case Passes(r, vis, room, _) => if MayPass(j, n, r) then Receives(n, vis, room) else TimePasses(0)
    case Waits(_) => TimePasses(0)
  }

  /** The pass ends asleep: it did not fill its room, and its deadline lies ahead. */
  predicate EndsAsleep(j: Joint, t: Turn, n: string)
    requires t.Passes?
  {
    var got := DeliveredBy(j.world, Receives(n, t.visibilityTimeoutMs, t.room));
    !t.late && !(0 < |got| == t.room)
  }

  /** What the turn does to the receivers. */
  function WaitersAfter(j: Joint, t: Turn, n: string): W.State {
    match t
    case Operates(op) =>
      if Signals(j.world.store, op, j.world.now, n)
      then W.Step(j.waiters, W.Happens(if op.Resumes? then Resumed(n) else NewQueueMessage(n)))
      else j.waiters
    case Passes(r, _, _, _) =>
      if MayPass(j, n, r) then W.Step(j.waiters, W.Scans(r, EndsAsleep(j, t, n))) else j.waiters
    case Waits(a) => if a.Happens? || a.Scans? then j.waiters else W.Step(j.waiters, a)
  }

  /** A queue that is removed takes its receivers with it: one created later has a list of its own. */
  function Next(j: Joint, t: Turn, n: string): Joint {
    var w := Step(j.world, OpOf(j, t, n));
    Joint(w, if n in j.world.store.queues && n !in w.store.queues then W.Start else WaitersAfter(j, t, n))
  }

  predicate TurnAt(js: seq<Joint>, ts: seq<Turn>, n: string, i: nat) {
    i < |ts| && i + 1 < |js| && js[i + 1] == Next(js[i], ts[i], n)
  }

  ghost predicate IsJointRun(js: seq<Joint>, ts: seq<Turn>, n: string) {
    && |js| == |ts| + 1 && js[0].world.store == EmptyStore && js[0].waiters == W.Start
    && forall i | 0 <= i < |ts| :: TurnAt(js, ts, n, i)
  }

  // ---- the run of the store in it

  function Worlds(js: seq<Joint>): (ws: seq<World>)
    ensures |ws| == |js| && forall i | 0 <= i < |js| :: ws[i] == js[i].world
  {
    seq(|js|, i requires 0 <= i < |js| => js[i].world)
  }

  function Ops(js: seq<Joint>, ts: seq<Turn>, n: string): (ops: seq<Op>)
    requires |ts| <= |js|
    ensures |ops| == |ts| && forall i | 0 <= i < |ts| :: ops[i] == OpOf(js[i], ts[i], n)
  {
    seq(|ts|, i requires 0 <= i < |ts| => OpOf(js[i], ts[i], n))
  }

  lemma TurnOfStore(js: seq<Joint>, ts: seq<Turn>, n: string, i: nat)
    requires IsJointRun(js, ts, n) && i < |ts|
    ensures js[i + 1].world == Step(js[i].world, OpOf(js[i], ts[i], n))
  {
    assert TurnAt(js, ts, n, i);
  }

  lemma StoreRun(js: seq<Joint>, ts: seq<Turn>, n: string)
    requires IsJointRun(js, ts, n)
    ensures IsRun(Worlds(js), Ops(js, ts, n))
  {
    forall i | 0 <= i < |ts| ensures StepAt(Worlds(js), Ops(js, ts, n), i) {
      TurnOfStore(js, ts, n, i);
    }
  }

  // ---- what a blocked receiver may have missed

  lemma {:induction false} WaitersGood(js: seq<Joint>, ts: seq<Turn>, n: string, j: nat)
    requires IsJointRun(js, ts, n) && j <= |ts|
    ensures W.Good(js[j].waiters)
  {
    if j > 0 {
      WaitersGood(js, ts, n, j - 1);
      assert TurnAt(js, ts, n, j - 1);
      NextGood(js[j - 1], ts[j - 1], n);
    }
  }

  lemma NextGood(j: Joint, t: Turn, n: string)
    requires W.Good(j.waiters)
    ensures W.Good(Next(j, t, n).waiters)
  {
    forall a ensures W.Good(W.Step(j.waiters, a)) {
      W.StepGood(j.waiters, a);
    }
  }

  /** The turn in which the receiver fell asleep. */
  ghost predicate FallsAsleep(j: Joint, t: Turn, n: string, r: nat) {
    t.Passes? && t.r == r && MayPass(j, n, r) && EndsAsleep(j, t, n)
  }

  ghost predicate SignalledIn(j: Joint, t: Turn, n: string) {
    Signals(j.world.store, OpOf(j, t, n), j.world.now, n)
  }

  lemma TriggerSilentBefore(s: TriggerState)
    ensures OnTimeout(s, 0).Silent() ==> s.Silent()
    ensures OnCallback(s, 0).Silent() ==> s.Silent()
  {
    if s.promises != [] {
      var timedOut, called := OnTimeout(s, 0), OnCallback(s, 0);
      assert timedOut.promises[0].Settled?;
      assert called.promises == s.promises || called.promises[0].Settled?;
    }
  }

  lemma StepBlocks(s: W.State, a: W.Act, r: nat)
    requires W.Good(s) && W.Blocked(W.Step(s, a), r)
    ensures (a.Scans? && a.r == r && a.sleeps && W.Enabled(s, a)) || W.Blocked(s, r)
    ensures !a.Happens?
  {
    if a.Happens? {
      W.EventGood(s, a.e);
    } else if (a.RunsTimer? || a.RunsCallback?) && a.t < |s.triggers| {
      TriggerSilentBefore(s.triggers[a.t]);
    }
    assert W.Covered(W.Step(s, a), r) by {
      W.StepGood(s, a);
    }
    if r < |s.receivers| {
      assert W.Covered(s, r);
    }
  }

  /** Who is blocked fell asleep just now, or was blocked before and is not signalled. */
  lemma BlockedBefore(j: Joint, t: Turn, n: string, r: nat)
    requires W.Good(j.waiters) && W.Blocked(Next(j, t, n).waiters, r)
    ensures FallsAsleep(j, t, n, r) || (W.Blocked(j.waiters, r) && !SignalledIn(j, t, n))
  {
    match t
    case Operates(op) =>
      if SignalledIn(j, t, n) {
        StepBlocks(j.waiters, W.Happens(if op.Resumes? then Resumed(n) else NewQueueMessage(n)), r);
      }
    case Passes(x, _, _, _) =>
      if MayPass(j, n, x) {
        StepBlocks(j.waiters, W.Scans(x, EndsAsleep(j, t, n)), r);
      }
    case Waits(a) =>
      if !a.Happens? && !a.Scans? {
        StepBlocks(j.waiters, a, r);
      }
  }

  lemma BlockedInRun(js: seq<Joint>, ts: seq<Turn>, n: string, j: nat, r: nat)
    requires IsJointRun(js, ts, n) && j <= |ts| && W.Blocked(js[j].waiters, r)
    ensures j > 0
    ensures FallsAsleep(js[j - 1], ts[j - 1], n, r)
            || (W.Blocked(js[j - 1].waiters, r) && !SignalledIn(js[j - 1], ts[j - 1], n))
  {
    assert j > 0;
    assert TurnAt(js, ts, n, j - 1);
    WaitersGood(js, ts, n, j - 1);
    BlockedBefore(js[j - 1], ts[j - 1], n, r);
  }

  /** Every blocked receiver has a pass it fell asleep in, and nothing signalled it since. */
  lemma {:induction false} LastPass(js: seq<Joint>, ts: seq<Turn>, n: string, j: nat, r: nat) returns (i: nat)
    requires IsJointRun(js, ts, n) && j <= |ts| && W.Blocked(js[j].waiters, r)
    ensures i < j && FallsAsleep(js[i], ts[i], n, r)
    ensures forall l | i < l < j :: !SignalledIn(js[l], ts[l], n)
  {
    BlockedInRun(js, ts, n, j, r);
    if FallsAsleep(js[j - 1], ts[j - 1], n, r) {
      i := j - 1;
    } else {
      i := LastPass(js, ts, n, j - 1, r);
    }
  }

  /** The queue was not paused, and what was handed out was leased. */
  ghost predicate Thorough(j: Joint, t: Turn, n: string) {
    t.Passes? && n in j.world.store.queues && !j.world.store.queues[n].paused
    && VisibilityTimeout(j.world.store.queues[n], t.visibilityTimeoutMs) >= 0
  }

  /** Turn `k` made a message receivable when none was, and there has been one ever since. */
  ghost predicate FreedSince(js: seq<Joint>, ts: seq<Turn>, n: string, k: nat, j: nat)
    requires k < j <= |ts| < |js|
  {
    && !ReadyIn(js[k].world, n) && FreesIn(js[k].world, OpOf(js[k], ts[k], n), n)
    && forall l | k < l < j :: StaysReady(js, n, l)
  }

  /** Turn `l` does not take the last receivable message. */
  ghost predicate StaysReady(js: seq<Joint>, n: string, l: nat)
    requires l + 1 < |js|
  {
    ReadyIn(js[l].world, n) ==> ReadyIn(js[l + 1].world, n)
  }

  /** In every run of the store with its receivers: a blocked receiver coexists with a message it could
      have exactly if one of the operations since its last pass freed one that is still there. */
  lemma BlockedBeside(js: seq<Joint>, ts: seq<Turn>, n: string, j: nat, r: nat) returns (i: nat)
    requires IsJointRun(js, ts, n) && j <= |ts| && W.Blocked(js[j].waiters, r)
    ensures i < j && FallsAsleep(js[i], ts[i], n, r)
    ensures Thorough(js[i], ts[i], n) ==>
              (ReadyIn(js[j].world, n) <==> exists k | i < k < j :: FreedSince(js, ts, n, k, j))
  {
    i := LastPass(js, ts, n, j, r);
    if Thorough(js[i], ts[i], n) {
      AsleepExactly(js, ts, n, i, j, r);
    }
  }

  lemma AsleepExactly(js: seq<Joint>, ts: seq<Turn>, n: string, i: nat, j: nat, r: nat)
    requires IsJointRun(js, ts, n) && i < j <= |ts| && FallsAsleep(js[i], ts[i], n, r) && Thorough(js[i], ts[i], n)
    requires forall l | i < l < j :: !SignalledIn(js[l], ts[l], n)
    ensures ReadyIn(js[j].world, n) <==> exists k | i < k < j :: FreedSince(js, ts, n, k, j)
  {
    PassLeavesNothing(js, ts, n, i, r);
    if ReadyIn(js[j].world, n) {
      var k := ReadyIsFreed(js, ts, n, i, j);
    }
    forall k | i < k < j && FreedSince(js, ts, n, k, j) ensures ReadyIn(js[j].world, n) {
      FreedIsReady(js, ts, n, k, j);
    }
  }

  lemma ReadyIsFreed(js: seq<Joint>, ts: seq<Turn>, n: string, i: nat, j: nat) returns (k: nat)
    requires IsJointRun(js, ts, n) && i < j <= |ts| && !ReadyIn(js[i + 1].world, n) && ReadyIn(js[j].world, n)
    requires forall l | i < l < j :: !SignalledIn(js[l], ts[l], n)
    ensures i < k < j && FreedSince(js, ts, n, k, j)
  {
    var ws, ops := Worlds(js), Ops(js, ts, n);
    StoreRun(js, ts, n);
    forall l | i < l < j ensures !SignalsIn(ws[l], ops[l], n) {
      assert !SignalledIn(js[l], ts[l], n);
    }
    k := SleepsBeside(ws, ops, i + 1, j, n);
    FreedAt(js, ts, n, k, j);
  }

  lemma FreedIsReady(js: seq<Joint>, ts: seq<Turn>, n: string, k: nat, j: nat)
    requires IsJointRun(js, ts, n) && k < j <= |ts| && FreedSince(js, ts, n, k, j) && !SignalledIn(js[k], ts[k], n)
    ensures ReadyIn(js[j].world, n)
  {
    StoreRun(js, ts, n);
    StepFreesExactly(Worlds(js), Ops(js, ts, n), k, n);
    StillReady(js, ts, n, k, j, j);
  }

  lemma PassLeavesNothing(js: seq<Joint>, ts: seq<Turn>, n: string, i: nat, r: nat)
    requires IsJointRun(js, ts, n) && i < |ts| && FallsAsleep(js[i], ts[i], n, r) && Thorough(js[i], ts[i], n)
    ensures !ReadyIn(js[i + 1].world, n)
  {
    assert TurnAt(js, ts, n, i);
    ScanLeavesNothing(js[i].world.store, OpOf(js[i], ts[i], n), js[i].world.now);
  }

  lemma FreedAt(js: seq<Joint>, ts: seq<Turn>, n: string, k: nat, j: nat)
    requires IsJointRun(js, ts, n) && k < j <= |ts|
    requires !ReadyIn(js[k].world, n) && FreesIn(js[k].world, OpOf(js[k], ts[k], n), n)
    requires forall l | k < l <= j :: ReadyIn(js[l].world, n)
    ensures FreedSince(js, ts, n, k, j)
  {
    forall l | k < l < j ensures StaysReady(js, n, l) {
      assert ReadyIn(js[l + 1].world, n);
    }
  }

  lemma {:induction false} StillReady(js: seq<Joint>, ts: seq<Turn>, n: string, k: nat, j: nat, l: nat)
    requires k < l <= j <= |ts| < |js| && FreedSince(js, ts, n, k, j) && ReadyIn(js[k + 1].world, n)
    ensures ReadyIn(js[l].world, n)
    decreases l
  {
    if l > k + 1 {
      StillReady(js, ts, n, k, j, l - 1);
      assert StaysReady(js, n, l - 1);
    }
  }

  // ---- such a run

  function AfterTurns(j: Joint, ts: seq<Turn>, n: string): Joint {
    if ts == [] then j else Next(AfterTurns(j, ts[..|ts| - 1], n), ts[|ts| - 1], n)
  }

  lemma TurnsThen(j: Joint, ts: seq<Turn>, t: Turn, n: string)
    ensures AfterTurns(j, ts + [t], n) == Next(AfterTurns(j, ts, n), t, n)
  {
    assert (ts + [t])[..|ts|] == ts;
  }

  lemma TurnAtLonger(js: seq<Joint>, ts: seq<Turn>, js': seq<Joint>, ts': seq<Turn>, n: string, i: nat)
    requires IsJointRun(js, ts, n) && i < |ts| && js <= js' && ts <= ts'
    ensures TurnAt(js', ts', n, i)
  {
    assert TurnAt(js, ts, n, i);
  }

  lemma TurnAtEnd(js: seq<Joint>, ts: seq<Turn>, t: Turn, n: string)
    requires |js| == |ts| + 1
    ensures TurnAt(js + [Next(js[|ts|], t, n)], ts + [t], n, |ts|)
  {
  }

  lemma JointRunLonger(js: seq<Joint>, ts: seq<Turn>, t: Turn, n: string)
    requires IsJointRun(js, ts, n)
    ensures IsJointRun(js + [Next(js[|ts|], t, n)], ts + [t], n)
  {
    var js' := js + [Next(js[|ts|], t, n)];
    forall i | 0 <= i < |ts + [t]| ensures TurnAt(js', ts + [t], n, i) {
      if i < |ts| {
        TurnAtLonger(js, ts, js', ts + [t], n, i);
      } else {
        TurnAtEnd(js, ts, t, n);
      }
    }
  }

  lemma {:induction false} JointRunOf(j: Joint, ts: seq<Turn>, n: string) returns (js: seq<Joint>)
    requires j.world.store == EmptyStore && j.waiters == W.Start
    ensures IsJointRun(js, ts, n) && js[|ts|] == AfterTurns(j, ts, n)
  {
    hide Next;
    if ts == [] {
      js := [j];
    } else {
      var k := |ts| - 1;
      var before := JointRunOf(j, ts[..k], n);
      js := before + [Next(before[k], ts[k], n)];
      assert ts == ts[..k] + [ts[k]];
      JointRunLonger(before, ts[..k], ts[k], n);
    }
  }

  /** One receiver, asleep. */
  const OneAsleep := W.State([0], [AskedTrigger], [W.Waiting(0, 0)], 0)

  const Arrived := W.State([], [], [W.Starting], 0)

  lemma Arriving(w: World, n: string)
    ensures Next(Joint(w, W.Start), Waits(W.Arrives), n) == Joint(w, Arrived)
  {
    assert [] + [W.Starting] == [W.Starting];
  }

  lemma Sleeping(w: World, n: string)
    requires n in w.store.queues && Receive(w.store, n, None, 1, w.now) == Done(w.store)
    ensures Next(Joint(w, Arrived), Passes(0, None, 1, false), n) == Joint(w, OneAsleep)
  {
    assert W.Step(Arrived, W.Scans(0, true)) == OneAsleep by {
      assert OnWait(FreshTrigger) == AskedTrigger;
      assert [] + [0] == [0] && [] + [AskedTrigger] == [AskedTrigger];
      assert [W.Starting][0 := W.Waiting(0, 0)] == [W.Waiting(0, 0)];
    }
  }

  lemma Unheard(j: Joint, op: Op, n: string)
    requires !Signals(j.world.store, op, j.world.now, n) && n in Step(j.world, op).store.queues
    ensures Next(j, Operates(op), n) == Joint(Step(j.world, op), j.waiters)
  {
  }

  lemma PassesEmpty(a: string, b: string)
    requires a != b
    ensures Receive(Pair(a, [], b, [], 0), b, None, 1, 0) == Done(Pair(a, [], b, [], 0))
  {
    assert Receive(Pair(a, [], b, [], 0), b, None, 1, 0).store.queues == Pair(a, [], b, [], 0).queues;
  }

  function TwoCreated(a: string, b: string): seq<Turn> {
    [] + [Operates(CreatesQueue(a, NoOptions, false))] + [Operates(CreatesQueue(b, LimitOne, false))]
  }

  function FallenAsleep(a: string, b: string): seq<Turn> {
    TwoCreated(a, b) + [Waits(W.Arrives)] + [Passes(0, None, 1, false)]
  }

  function MovedPast(a: string, b: string, body: string): seq<Turn> {
    FallenAsleep(a, b) + [Operates(Sends(a, body, Plain))] + [Operates(Moves(a, b))]
  }

  const Outset := Joint(World(EmptyStore, 0), W.Start)

  lemma AfterCreating(a: string, b: string)
    requires IsName(a) && IsName(b) && a != b
    ensures AfterTurns(Outset, TwoCreated(a, b), b) == Joint(World(Pair(a, [], b, [], 0), 0), W.Start)
  {
    TurnsThen(Outset, [], Operates(CreatesQueue(a, NoOptions, false)), b);
    TurnsThen(Outset, []
      + [Operates(CreatesQueue(a, NoOptions, false))], Operates(CreatesQueue(b, LimitOne, false)), b);
    CreatesPair(a, b);
  }

  lemma AfterFallingAsleep(a: string, b: string)
    requires IsName(a) && IsName(b) && a != b
    ensures AfterTurns(Outset, FallenAsleep(a, b), b) == Joint(World(Pair(a, [], b, [], 0), 0), OneAsleep)
  {
    AfterCreating(a, b);
    TurnsThen(Outset, TwoCreated(a, b), Waits(W.Arrives), b);
    TurnsThen(Outset, TwoCreated(a, b) + [Waits(W.Arrives)], Passes(0, None, 1, false), b);
    PassesEmpty(a, b);
    Arriving(World(Pair(a, [], b, [], 0), 0), b);
    Sleeping(World(Pair(a, [], b, [], 0), 0), b);
  }

  lemma AfterMovingPast(a: string, b: string, body: string)
    requires IsName(a) && IsName(b) && a != b
    ensures AfterTurns(Outset, MovedPast(a, b, body), b)
         == Joint(World(Pair(a, [], b, [SentAs(body)], 1), 0), OneAsleep)
  {
    var sent := FallenAsleep(a, b) + [Operates(Sends(a, body, Plain))];
    AfterFallingAsleep(a, b);
    TurnsThen(Outset, FallenAsleep(a, b), Operates(Sends(a, body, Plain)), b);
    SendsOne(a, b, body);
    Unheard(Joint(World(Pair(a, [], b, [], 0), 0), OneAsleep), Sends(a, body, Plain), b);
    TurnsThen(Outset, sent, Operates(Moves(a, b)), b);
    MovesOne(a, b, SentAs(body), 1, 0);
    Unheard(Joint(World(Pair(a, [SentAs(body)], b, [], 1), 0), OneAsleep), Moves(a, b), b);
  }

  lemma SentIsReady(a: string, b: string, body: string)
    requires a != b
    ensures Ready(Pair(a, [], b, [SentAs(body)], 1), b, 0)
  {
    assert ReadyAt(Pair(a, [], b, [SentAs(body)], 1), b, SentAs(body), 0);
  }

  /** A receiver finds nothing in a queue and sleeps; a message is sent to another queue and moved over:
      the receiver sleeps on beside it. */
  lemma MovedBeside(a: string, b: string, body: string) returns (js: seq<Joint>)
    requires IsName(a) && IsName(b) && a != b
    ensures var k := |MovedPast(a, b, body)|;
            && IsJointRun(js, MovedPast(a, b, body), b)
            && W.Blocked(js[k].waiters, 0) && ReadyIn(js[k].world, b)
  {
    js := JointRunOf(Outset, MovedPast(a, b, body), b);
    AfterMovingPast(a, b, body);
    SentIsReady(a, b, body);
  }
}
